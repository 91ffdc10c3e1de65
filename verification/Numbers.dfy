/** The smaller and the larger of two numbers, and the delay before a retry. */
module Numbers {

  function Min(a: int, b: int): int { if a <= b then a else b }

  function Max(a: int, b: int): int { if a >= b then a else b }

  function Power(k: nat): nat { if k == 0 then 1 else 2 * Power(k - 1) }

  /** The seconds to wait after the given number of attempts: doubling, and never more than 300. */
  function Backoff(attempts: nat): int { Min(300, Power(attempts)) }

  lemma {:induction false} PowerGrows(a: nat, b: nat)
    requires a <= b
    ensures 1 <= Power(a) <= Power(b)
    decreases b
  {
    if a < b { PowerGrows(a, b - 1); } else if b > 0 { PowerGrows(a - 1, b - 1); }
  }

  /** The delay is between one second and 300, and never shrinks. */
  lemma BackoffGrows(a: nat, b: nat)
    requires a <= b
    ensures 1 <= Backoff(a) <= Backoff(b) <= 300
  {
    PowerGrows(a, b);
  }

  /** It is one second before any attempt, and doubles with each until it is 300. */
  lemma BackoffDoubles(k: nat)
    ensures Backoff(0) == 1 && Backoff(k + 1) == if Backoff(k) >= 150 then 300 else 2 * Backoff(k)
  {
    PowerGrows(k, k + 1);
  }
}
