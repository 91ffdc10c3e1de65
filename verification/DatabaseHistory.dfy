/** What a shared row or table held, and when. */
module DatabaseHistory {

  datatype Version<V> = Version(value: V, since: int)

  type History<V> = seq<Version<V>>

  /** Versions follow one another in time; none begins after `clock`. */
  ghost predicate Chronological<V>(h: History<V>, clock: int) {
    && h != []
    && (forall i :: 0 <= i < |h| ==> h[i].since <= clock)
    && (forall i, j :: 0 <= i < j < |h| ==> h[i].since <= h[j].since)
  }

  /** Version i was in force at the instant: begun, and not replaced before it. */
  ghost predicate InForce<V>(h: History<V>, i: nat, instant: int) {
    i < |h| && h[i].since <= instant && (i + 1 < |h| ==> instant <= h[i + 1].since)
  }

  lemma CurrentInForce<V>(h: History<V>, clock: int)
    requires Chronological(h, clock)
    ensures InForce(h, |h| - 1, clock)
  {}

  /** A later change leaves what was in force before it as it was. */
  lemma StaysInForce<V>(h: History<V>, i: nat, instant: int, v: Version<V>)
    requires InForce(h, i, instant) && instant <= v.since
    ensures InForce(h + [v], i, instant)
  {}
}
