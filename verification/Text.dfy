/** Decimal digits and splitting, as the parsers of the repository use them on ASCII text. */
module Text {

  predicate IsDigit(c: char) { '0' <= c <= '9' }

  predicate IsDigits(s: string) { s != "" && forall i :: 0 <= i < |s| ==> IsDigit(s[i]) }

  function DigitValue(c: char): (v: nat)
    requires IsDigit(c)
    ensures v < 10
  {
    (c as int) - ('0' as int)
  }

  function DigitChar(v: nat): (c: char)
    requires v < 10
    ensures IsDigit(c) && DigitValue(c) == v
  {
    (('0' as int) + v) as char
  }

  function DigitsValue(s: string): nat
    requires forall i :: 0 <= i < |s| ==> IsDigit(s[i])
  {
    if s == "" then 0 else DigitsValue(s[..|s| - 1]) * 10 + DigitValue(s[|s| - 1])
  }

  function Decimal(n: nat): string {
    if n < 10 then [DigitChar(n)] else Decimal(n / 10) + [DigitChar(n % 10)]
  }

  /** Printing a number and reading it back; no superfluous leading zero is printed. */
  lemma {:induction false} DecimalRoundTrip(n: nat)
    ensures IsDigits(Decimal(n)) && DigitsValue(Decimal(n)) == n
    ensures Decimal(n)[0] == '0' ==> n == 0
  {
    var s := Decimal(n);
    if n < 10 {
      assert s[..0] == "";
    } else {
      DecimalRoundTrip(n / 10);
      assert s[..|s| - 1] == Decimal(n / 10);
    }
  }

  /** The first position of c in s, or |s|. */
  function FirstOf(s: string, c: char): (i: nat)
    ensures i <= |s| && c !in s[..i] && (i < |s| ==> s[i] == c)
  {
    if s == "" || s[0] == c then 0 else
      var i := 1 + FirstOf(s[1..], c);
      assert s[..i] == [s[0]] + s[1..][..i - 1];
      i
  }

  datatype Parts = Parts(before: string, found: bool, after: string)

  /** str.partition on one character. */
  function Partition(s: string, c: char): Parts {
    var i := FirstOf(s, c);
    if i < |s| then Parts(s[..i], true, s[i + 1..]) else Parts(s, false, "")
  }

  lemma PartitionJoined(a: string, c: char, b: string)
    requires c !in a
    ensures Partition(a + [c] + b, c) == Parts(a, true, b)
  {
    var s := a + [c] + b;
    FirstIs(s, c, |a|);
    assert s[..|a|] == a && s[|a| + 1..] == b;
  }

  lemma {:induction false} FirstIs(s: string, c: char, k: nat)
    requires k < |s| && s[k] == c && c !in s[..k]
    ensures FirstOf(s, c) == k
  {
    if k > 0 {
      assert s[..k] == [s[0]] + s[1..][..k - 1];
      FirstIs(s[1..], c, k - 1);
    }
  }

  lemma PartitionPlain(a: string, c: char)
    requires c !in a
    ensures Partition(a, c) == Parts(a, false, "")
  {}

  /** str.split on one character. */
  function Split(s: string, c: char): (parts: seq<string>)
    ensures |parts| >= 1
    decreases |s|
  {
    var p := Partition(s, c);
    if p.found then [p.before] + Split(p.after, c) else [s]
  }

  function Join(parts: seq<string>, c: char): string
    requires |parts| >= 1
  {
    if |parts| == 1 then parts[0] else parts[0] + [c] + Join(parts[1..], c)
  }

  lemma {:induction false} SplitJoin(parts: seq<string>, c: char)
    requires |parts| >= 1 && forall i :: 0 <= i < |parts| ==> c !in parts[i]
    ensures Split(Join(parts, c), c) == parts
    decreases |parts|
  {
    if |parts| == 1 {
      PartitionPlain(parts[0], c);
    } else {
      SplitJoin(parts[1..], c);
      PartitionJoined(parts[0], c, Join(parts[1..], c));
    }
  }

  /** str.isspace on ASCII. */
  predicate IsSpace(c: char) { c == ' ' || '\U{9}' <= c <= '\U{D}' || '\U{1C}' <= c <= '\U{1F}' }

  /** The length of the word the text begins with. */
  function WordLength(s: string): (k: nat)
    ensures k <= |s| && (forall i :: 0 <= i < k ==> !IsSpace(s[i])) && (k < |s| ==> IsSpace(s[k]))
  {
    if s == "" || IsSpace(s[0]) then 0 else 1 + WordLength(s[1..])
  }

  /** str.split without an argument: the words between runs of white space. */
  function Words(s: string): (words: seq<string>)
    ensures forall w :: w in words ==> w != "" && forall i :: 0 <= i < |w| ==> !IsSpace(w[i])
    decreases |s|
  {
    if s == "" then []
    else if IsSpace(s[0]) then Words(s[1..])
    else [s[..WordLength(s)]] + Words(s[WordLength(s)..])
  }

  lemma {:induction false} WordLengthIs(s: string, k: nat)
    requires k <= |s| && (forall i :: 0 <= i < k ==> !IsSpace(s[i])) && (k < |s| ==> IsSpace(s[k]))
    ensures WordLength(s) == k
  {
    if k > 0 { WordLengthIs(s[1..], k - 1); }
  }

  /** Words written with single spaces are found again. */
  lemma {:induction false} WordsJoin(words: seq<string>)
    requires |words| >= 1 && forall w :: w in words ==> w != "" && forall i :: 0 <= i < |w| ==> !IsSpace(w[i])
    ensures Words(Join(words, ' ')) == words
    decreases |words|
  {
    var w := words[0];
    var s := Join(words, ' ');
    assert w in words;
    if |words| == 1 {
      WordLengthIs(w, |w|);
      assert w[..|w|] == w && w[|w|..] == "";
    } else {
      var rest := Join(words[1..], ' ');
      assert s == w + ([' '] + rest);
      WordLengthIs(s, |w|);
      assert s[..|w|] == w && s[|w|..] == [' '] + rest;
      assert ([' '] + rest)[1..] == rest;
      forall v | v in words[1..] ensures v in words {}
      WordsJoin(words[1..]);
    }
  }
}
