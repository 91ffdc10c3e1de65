/** What a time stamp is written as, and that canonical JSON tells time stamps apart. */
module TimeStamps {
  import opened CanonicalJson
  import opened JsonText
  import opened JsonLaws
  import opened Text

  /** The fields of a datetime. */
  predicate InRange(m: Moment) {
    && 1 <= m.year <= 9999 && 1 <= m.month <= 12 && 1 <= m.day <= 31
    && m.hour < 24 && m.minute < 60 && m.second < 60 && m.micro < 1_000_000
  }

  /** The characters from `from` up to `to` are the decimal digits of n. */
  ghost predicate Says(s: string, from: nat, to: nat, n: nat) {
    from < to <= |s| && IsDigits(s[from..to]) && DigitsValue(s[from..to]) == n
  }

  // ---------------------------------------------------------------- numbers of fixed width

  function TenTo(k: nat): nat { if k == 0 then 1 else 10 * TenTo(k - 1) }

  /** A number below ten to the k has at most k digits. */
  lemma {:induction false} DecimalFits(n: nat, k: nat)
    requires k >= 1 && n < TenTo(k)
    ensures 1 <= |Decimal(n)| <= k
    decreases k
  {
    if n >= 10 { DecimalFits(n / 10, k - 1); }
  }

  /** Leading zeros do not change the number. */
  lemma {:induction false} ZerosBefore(count: int, s: string)
    requires IsDigits(s)
    ensures var z := Zeros(count) + s;
      |z| == (if count <= 0 then 0 else count) + |s| && IsDigits(z) && DigitsValue(z) == DigitsValue(s)
    decreases count
  {
    if count <= 0 {
      assert Zeros(count) + s == s;
    } else {
      ZerosBefore(count - 1, s);
      ZeroBefore(Zeros(count - 1) + s);
      assert Zeros(count) + s == "0" + (Zeros(count - 1) + s);
    }
  }

  lemma {:induction false} ZeroBefore(s: string)
    requires IsDigits(s)
    ensures IsDigits("0" + s) && DigitsValue("0" + s) == DigitsValue(s)
  {
    var z := "0" + s;
    assert forall i :: 0 <= i < |s| ==> z[i + 1] == s[i];
    assert z[..|z| - 1] == "0" + s[..|s| - 1];
    if |s| == 1 {
      assert z[..1] == "0" && z[..1][..0] == "" && s[..0] == "";
      assert DigitsValue(z[..1]) == 0;
    } else {
      ZeroBefore(s[..|s| - 1]);
    }
  }

  /** A number that fits is written with exactly as many digits as asked for. */
  lemma PadSays(n: nat, width: nat)
    requires width >= 1 && n < TenTo(width)
    ensures |Pad(n, width)| == width && IsDigits(Pad(n, width)) && DigitsValue(Pad(n, width)) == n
  {
    DecimalFits(n, width);
    DecimalRoundTrip(n);
    ZerosBefore(width - |Decimal(n)|, Decimal(n));
  }

  // ---------------------------------------------------------------- the text of a time stamp

  ghost predicate DateWritten(m: Moment, s: string) {
    |s| >= 10 && Says(s, 0, 4, m.year) && s[4] == '-' && Says(s, 5, 7, m.month) && s[7] == '-' && Says(s, 8, 10, m.day)
  }

  ghost predicate TimeWritten(m: Moment, s: string) {
    |s| >= 19 && Says(s, 11, 13, m.hour) && s[13] == ':' && Says(s, 14, 16, m.minute) && s[16] == ':' && Says(s, 17, 19, m.second)
  }

  /** YYYY-MM-DDTHH:MM:SSZ, with six digits of microseconds before the Z exactly when there are any. */
  ghost predicate Written(m: Moment, s: string) {
    && |s| == (if m.micro == 0 then 20 else 27)
    && DateWritten(m, s) && s[10] == 'T' && TimeWritten(m, s)
    && (m.micro != 0 ==> s[19] == '.' && Says(s, 20, 26, m.micro))
    && s[|s| - 1] == 'Z'
  }

  lemma Widths()
    ensures TenTo(2) == 100 && TenTo(4) == 10_000 && TenTo(6) == 1_000_000
  {
    assert TenTo(3) == 1000 && TenTo(5) == 100_000;
  }

  /** Three numbers of fixed width with a character between them. */
  lemma Three(a: string, c: char, b: string, d: char, e: string)
    ensures var s := a + [c] + b + [d] + e;
      && |s| == |a| + |b| + |e| + 2 && s[..|a|] == a && s[|a|] == c && s[|a| + 1..|a| + 1 + |b|] == b
      && s[|a| + 1 + |b|] == d && s[|a| + |b| + 2..] == e
  {}

  /** Date, time of day and fraction as they are written. */
  function DatePart(m: Moment): string { Pad(m.year, 4) + "-" + Pad(m.month, 2) + "-" + Pad(m.day, 2) }

  function TimePart(m: Moment): string { Pad(m.hour, 2) + ":" + Pad(m.minute, 2) + ":" + Pad(m.second, 2) }

  function Fraction(m: Moment): string { if m.micro == 0 then "" else "." + Pad(m.micro, 6) }

  lemma DateSays(m: Moment)
    requires InRange(m)
    ensures var s := DatePart(m);
      |s| == 10 && Says(s, 0, 4, m.year) && s[4] == '-' && Says(s, 5, 7, m.month) && s[7] == '-' && Says(s, 8, 10, m.day)
  {
    Widths();
    PadSays(m.year, 4);
    PadSays(m.month, 2);
    PadSays(m.day, 2);
    Three(Pad(m.year, 4), '-', Pad(m.month, 2), '-', Pad(m.day, 2));
    assert DatePart(m)[0..4] == DatePart(m)[..4] && DatePart(m)[8..10] == DatePart(m)[8..];
  }

  lemma TimeSays(m: Moment)
    requires InRange(m)
    ensures var s := TimePart(m);
      |s| == 8 && Says(s, 0, 2, m.hour) && s[2] == ':' && Says(s, 3, 5, m.minute) && s[5] == ':' && Says(s, 6, 8, m.second)
  {
    Widths();
    PadSays(m.hour, 2);
    PadSays(m.minute, 2);
    PadSays(m.second, 2);
    Three(Pad(m.hour, 2), ':', Pad(m.minute, 2), ':', Pad(m.second, 2));
    assert TimePart(m)[0..2] == TimePart(m)[..2] && TimePart(m)[6..8] == TimePart(m)[6..];
  }

  lemma FractionSays(m: Moment)
    requires InRange(m) && m.micro != 0
    ensures var s := Fraction(m); |s| == 7 && s[0] == '.' && Says(s, 1, 7, m.micro)
  {
    Widths();
    PadSays(m.micro, 6);
    assert Fraction(m)[1..7] == Pad(m.micro, 6);
  }

  /** What a part says it says wherever the part stands. */
  lemma SaysWithin(before: string, part: string, after: string, from: nat, to: nat, n: nat)
    requires Says(part, from, to, n)
    ensures Says(before + part + after, |before| + from, |before| + to, n)
  {
    assert (before + part + after)[|before| + from..|before| + to] == part[from..to];
  }

  lemma IsoParts(m: Moment)
    ensures Iso(m) == DatePart(m) + "T" + TimePart(m) + Fraction(m) + "Z"
  {
    var d, t := DatePart(m) + "T", TimePart(m);
    assert d + t == d + Pad(m.hour, 2) + ":" + Pad(m.minute, 2) + ":" + Pad(m.second, 2);
  }

  lemma DateOfIso(m: Moment, after: string)
    requires InRange(m)
    ensures DateWritten(m, DatePart(m) + after)
  {
    DateSays(m);
    assert DatePart(m) + after == "" + DatePart(m) + after;
    SaysWithin("", DatePart(m), after, 0, 4, m.year);
    SaysWithin("", DatePart(m), after, 5, 7, m.month);
    SaysWithin("", DatePart(m), after, 8, 10, m.day);
  }

  lemma TimeOfIso(m: Moment, before: string, after: string)
    requires InRange(m) && |before| == 11
    ensures TimeWritten(m, before + TimePart(m) + after)
  {
    TimeSays(m);
    SaysWithin(before, TimePart(m), after, 0, 2, m.hour);
    SaysWithin(before, TimePart(m), after, 3, 5, m.minute);
    SaysWithin(before, TimePart(m), after, 6, 8, m.second);
  }

  lemma FractionOfIso(m: Moment, before: string)
    requires InRange(m) && m.micro != 0 && |before| == 19
    ensures var s := before + Fraction(m) + "Z"; s[19] == '.' && Says(s, 20, 26, m.micro)
  {
    FractionSays(m);
    SaysWithin(before, Fraction(m), "Z", 1, 7, m.micro);
  }

  /** The text grouped around each of its parts. */
  lemma Regrouped(date: string, time: string, fraction: string)
    ensures var s := date + "T" + time + fraction + "Z";
      && s == date + ("T" + time + fraction + "Z") && s == (date + "T") + time + (fraction + "Z") && s == (date + "T" + time) + fraction + "Z"
      && |s| == |date| + |time| + |fraction| + 2 && s[|date|] == 'T' && s[|s| - 1] == 'Z'
  {
    assert date + "T" + time + fraction + "Z" == (date + "T") + time + (fraction + "Z");
  }

  lemma Lengths(m: Moment)
    requires InRange(m)
    ensures |DatePart(m)| == 10 && |TimePart(m)| == 8 && |Fraction(m)| == if m.micro == 0 then 0 else 7
  {
    DateSays(m);
    TimeSays(m);
    if m.micro != 0 { FractionSays(m); }
  }

  /** Every datetime is written as its year, month, day, hour, minute and second, and its microseconds when there are any. */
  lemma IsoSays(m: Moment)
    requires InRange(m)
    ensures Written(m, Iso(m))
  {
    var date, time, fraction := DatePart(m), TimePart(m), Fraction(m);
    IsoParts(m);
    Lengths(m);
    Regrouped(date, time, fraction);
    DateOfIso(m, "T" + time + fraction + "Z");
    TimeOfIso(m, date + "T", fraction + "Z");
    if m.micro != 0 { FractionOfIso(m, date + "T" + time); }
  }

  /** A text says at most one moment. */
  lemma OneMoment(a: Moment, b: Moment, s: string)
    requires Written(a, s) && Written(b, s)
    ensures a == b
  {}

  /** Two different datetimes never have the same canonical JSON. */
  lemma MomentsApart(a: Moment, b: Moment)
    requires InRange(a) && InRange(b) && a != b
    ensures Canonical(Stamp(a)) != Canonical(Stamp(b))
  {
    if Canonical(Stamp(a)) == Canonical(Stamp(b)) {
      CanonicalInjective(Stamp(a), Stamp(b));
      AsTextInjective(Iso(a), Iso(b));
      IsoSays(a);
      IsoSays(b);
      OneMoment(a, b, Iso(a));
    }
  }
}
