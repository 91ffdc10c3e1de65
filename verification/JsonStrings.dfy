/**
 JSON string literals as json.dumps writes them with ensure_ascii, and as json.loads reads them.
 A Python string is a sequence of code points, which may include lone surrogates; the text is ASCII.
 */
module JsonStrings {
  import opened Options

  type CodePoint = c: int | 0 <= c <= 0x10FFFF

  type Text = seq<CodePoint>

  predicate IsHigh(c: int) { 0xD800 <= c <= 0xDBFF }

  predicate IsLow(c: int) { 0xDC00 <= c <= 0xDFFF }

  function Combine(high: int, low: int): (c: CodePoint)
    requires IsHigh(high) && IsLow(low)
    ensures c >= 0x10000
  {
    0x10000 + (high - 0xD800) * 0x400 + (low - 0xDC00)
  }

  function HighOf(c: CodePoint): (h: CodePoint)
    requires c >= 0x10000
    ensures IsHigh(h)
  {
    0xD800 + (c - 0x10000) / 0x400
  }

  function LowOf(c: CodePoint): (l: CodePoint)
    requires c >= 0x10000
    ensures IsLow(l)
  {
    0xDC00 + (c - 0x10000) % 0x400
  }

  lemma CombineSplit(c: CodePoint)
    requires c >= 0x10000
    ensures Combine(HighOf(c), LowOf(c)) == c
  {}

  // ---------------------------------------------------------------- \uXXXX

  function HexChar(v: int): char
    requires 0 <= v < 16
  {
    if v < 10 then (('0' as int) + v) as char else (('a' as int) + v - 10) as char
  }

  function HexValue(c: char): int {
    if '0' <= c <= '9' then (c as int) - ('0' as int)
    else if 'a' <= c <= 'f' then (c as int) - ('a' as int) + 10
    else if 'A' <= c <= 'F' then (c as int) - ('A' as int) + 10
    else -1
  }

  lemma HexDigitRoundTrip(v: int)
    requires 0 <= v < 16
    ensures HexValue(HexChar(v)) == v
  {}

  function Hex4(v: int): (h: string)
    requires 0 <= v < 0x10000
    ensures |h| == 4
  {
    [HexChar(v / 4096), HexChar(v / 256 % 16), HexChar(v / 16 % 16), HexChar(v % 16)]
  }

  /** The value of four hexadecimal digits, or -1. */
  function ReadHex4(s: string): (v: int)
    ensures -1 <= v < 0x10000
  {
    if |s| < 4 then -1
    else if HexValue(s[0]) < 0 || HexValue(s[1]) < 0 || HexValue(s[2]) < 0 || HexValue(s[3]) < 0 then -1
    else HexValue(s[0]) * 4096 + HexValue(s[1]) * 256 + HexValue(s[2]) * 16 + HexValue(s[3])
  }

  lemma HexDigits(v: int)
    requires 0 <= v < 0x10000
    ensures v == v / 4096 * 4096 + v / 256 % 16 * 256 + v / 16 % 16 * 16 + v % 16
    ensures 0 <= v / 4096 < 16
  {}

  lemma ReadFour(a: int, b: int, c: int, d: int, rest: string)
    requires 0 <= a < 16 && 0 <= b < 16 && 0 <= c < 16 && 0 <= d < 16
    ensures ReadHex4([HexChar(a), HexChar(b), HexChar(c), HexChar(d)] + rest) == a * 4096 + b * 256 + c * 16 + d
  {
    HexDigitRoundTrip(a);
    HexDigitRoundTrip(b);
    HexDigitRoundTrip(c);
    HexDigitRoundTrip(d);
  }

  lemma Hex4RoundTrip(v: int, rest: string)
    requires 0 <= v < 0x10000
    ensures ReadHex4(Hex4(v) + rest) == v
  {
    HexDigits(v);
    ReadFour(v / 4096, v / 256 % 16, v / 16 % 16, v % 16, rest);
  }

  function Unit(v: int): (u: string)
    requires 0 <= v < 0x10000
    ensures |u| == 6
  {
    ['\\', 'u'] + Hex4(v)
  }

  // ---------------------------------------------------------------- writing

  function Short(c: CodePoint): string {
    if c == 0x22 then ['\\', '"']
    else if c == 0x5C then ['\\', '\\']
    else if c == 0x0A then ['\\', 'n']
    else if c == 0x0D then ['\\', 'r']
    else if c == 0x09 then ['\\', 't']
    else if c == 0x0C then ['\\', 'f']
    else if c == 0x08 then ['\\', 'b']
    else []
  }

  function Escape(c: CodePoint): string {
    if Short(c) != [] then Short(c)
    else if 0x20 <= c <= 0x7E then [c as char]
    else if c < 0x10000 then Unit(c)
    else Unit(HighOf(c)) + Unit(LowOf(c))
  }

  function EscapeAll(t: Text): string {
    if t == [] then [] else Escape(t[0]) + EscapeAll(t[1..])
  }

  function Literal(t: Text): string { ['"'] + EscapeAll(t) + ['"'] }

  /** Hexadecimal digits are written in lower case and read in either. */
  lemma HexDigitsAre(v: int)
    requires 0 <= v < 16
    ensures HexChar(0) == '0' && HexChar(10) == 'a' && (0 < v && v != 10 ==> HexChar(v) as int == HexChar(v - 1) as int + 1)
    ensures v >= 10 ==> HexValue((HexChar(v) as int - 32) as char) == v
  {}

  /**
   How a code point is written: a quotation mark, a backslash and the five control characters with a letter of their own
   with that letter, printable ASCII as itself, and all others by their four hexadecimal digits, or those of their two surrogates.
   */
  lemma EscapeIs(c: CodePoint)
    ensures c in {8, 9, 10, 12, 13, 34, 92} ==> |Escape(c)| == 2 && Escape(c)[0] == '\\'
    ensures Escape(8)[1] == 'b' && Escape(9)[1] == 't' && Escape(10)[1] == 'n' && Escape(12)[1] == 'f' && Escape(13)[1] == 'r'
    ensures Escape(34)[1] == '"' && Escape(92)[1] == '\\'
    ensures 32 <= c <= 126 && c !in {34, 92} ==> Escape(c) == [c as char]
    ensures (c < 32 && c !in {8, 9, 10, 12, 13}) || 126 < c < 0x10000 ==>
      |Escape(c)| == 6 && Escape(c)[0] == '\\' && Escape(c)[1] == 'u' && ReadHex4(Escape(c)[2..]) == c
    ensures c >= 0x10000 ==> Escape(c) == Escape(HighOf(c)) + Escape(LowOf(c)) && IsHigh(HighOf(c)) && IsLow(LowOf(c)) && Combine(HighOf(c), LowOf(c)) == c
  {
    if c < 0x10000 {
      Hex4RoundTrip(c, "");
      assert Hex4(c) + "" == Hex4(c);
      assert Unit(c)[2..] == Hex4(c);
    } else {
      CombineSplit(c);
    }
  }

  // ---------------------------------------------------------------- reading

  datatype Scanned = Scanned(text: Text, rest: string)

  function Prepend(c: CodePoint, r: Option<Scanned>): Option<Scanned> {
    match r
    case None => None
    case Some(s) => Some(Scanned([c] + s.text, s.rest))
  }

  /** The code point a one-letter escape stands for, or -1. */
  function Unshort(c: char): (v: int)
    ensures -1 <= v < 0x80
  {
    if c == '"' then 0x22
    else if c == '\\' then 0x5C
    else if c == '/' then 0x2F
    else if c == 'b' then 0x08
    else if c == 'f' then 0x0C
    else if c == 'n' then 0x0A
    else if c == 'r' then 0x0D
    else if c == 't' then 0x09
    else -1
  }

  /** The \u unit at the start of s, or -1. */
  function ReadUnit(s: string): (v: int)
    ensures -1 <= v < 0x10000
    ensures v >= 0 ==> |s| >= 6
  {
    if |s| >= 6 && s[0] == '\\' && s[1] == 'u' then ReadHex4(s[2..]) else -1
  }

  /** Reads up to the closing quote; a high surrogate takes a low one that follows it. */
  function Scan(s: string): (r: Option<Scanned>)
    ensures r.Some? ==> |r.value.rest| < |s|
  {
    if s == [] then None
    else if s[0] == '"' then Some(Scanned([], s[1..]))
    else if (s[0] as int) < 0x20 then None
    else if s[0] != '\\' then (if (s[0] as int) < 0x80 then Prepend(s[0] as int, Scan(s[1..])) else None)
    else if |s| < 2 then None
    else if s[1] != 'u' then (if Unshort(s[1]) < 0 then None else Prepend(Unshort(s[1]), Scan(s[2..])))
    else
      var v := ReadUnit(s);
      if v < 0 then None
      else if IsHigh(v) && IsLow(ReadUnit(s[6..])) then Prepend(Combine(v, ReadUnit(s[6..])), Scan(s[12..]))
      else Prepend(v, Scan(s[6..]))
  }

  // ---------------------------------------------------------------- round trip

  /** What reading makes of a text: every high surrogate directly before a low one joins it. */
  function Joined(t: Text): Text {
    if |t| >= 2 && IsHigh(t[0]) && IsLow(t[1]) then [Combine(t[0], t[1])] + Joined(t[2..])
    else if t == [] then []
    else [t[0]] + Joined(t[1..])
  }

  /** A high surrogate stands here, directly before a low one. */
  predicate PairAt(t: Text, i: nat)
    requires i + 1 < |t|
  {
    IsHigh(t[i]) && IsLow(t[i + 1])
  }

  /** No high surrogate stands directly before a low one; true of every text without surrogates. */
  ghost predicate Unpaired(t: Text) {
    forall i :: 0 <= i < |t| - 1 ==> !PairAt(t, i)
  }

  ghost predicate NoSurrogates(t: Text) {
    forall i :: 0 <= i < |t| ==> !IsHigh(t[i]) && !IsLow(t[i])
  }

  lemma {:induction false} JoinedIffUnpaired(t: Text)
    ensures |Joined(t)| <= |t|
    ensures Joined(t) == t <==> Unpaired(t)
    ensures |Joined(t)| == |t| ==> Unpaired(t)
  {
    if |t| >= 2 && IsHigh(t[0]) && IsLow(t[1]) {
      JoinedIffUnpaired(t[2..]);
      assert PairAt(t, 0);
    } else if t != [] {
      JoinedIffUnpaired(t[1..]);
      UnpairedRest(t);
      assert t == [t[0]] + t[1..];
    }
  }

  /** Without a pair at its start, a text is unpaired exactly when the rest is. */
  lemma UnpairedRest(t: Text)
    requires t != [] && !(|t| >= 2 && IsHigh(t[0]) && IsLow(t[1]))
    ensures Unpaired(t) <==> Unpaired(t[1..])
  {
    assert forall i :: 1 <= i < |t| - 1 ==> (PairAt(t, i) <==> PairAt(t[1..], i - 1));
    assert forall i :: 0 <= i < |t[1..]| - 1 ==> (PairAt(t[1..], i) <==> PairAt(t, i + 1));
  }

  lemma ReadUnitHere(v: int, rest: string)
    requires 0 <= v < 0x10000
    ensures ReadUnit(Unit(v) + rest) == v && (Unit(v) + rest)[6..] == rest
  {
    var s := Unit(v) + rest;
    assert s[2..] == Hex4(v) + rest;
    Hex4RoundTrip(v, rest);
  }

  /** Only a low surrogate is written as a unit that reads back as a low surrogate. */
  lemma NoLowUnit(c: CodePoint, rest: string)
    requires !IsLow(c)
    ensures !IsLow(ReadUnit(Escape(c) + rest))
  {
    if Short(c) != [] || 0x20 <= c <= 0x7E {
    } else if c < 0x10000 {
      ReadUnitHere(c, rest);
    } else {
      assert Escape(c) + rest == Unit(HighOf(c)) + (Unit(LowOf(c)) + rest);
      ReadUnitHere(HighOf(c), Unit(LowOf(c)) + rest);
    }
  }

  lemma ScanUnit(v: CodePoint, rest: string)
    requires v < 0x10000 && (IsHigh(v) ==> !IsLow(ReadUnit(rest)))
    ensures Scan(Unit(v) + rest) == Prepend(v, Scan(rest))
  {
    ReadUnitHere(v, rest);
  }

  lemma ScanSupplementary(c: CodePoint, rest: string)
    requires c >= 0x10000
    ensures Scan(Unit(HighOf(c)) + Unit(LowOf(c)) + rest) == Prepend(c, Scan(rest))
  {
    assert Unit(HighOf(c)) + Unit(LowOf(c)) + rest == Unit(HighOf(c)) + (Unit(LowOf(c)) + rest);
    CombineSplit(c);
    ScanUnits(HighOf(c), LowOf(c), rest);
  }

  lemma ScanUnits(high: CodePoint, low: CodePoint, rest: string)
    requires IsHigh(high) && IsLow(low)
    ensures Scan(Unit(high) + (Unit(low) + rest)) == Prepend(Combine(high, low), Scan(rest))
  {
    var s := Unit(high) + (Unit(low) + rest);
    ReadUnitHere(high, Unit(low) + rest);
    ReadUnitHere(low, rest);
    assert s[12..] == rest;
  }

  lemma ScanShort(c: CodePoint, rest: string)
    requires Short(c) != []
    ensures Scan(Short(c) + rest) == Prepend(c, Scan(rest))
  {
    assert (Short(c) + rest)[2..] == rest;
  }

  /** Reading one written code point that does not join with what follows. */
  lemma ScanOne(c: CodePoint, rest: string)
    requires IsHigh(c) ==> !IsLow(ReadUnit(rest))
    ensures Scan(Escape(c) + rest) == Prepend(c, Scan(rest))
  {
    if Short(c) != [] {
      ScanShort(c, rest);
    } else if 0x20 <= c <= 0x7E {
      assert ([c as char] + rest)[1..] == rest;
    } else if c < 0x10000 {
      ScanUnit(c, rest);
    } else {
      ScanSupplementary(c, rest);
    }
  }

  /** The next written code point joins with c exactly when c is high and it is low. */
  lemma NextUnit(t: Text, rest: string)
    requires rest != [] && rest[0] == '"'
    requires t != [] ==> !IsLow(t[0])
    ensures !IsLow(ReadUnit(EscapeAll(t) + rest))
  {
    if t == [] {
      assert EscapeAll(t) + rest == rest;
    } else {
      assert EscapeAll(t) + rest == Escape(t[0]) + (EscapeAll(t[1..]) + rest);
      NoLowUnit(t[0], EscapeAll(t[1..]) + rest);
    }
  }

  lemma ScanFirst(t: Text, rest: string)
    requires rest != [] && rest[0] == '"' && t != []
    requires !(|t| >= 2 && IsHigh(t[0]) && IsLow(t[1]))
    ensures Scan(EscapeAll(t) + rest) == Prepend(t[0], Scan(EscapeAll(t[1..]) + rest))
  {
    var after := EscapeAll(t[1..]) + rest;
    assert EscapeAll(t) + rest == Escape(t[0]) + after;
    if IsHigh(t[0]) { NextUnit(t[1..], rest); }
    ScanOne(t[0], after);
  }

  lemma ScanFirstPair(t: Text, rest: string)
    requires |t| >= 2 && IsHigh(t[0]) && IsLow(t[1])
    ensures Scan(EscapeAll(t) + rest) == Prepend(Combine(t[0], t[1]), Scan(EscapeAll(t[2..]) + rest))
  {
    var after := EscapeAll(t[2..]) + rest;
    assert t[1..][1..] == t[2..];
    assert EscapeAll(t[1..]) == Escape(t[1]) + EscapeAll(t[2..]);
    assert EscapeAll(t) + rest == Escape(t[0]) + (Escape(t[1]) + after);
    ScanUnits(t[0], t[1], after);
  }

  /** Reading back any written text gives the text with its surrogate pairs joined. */
  lemma {:induction false} ScanLiteral(t: Text, rest: string)
    requires rest != [] && rest[0] == '"'
    ensures Scan(EscapeAll(t) + rest) == Some(Scanned(Joined(t), rest[1..]))
  {
    if t == [] {
      assert EscapeAll(t) + rest == rest;
    } else if |t| >= 2 && IsHigh(t[0]) && IsLow(t[1]) {
      ScanLiteral(t[2..], rest);
      ScanFirstPair(t, rest);
    } else {
      ScanLiteral(t[1..], rest);
      ScanFirst(t, rest);
    }
  }

  /** A literal reads back as the text it was written from exactly when no surrogate pair is spelled out in it. */
  lemma LiteralRoundTrip(t: Text, rest: string)
    ensures Literal(t) + rest == ['"'] + (EscapeAll(t) + (['"'] + rest))
    ensures Scan(EscapeAll(t) + (['"'] + rest)) == Some(Scanned(t, rest)) <==> Unpaired(t)
  {
    ScanLiteral(t, ['"'] + rest);
    assert (['"'] + rest)[1..] == rest;
    JoinedIffUnpaired(t);
  }
}
