/** URL-safe base64 (RFC 4648, section 5) as Python writes it without padding and reads it leniently. */
module Base64 {
  import opened Options
  import opened Ascii

  function Char64(v: int): (c: char)
    requires 0 <= v < 64
  {
    if v < 26 then (('A' as int) + v) as char
    else if v < 52 then (('a' as int) + v - 26) as char
    else if v < 62 then (('0' as int) + v - 52) as char
    else if v == 62 then '-'
    else '_'
  }

  /** The value of a character of either alphabet, or -1: '-' and '_' are translated to '+' and '/' first. */
  function Value64(c: char): (v: int)
    ensures -1 <= v < 64
  {
    if 'A' <= c <= 'Z' then (c as int) - ('A' as int)
    else if 'a' <= c <= 'z' then (c as int) - ('a' as int) + 26
    else if '0' <= c <= '9' then (c as int) - ('0' as int) + 52
    else if c == '-' || c == '+' then 62
    else if c == '_' || c == '/' then 63
    else -1
  }

  /** The capital letters, the small ones and the digits in their order, and the last two by either spelling. */
  lemma AlphabetIs(v: int)
    requires 0 <= v < 64
    ensures Char64(0) == 'A' && Char64(26) == 'a' && Char64(52) == '0' && Char64(62) == '-' && Char64(63) == '_'
    ensures 0 < v && v !in {26, 52, 62, 63} ==> Char64(v) as int == Char64(v - 1) as int + 1
    ensures Value64(Char64(v)) == v && Value64('+') == 62 && Value64('/') == 63
  {}

  lemma CharRoundTrip(v: int)
    requires 0 <= v < 64
    ensures Value64(Char64(v)) == v && Char64(v) != '='
  {}

  // ---------------------------------------------------------------- encoding

  function Quad(a: Byte, b: Byte, c: Byte): (q: string)
    ensures |q| == 4
  {
    [Char64(a / 4), Char64(a % 4 * 16 + b / 16), Char64(b % 16 * 4 + c / 64), Char64(c % 64)]
  }

  /** urlsafe_b64encode(...).rstrip("="). */
  function Encode(b: seq<Byte>): string {
    if b == [] then ""
    else if |b| == 1 then Quad(b[0], 0, 0)[..2]
    else if |b| == 2 then Quad(b[0], b[1], 0)[..3]
    else Quad(b[0], b[1], b[2]) + Encode(b[3..])
  }

  lemma {:induction false} EncodedLength(b: seq<Byte>)
    ensures |Encode(b)| == (|b| * 4 + 2) / 3
    ensures |Encode(b)| % 4 != 1
  {
    if |b| >= 3 { EncodedLength(b[3..]); }
  }

  // ---------------------------------------------------------------- decoding

  /** Bytes in front of what decoding the rest gives. */
  function Emit(b: int, r: Option<seq<Byte>>): Option<seq<Byte>>
    requires 0 <= b < 256
  {
    match r
    case None => None
    case Some(bytes) => Some([b as Byte] + bytes)
  }

  /**
   binascii.a2b_base64 without strict mode: foreign characters are skipped, padding ends the input when
   it fills a quad, and an unfinished quad is an error. `quad` counts the characters of the open quad,
   `left` holds its bits not yet given out, `pads` the padding seen since the last character.
   */
  function Read(s: string, quad: int, left: int, pads: nat): Option<seq<Byte>>
    requires 0 <= quad < 4 && 0 <= left < 64
    requires (quad == 2 ==> left < 16) && (quad == 3 ==> left < 4)
  {
    if s == "" then (if quad == 0 then Some([]) else None)
    else if s[0] == '=' then
      if quad >= 2 && quad + pads + 1 >= 4 then Some([])
      else Read(s[1..], quad, left, if quad >= 2 then pads + 1 else pads)
    else if Value64(s[0]) < 0 then Read(s[1..], quad, left, pads)
    else
      var v := Value64(s[0]);
      if quad == 0 then Read(s[1..], 1, v, 0)
      else if quad == 1 then Emit(left * 4 + v / 16, Read(s[1..], 2, v % 16, 0))
      else if quad == 2 then Emit(left * 16 + v / 4, Read(s[1..], 3, v % 4, 0))
      else Emit(left * 64 + v, Read(s[1..], 0, 0, 0))
  }

  function Padding(length: nat): string {
    match length % 4
    case 0 => ""
    case 1 => "==="
    case 2 => "=="
    case _ => "="
  }

  /** urlsafe_b64decode after the stripped padding is put back; text outside ASCII is refused. */
  function Decode(s: string): Option<seq<Byte>> {
    if exists i :: 0 <= i < |s| && (s[i] as int) >= 0x80 then None else Read(s + Padding(|s|), 0, 0, 0)
  }

  /** Text with a character outside ASCII is never read. */
  lemma NonAsciiRefused(s: string, i: nat)
    requires i < |s| && (s[i] as int) >= 128
    ensures Decode(s) == None
  {}

  // ---------------------------------------------------------------- round trip

  lemma ReadOne(v: int, rest: string, quad: int, left: int, pads: nat)
    requires 0 <= v < 64 && 0 <= quad < 4 && 0 <= left < 64
    requires (quad == 2 ==> left < 16) && (quad == 3 ==> left < 4)
    ensures quad == 0 ==> Read([Char64(v)] + rest, quad, left, pads) == Read(rest, 1, v, 0)
    ensures quad == 1 ==> Read([Char64(v)] + rest, quad, left, pads) == Emit(left * 4 + v / 16, Read(rest, 2, v % 16, 0))
    ensures quad == 2 ==> Read([Char64(v)] + rest, quad, left, pads) == Emit(left * 16 + v / 4, Read(rest, 3, v % 4, 0))
    ensures quad == 3 ==> Read([Char64(v)] + rest, quad, left, pads) == Emit(left * 64 + v, Read(rest, 0, 0, 0))
  {
    CharRoundTrip(v);
    assert ([Char64(v)] + rest)[1..] == rest;
  }

  /** The six-bit groups of three bytes, and the bytes put together from them. */
  lemma Groups(a: Byte, b: Byte, c: Byte)
    ensures var x, y, z := a % 4 * 16 + b / 16, b % 16 * 4 + c / 64, c % 64;
            a / 4 * 4 + x / 16 == a && x % 16 * 16 + y / 4 == b && y % 4 * 64 + z == c && x < 64 && y < 64
  {}

  lemma ReadFirstHalf(w: int, x: int, rest: string)
    requires 0 <= w < 64 && 0 <= x < 64
    ensures Read([Char64(w)] + ([Char64(x)] + rest), 0, 0, 0) == Emit(w * 4 + x / 16, Read(rest, 2, x % 16, 0))
  {
    ReadOne(w, [Char64(x)] + rest, 0, 0, 0);
    ReadOne(x, rest, 1, w, 0);
  }

  lemma ReadSecondHalf(y: int, z: int, left: int, rest: string)
    requires 0 <= y < 64 && 0 <= z < 64 && 0 <= left < 16
    ensures Read([Char64(y)] + ([Char64(z)] + rest), 2, left, 0) == Emit(left * 16 + y / 4, Emit(y % 4 * 64 + z, Read(rest, 0, 0, 0)))
  {
    ReadOne(y, [Char64(z)] + rest, 2, left, 0);
    ReadOne(z, rest, 3, y % 4, 0);
  }

  lemma ReadQuad(a: Byte, b: Byte, c: Byte, rest: string)
    ensures Read(Quad(a, b, c) + rest, 0, 0, 0) == Emit(a, Emit(b, Emit(c, Read(rest, 0, 0, 0))))
  {
    var w, x, y, z := a / 4, a % 4 * 16 + b / 16, b % 16 * 4 + c / 64, c % 64;
    Groups(a, b, c);
    var s2 := [Char64(y)] + ([Char64(z)] + rest);
    assert Quad(a, b, c) + rest == [Char64(w)] + ([Char64(x)] + s2);
    ReadFirstHalf(w, x, s2);
    ReadSecondHalf(y, z, x % 16, rest);
  }

  lemma ReadTwo(a: Byte)
    ensures Read(Quad(a, 0, 0)[..2] + "==", 0, 0, 0) == Some([a])
  {
    var w, x := a / 4, a % 4 * 16;
    var s1 := [Char64(x)] + "==";
    assert Quad(a, 0, 0)[..2] + "==" == [Char64(w)] + s1;
    ReadOne(w, s1, 0, 0, 0);
    ReadOne(x, "==", 1, w, 0);
    Groups(a, 0, 0);
    PaddedEnd();
    assert Read(s1, 1, w, 0) == Emit(a, Some([]));
    assert [a] + [] == [a];
  }

  /** The padding that closes a quad of two or of three characters. */
  lemma PaddedEnd()
    ensures forall left :: 0 <= left < 16 ==> Read("==", 2, left, 0) == Some([])
    ensures forall left :: 0 <= left < 4 ==> Read("=", 3, left, 0) == Some([])
  {
    assert "=="[1..] == "=";
    forall left | 0 <= left < 16 ensures Read("==", 2, left, 0) == Some([]) {
      assert Read("=", 2, left, 1) == Some([]);
    }
  }

  lemma ReadThree(a: Byte, b: Byte)
    ensures Read(Quad(a, b, 0)[..3] + "=", 0, 0, 0) == Some([a, b])
  {
    var w, x, y := a / 4, a % 4 * 16 + b / 16, b % 16 * 4;
    Groups(a, b, 0);
    var s2 := [Char64(y)] + "=";
    var s1 := [Char64(x)] + s2;
    assert Quad(a, b, 0)[..3] + "=" == [Char64(w)] + s1;
    ReadOne(w, s1, 0, 0, 0);
    ReadOne(x, s2, 1, w, 0);
    ReadOne(y, "=", 2, x % 16, 0);
    PaddedEnd();
    assert Read(s2, 2, x % 16, 0) == Emit(b, Some([]));
    assert [a] + ([b] + []) == [a, b];
  }

  lemma SamePadding(n: nat)
    ensures Padding(n + 4) == Padding(n)
  {}

  /** A whole quad in front does not change the padding. */
  lemma Shift(q: string, e: string)
    requires |q| == 4
    ensures q + e + Padding(|q + e|) == q + (e + Padding(|e|))
  {
    SamePadding(|e|);
    assert |q + e| == |e| + 4;
  }

  lemma EmitThree(b: seq<Byte>)
    requires |b| >= 3
    ensures Emit(b[0], Emit(b[1], Emit(b[2], Some(b[3..])))) == Some(b)
  {
    assert b == [b[0]] + ([b[1]] + ([b[2]] + b[3..]));
  }

  lemma {:induction false} ReadEncoded(b: seq<Byte>)
    ensures Read(Encode(b) + Padding(|Encode(b)|), 0, 0, 0) == Some(b)
  {
    if |b| == 0 {
      assert Encode(b) + Padding(0) == "";
    } else if |b| == 1 {
      ReadTwo(b[0]);
      assert b == [b[0]];
    } else if |b| == 2 {
      ReadThree(b[0], b[1]);
      assert b == [b[0], b[1]];
    } else {
      ReadEncoded(b[3..]);
      Shift(Quad(b[0], b[1], b[2]), Encode(b[3..]));
      ReadQuad(b[0], b[1], b[2], Encode(b[3..]) + Padding(|Encode(b[3..])|));
      EmitThree(b);
    }
  }

  lemma {:induction false} EncodedIsAscii(b: seq<Byte>)
    ensures forall i :: 0 <= i < |Encode(b)| ==> (Encode(b)[i] as int) < 0x80
  {
    if |b| >= 3 { EncodedIsAscii(b[3..]); }
  }

  lemma Base64RoundTrip(b: seq<Byte>)
    ensures Decode(Encode(b)) == Some(b)
  {
    ReadEncoded(b);
    EncodedIsAscii(b);
  }
}
