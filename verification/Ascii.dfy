/** ASCII text as bytes. */
module Ascii {
  import opened Options

  type Byte = b: int | 0 <= b < 256

  ghost predicate IsAscii(s: string) { forall i :: 0 <= i < |s| ==> (s[i] as int) < 0x80 }

  function ToBytes(s: string): (b: seq<Byte>)
    requires IsAscii(s)
    ensures |b| == |s|
  {
    if s == "" then [] else [s[0] as int] + ToBytes(s[1..])
  }

  /** Bytes outside ASCII are not part of this model. */
  function FromBytes(b: seq<Byte>): Option<string> {
    if b == [] then Some("")
    else if b[0] >= 0x80 then None
    else
      match FromBytes(b[1..])
      case None => None
      case Some(s) => Some([b[0] as char] + s)
  }

  lemma {:induction false} BytesRoundTrip(s: string)
    requires IsAscii(s)
    ensures FromBytes(ToBytes(s)) == Some(s)
  {
    if s != "" {
      BytesRoundTrip(s[1..]);
      assert ToBytes(s)[1..] == ToBytes(s[1..]);
      assert s == [s[0]] + s[1..];
    }
  }

  /** Bytes are text exactly when all of them are below 128, and then each is its character. */
  lemma {:induction false} FromBytesExactlyWhen(b: seq<Byte>)
    ensures FromBytes(b).Some? <==> forall i :: 0 <= i < |b| ==> b[i] < 128
    ensures FromBytes(b).Some? ==> |FromBytes(b).value| == |b| && forall i :: 0 <= i < |b| ==> FromBytes(b).value[i] as int == b[i]
  {
    if b != [] {
      FromBytesExactlyWhen(b[1..]);
      assert forall i :: 1 <= i < |b| ==> b[i] == b[1..][i - 1];
    }
  }
}
