/**
 AuthZEN page tokens: canonical JSON, a dot, and a raw 32-byte signature, in URL-safe base64. Reading
 a token splits at its last dot, which may stand inside the signature.
 */
module AuthzenTokens {
  import opened Options
  import opened Ascii
  import opened JsonStrings
  import opened CanonicalJson
  import opened JsonText
  import opened JsonLaws
  import B = Base64
  import P = AuthzenPaging

  const DOT: Byte := 0x2E

  /** HMAC-SHA256 under the pagination secret: 32 bytes for every payload. */
  type Signer = seq<Byte> -> seq<Byte>

  ghost predicate Digests(sign: Signer) { forall p :: |sign(p)| == 32 }

  /** The names of a token's fields. */
  datatype Fields = Fields(kind: Text, tenant: Text, digest: Text, offset: Text) {
    ghost predicate Apart() {
      && kind != tenant && kind != digest && kind != offset && tenant != digest && tenant != offset && digest != offset
      && Unpaired(kind) && Unpaired(tenant) && Unpaired(digest) && Unpaired(offset)
    }
  }

  /** What a token is bound to: the search, the tenant and the request's digest. */
  datatype Bound = Bound(kind: Text, tenant: Text, digest: Text) {
    ghost predicate Readable() { Unpaired(kind) && Unpaired(tenant) && Unpaired(digest) }
  }

  function Payload(f: Fields, b: Bound, offset: int): Json {
    Obj(Member(f.kind, Str(b.kind), Member(f.tenant, Str(b.tenant), Member(f.digest, Str(b.digest), Member(f.offset, Number(offset), NoMembers)))))
  }

  // ---------------------------------------------------------------- tokens

  function PayloadBytes(v: Json): seq<Byte> {
    PrintIsAscii(Normal(v));
    ToBytes(Canonical(v))
  }

  function Token(sign: Signer, v: Json): string {
    B.Encode(PayloadBytes(v) + [DOT] + sign(PayloadBytes(v)))
  }

  /** The position of the last dot, or -1. */
  function LastDot(b: seq<Byte>): (k: int)
    ensures -1 <= k < |b|
    ensures k >= 0 ==> b[k] == DOT
    ensures forall i :: k < i < |b| ==> b[i] != DOT
  {
    if b == [] then -1 else if b[|b| - 1] == DOT then |b| - 1 else LastDot(b[..|b| - 1])
  }

  function DecodeToken(sign: Signer, token: string): Option<Json> {
    match B.Decode(token)
    case None => None
    case Some(bytes) =>
      var k := LastDot(bytes);
      if k < 0 || bytes[k + 1..] != sign(bytes[..k]) then None else
        match FromBytes(bytes[..k])
        case None => None
        case Some(text) => Loads(text)
  }

  /** A dot with none after it is the last one. */
  lemma {:induction false} LastDotIs(b: seq<Byte>, k: nat)
    requires k < |b| && b[k] == DOT && DOT !in b[k + 1..]
    ensures LastDot(b) == k
    decreases |b|
  {
    if k < |b| - 1 {
      var front := b[..|b| - 1];
      assert b[|b| - 1] in b[k + 1..];
      assert front[k + 1..] == b[k + 1..][..|b| - k - 2];
      LastDotIs(front, k);
    }
  }

  /** Without a dot in the signature the split gives payload and signature back. */
  lemma PlainSplit(p: seq<Byte>, g: seq<Byte>)
    requires DOT !in g
    ensures var b := p + [DOT] + g; LastDot(b) == |p| && b[..|p|] == p && b[|p| + 1..] == g
  {
    var b := p + [DOT] + g;
    assert b[|p|] == DOT && b[|p| + 1..] == g;
    LastDotIs(b, |p|);
  }

  /** A dot anywhere keeps the last dot from lying before it. */
  lemma LateSplit(b: seq<Byte>, i: nat)
    requires i < |b| && b[i] == DOT
    ensures LastDot(b) >= i
  {}

  /**
   A token reads back as the value it was made from exactly when its signature holds no dot; with a
   dot in the signature the token the server issued is refused.
   */
  lemma TokenRoundTrip(sign: Signer, v: Json)
    requires Digests(sign) && Distinct(v) && Whole(v, false)
    ensures DecodeToken(sign, Token(sign, v)) == (if DOT in sign(PayloadBytes(v)) then None else Some(Normal(v)))
  {
    var p := PayloadBytes(v);
    var g := sign(p);
    var bytes := p + [DOT] + g;
    B.Base64RoundTrip(bytes);
    if DOT in g {
      var i :| 0 <= i < |g| && g[i] == DOT;
      LateSplit(bytes, |p| + 1 + i);
      assert |bytes[LastDot(bytes) + 1..]| < |g|;
    } else {
      PlainSplit(p, g);
      PrintIsAscii(Normal(v));
      BytesRoundTrip(Canonical(v));
      LoadsWhole(v);
    }
  }

  // ---------------------------------------------------------------- request state

  /** An offset, a refusal, or a payload that is no object, which the program does not expect. */
  datatype State = At(offset: int) | Refused | Unexpected

  function Field(v: Json, k: Text): Option<Json> {
    if v.Obj? && HasKey(v.members, k) then Some(Get(v.members, k)) else None
  }

  /** _request_state: no token starts at zero; a token must belong to this search, tenant and request. */
  function RequestState(sign: Signer, f: Fields, b: Bound, token: Option<string>): State {
    if token.None? || token.value == "" then At(0) else
      match DecodeToken(sign, token.value)
      case None => Refused
      case Some(v) =>
        if !v.Obj? then Unexpected
        else if Field(v, f.kind) != Some(Str(b.kind)) || Field(v, f.tenant) != Some(Str(b.tenant)) || Field(v, f.digest) != Some(Str(b.digest))
        then Refused
        else
          match Field(v, f.offset)
          case Some(Number(n)) => if n < 0 then Refused else At(n)
          case _ => Refused
  }

  /** Without a token, or with an empty one, a search begins at the beginning. */
  lemma NoTokenBegins(sign: Signer, f: Fields, b: Bound)
    ensures RequestState(sign, f, b, None) == At(0) && RequestState(sign, f, b, Some("")) == At(0)
  {}

  /** Any other token is followed exactly when it reads as an object of this search, tenant and request with an offset that is not negative. */
  lemma FollowedExactlyWhen(sign: Signer, f: Fields, b: Bound, token: string, n: int)
    requires token != ""
    ensures RequestState(sign, f, b, Some(token)) == At(n) <==>
      exists m ::
        && DecodeToken(sign, token) == Some(Obj(m))
        && HasKey(m, f.kind) && Get(m, f.kind) == Str(b.kind) && HasKey(m, f.tenant) && Get(m, f.tenant) == Str(b.tenant)
        && HasKey(m, f.digest) && Get(m, f.digest) == Str(b.digest) && HasKey(m, f.offset) && Get(m, f.offset) == Number(n) && n >= 0
  {}

  lemma PayloadIsClean(f: Fields, b: Bound, offset: int)
    requires f.Apart() && b.Readable()
    ensures Distinct(Payload(f, b, offset)) && Whole(Payload(f, b, offset), false)
  {
    var m4 := Member(f.offset, Number(offset), NoMembers);
    var m3 := Member(f.digest, Str(b.digest), m4);
    var m2 := Member(f.tenant, Str(b.tenant), m3);
    assert DistinctMembers(m4) && WholeMembers(m4, false);
    assert DistinctMembers(m3) && WholeMembers(m3, false);
    assert !HasKey(m4, f.tenant) && !HasKey(m4, f.kind);
    assert DistinctMembers(m2) && WholeMembers(m2, false);
    assert !HasKey(m3, f.kind);
    assert !HasKey(m2, f.kind);
    assert DistinctMembers(Member(f.kind, Str(b.kind), m2));
  }

  lemma PayloadFields(f: Fields, b: Bound, offset: int)
    requires f.Apart() && b.Readable()
    ensures var v := Normal(Payload(f, b, offset));
            && Field(v, f.kind) == Some(Str(b.kind)) && Field(v, f.tenant) == Some(Str(b.tenant))
            && Field(v, f.digest) == Some(Str(b.digest)) && Field(v, f.offset) == Some(Number(offset))
  {
    var m := Payload(f, b, offset).members;
    PayloadIsClean(f, b, offset);
    assert HasKey(m.rest.rest.rest, f.offset);
    assert HasKey(m.rest.rest, f.offset) && HasKey(m.rest.rest, f.digest);
    assert HasKey(m.rest, f.offset) && HasKey(m.rest, f.digest);
    assert Get(m.rest.rest, f.offset) == Number(offset);
    assert Get(m.rest, f.offset) == Number(offset) && Get(m.rest, f.digest) == Str(b.digest);
    NormalGet(m, f.kind);
    NormalGet(m, f.tenant);
    NormalGet(m, f.digest);
    NormalGet(m, f.offset);
  }

  /**
   The token of a page leads to its offset for the same search, tenant and request exactly when its
   signature holds no dot, and for any other it is refused.
   */
  lemma FollowToken(sign: Signer, f: Fields, b: Bound, other: Bound, offset: nat)
    requires Digests(sign) && f.Apart() && b.Readable()
    ensures var token := Token(sign, Payload(f, b, offset));
            RequestState(sign, f, other, Some(token))
            == if DOT in sign(PayloadBytes(Payload(f, b, offset))) || other != b then Refused else At(offset)
  {
    var v := Payload(f, b, offset);
    PayloadIsClean(f, b, offset);
    TokenRoundTrip(sign, v);
    PayloadFields(f, b, offset);
    B.EncodedLength(PayloadBytes(v) + [DOT] + sign(PayloadBytes(v)));
  }

  // ---------------------------------------------------------------- a search by its tokens

  /** The pages a client gets by following next_token, and whether it got to a page without one. */
  datatype Search<T> = Search(pages: seq<seq<T>>, finished: bool)

  /** The server's signature on the token for this offset contains a dot. */
  ghost predicate Dotted(sign: Signer, f: Fields, b: Bound, offset: nat) { DOT in sign(PayloadBytes(Payload(f, b, offset))) }

  /** Each page's token is sent back as it was issued; a refused token ends the search. */
  ghost function Follow<T(!new)>(sign: Signer, f: Fields, b: Bound, all: seq<T>, permitted: T -> bool, limit: nat, offset: nat): Search<T>
    requires Digests(sign) && f.Apart() && b.Readable() && limit >= 1 && offset <= |all|
    decreases |all| - offset
  {
    P.PageMovesOn(all, permitted, offset, limit);
    var p := P.PageAt(all, permitted, offset, limit);
    if p.next.None? then Search([p.results], true)
    else
      FollowToken(sign, f, b, b, p.next.value);
      match RequestState(sign, f, b, Some(Token(sign, Payload(f, b, p.next.value))))
      case At(next) =>
        var rest := Follow(sign, f, b, all, permitted, limit, next);
        Search([p.results] + rest.pages, rest.finished)
      case _ => Search([p.results], false)
  }

  /** A whole search: the first request carries no token. */
  ghost function SearchAll<T(!new)>(sign: Signer, f: Fields, b: Bound, all: seq<T>, permitted: T -> bool, limit: nat): Search<T>
    requires Digests(sign) && f.Apart() && b.Readable() && limit >= 1
  {
    match RequestState(sign, f, b, None)
    case At(start) => Follow(sign, f, b, all, permitted, limit, start)
    case _ => Search([], false)
  }

  /** The offsets for which tokens are issued on the way through all pages. */
  ghost function Issued<T(!new)>(all: seq<T>, permitted: T -> bool, limit: nat, offset: nat): set<nat>
    requires limit >= 1
    decreases if offset <= |all| then |all| - offset else 0
  {
    P.PageMovesOn(all, permitted, offset, limit);
    var p := P.PageAt(all, permitted, offset, limit);
    if p.next.None? then {} else {p.next.value} + Issued(all, permitted, limit, p.next.value)
  }

  lemma {:induction false} FollowYields<T(!new)>(sign: Signer, f: Fields, b: Bound, all: seq<T>, permitted: T -> bool, limit: nat, offset: nat)
    requires Digests(sign) && f.Apart() && b.Readable() && limit >= 1 && offset <= |all|
    ensures var search := Follow(sign, f, b, all, permitted, limit, offset);
      && (search.finished <==> forall n :: n in Issued(all, permitted, limit, offset) ==> !Dotted(sign, f, b, n))
      && (search.finished ==> search.pages == P.Pages(all, permitted, offset, limit))
      && search.pages <= P.Pages(all, permitted, offset, limit)
    decreases |all| - offset
  {
    P.PageMovesOn(all, permitted, offset, limit);
    var p := P.PageAt(all, permitted, offset, limit);
    if p.next.Some? {
      var n := p.next.value;
      FollowToken(sign, f, b, b, n);
      if !Dotted(sign, f, b, n) { FollowYields(sign, f, b, all, permitted, limit, n); }
    }
  }

  lemma {:induction false} ConcatPrefix<T>(a: seq<seq<T>>, b: seq<seq<T>>)
    requires a <= b
    ensures P.Concat(a) <= P.Concat(b)
  {
    if a != [] { ConcatPrefix(a[1..], b[1..]); }
  }

  /**
   A search that follows its tokens ends. It gets to the last page, and then has handed out the permitted candidates in
   order and each once, exactly when no token on the way has a dot in its signature; otherwise the first such token is
   refused and the client is left with the pages before it, a beginning of that list.
   */
  lemma TokensYieldTheFilter<T(!new)>(sign: Signer, f: Fields, b: Bound, all: seq<T>, permitted: T -> bool, limit: nat)
    requires Digests(sign) && f.Apart() && b.Readable() && limit >= 1
    ensures var search := SearchAll(sign, f, b, all, permitted, limit);
      && (search.finished <==> forall n :: n in Issued(all, permitted, limit, 0) ==> !Dotted(sign, f, b, n))
      && (search.finished ==> P.Concat(search.pages) == P.Permitted(all, permitted))
      && P.Concat(search.pages) <= P.Permitted(all, permitted)
      && (forall page :: page in search.pages ==> |page| <= limit)
  {
    FollowYields(sign, f, b, all, permitted, limit, 0);
    var search := SearchAll(sign, f, b, all, permitted, limit);
    ConcatPrefix(search.pages, P.Pages(all, permitted, 0, limit));
    P.PagesAreTheFilter(all, permitted, 0, limit);
    P.PagesFit(all, permitted, 0, limit);
    assert all[0..] == all;
  }
}
