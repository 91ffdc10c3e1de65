/** The text of canonical JSON, the reader of JSON text, and how the two meet. */
module JsonText {
  import opened Options
  import opened Ascii
  import opened JsonStrings
  import opened CanonicalJson
  import Decimals = Text

  // ---------------------------------------------------------------- printing

  function PrintNumber(n: int): string {
    if n < 0 then "-" + Decimals.Decimal(-n) else Decimals.Decimal(n)
  }

  /** A number is written as its digits without superfluous zeros, after a minus sign exactly when it is negative. */
  lemma NumberText(n: int)
    ensures PrintNumber(n) != "" && (PrintNumber(n)[0] == '-' <==> n < 0)
    ensures n >= 0 ==> Decimals.IsDigits(PrintNumber(n)) && Decimals.DigitsValue(PrintNumber(n)) == n
    ensures n < 0 ==> Decimals.IsDigits(PrintNumber(n)[1..]) && Decimals.DigitsValue(PrintNumber(n)[1..]) == -n
    ensures PrintNumber(n)[0] == '0' ==> n == 0
  {
    Decimals.DecimalRoundTrip(if n < 0 then -n else n);
  }

  function Print(v: Json): string {
    match v
    case Null => "null"
    case Bool(flag) => if flag then "true" else "false"
    case Number(n) => PrintNumber(n)
    case Str(text) => Literal(text)
    case Stamp(moment) => Literal(AsText(Iso(moment)))
    case Arr(items) => "[" + PrintItems(items) + "]"
    case Obj(members) => "{" + PrintMembers(members) + "}"
  }

  function PrintItems(items: Items): string {
    match items
    case NoItems => ""
    case Item(head, tail) => Print(head) + (if tail.Item? then "," + PrintItems(tail) else "")
  }

  function PrintMembers(m: Members): string {
    match m
    case NoMembers => ""
    case Member(key, value, rest) =>
      Literal(key) + ":" + Print(value) + (if rest.Member? then "," + PrintMembers(rest) else "")
  }

  /** canonical_json. */
  function Canonical(v: Json): string { Print(Normal(v)) }

  /** Items are separated by a comma and nothing else. */
  lemma ItemsSeparated(v: Json, w: Json)
    ensures Print(Arr(NoItems)) == "[]"
    ensures PrintItems(Item(v, Item(w, NoItems))) == Print(v) + ("," + Print(w)) && Print(Arr(Item(v, Item(w, NoItems)))) == "[" + PrintItems(Item(v, Item(w, NoItems))) + "]"
  {
    assert PrintItems(Item(w, NoItems)) == Print(w);
  }

  /** So are pairs, and a key from its value by a colon. */
  lemma PairsSeparated(a: Text, v: Json, rest: Members)
    ensures Print(Obj(NoMembers)) == "{}" && Print(Obj(rest)) == "{" + PrintMembers(rest) + "}"
    ensures PrintMembers(Member(a, v, NoMembers)) == Literal(a) + ":" + Print(v)
    ensures rest.Member? ==> PrintMembers(Member(a, v, rest)) == Literal(a) + ":" + Print(v) + ("," + PrintMembers(rest))
  {}

  // ---------------------------------------------------------------- reading

  datatype Reading<T> = Fail | Read(value: T, rest: string)

  predicate IsSpace(c: char) { c == ' ' || c == '\t' || c == '\n' || c == '\r' }

  function Skip(s: string): (t: string)
    ensures |t| <= |s|
  {
    if s != "" && IsSpace(s[0]) then Skip(s[1..]) else s
  }

  function DigitRun(s: string): (k: nat)
    ensures k <= |s|
    ensures forall i :: 0 <= i < k ==> Decimals.IsDigit(s[i])
  {
    if s != "" && Decimals.IsDigit(s[0]) then 1 + DigitRun(s[1..]) else 0
  }

  /** The digits of a JSON integer: a leading zero stands alone. */
  function ReadNatural(s: string): (r: Reading<int>)
    ensures r.Read? ==> |r.rest| < |s|
  {
    var k := if s != "" && s[0] == '0' then 1 else DigitRun(s);
    if k == 0 || (k < |s| && (s[k] == '.' || s[k] == 'e' || s[k] == 'E')) then Fail else Read(Decimals.DigitsValue(s[..k]), s[k..])
  }

  lemma {:induction false} RunEnds(s: string)
    ensures DigitRun(s) < |s| ==> !Decimals.IsDigit(s[DigitRun(s)])
  {
    if s != "" && Decimals.IsDigit(s[0]) { RunEnds(s[1..]); }
  }

  /** What is read is the number of the longest run of digits, or of a leading zero, unless a fraction or an exponent follows. */
  lemma NaturalReads(s: string)
    ensures ReadNatural(s).Read? ==>
      var r := ReadNatural(s); var k := |s| - |r.rest|;
      && k >= 1 && r.rest == s[k..] && Decimals.IsDigits(s[..k]) && r.value == Decimals.DigitsValue(s[..k])
      && (s[0] == '0' ==> k == 1) && (s[0] != '0' && r.rest != "" ==> !Decimals.IsDigit(r.rest[0]))
      && (r.rest != "" ==> r.rest[0] !in {'.', 'e', 'E'})
  {
    RunEnds(s);
  }

  function ReadNumber(s: string): (r: Reading<Json>)
    ensures r.Read? ==> |r.rest| < |s|
  {
    if s != "" && s[0] == '-' then
      match ReadNatural(s[1..])
      case Fail => Fail
      case Read(n, rest) => Read(Number(-n), rest)
    else
      match ReadNatural(s)
      case Fail => Fail
      case Read(n, rest) => Read(Number(n), rest)
  }

  function ReadWord(s: string): (r: Reading<Json>)
    ensures r.Read? ==> |r.rest| < |s|
  {
    if "null" <= s then Read(Null, s[4..])
    else if "true" <= s then Read(Bool(true), s[4..])
    else if "false" <= s then Read(Bool(false), s[5..])
    else Fail
  }

  function ReadString(s: string): (r: Reading<Text>)
    ensures r.Read? ==> |r.rest| < |s|
  {
    if s == "" || s[0] != '"' then Fail else
      match Scan(s[1..])
      case None => Fail
      case Some(scanned) => Read(scanned.text, scanned.rest)
  }

  /** A string begins with a quotation mark. */
  lemma StringBegins(s: string)
    ensures ReadString(s).Read? ==> s != "" && s[0] == '"'
  {}

  /** Reads a value that starts at the first character; objects keep every pair. */
  function ReadValue(s: string): (r: Reading<Json>)
    ensures r.Read? ==> |r.rest| < |s|
    decreases |s|, 0
  {
    if s == "" then Fail
    else if s[0] == '"' then
      match ReadString(s)
      case Fail => Fail
      case Read(text, rest) => Read(Str(text), rest)
    else if s[0] == '[' then
      var t := Skip(s[1..]);
      if t != "" && t[0] == ']' then Read(Arr(NoItems), t[1..]) else
        match ReadItems(t)
        case Fail => Fail
        case Read(items, rest) => Read(Arr(items), rest)
    else if s[0] == '{' then
      var t := Skip(s[1..]);
      if t != "" && t[0] == '}' then Read(Obj(NoMembers), t[1..]) else
        match ReadMembers(t)
        case Fail => Fail
        case Read(members, rest) => Read(Obj(members), rest)
    else if s[0] == 'n' || s[0] == 't' || s[0] == 'f' then ReadWord(s)
    else ReadNumber(s)
  }

  /** One or more values up to the closing bracket. */
  function ReadItems(s: string): (r: Reading<Items>)
    ensures r.Read? ==> |r.rest| < |s|
    decreases |s|, 1
  {
    match ReadValue(s)
    case Fail => Fail
    case Read(head, rest) =>
      var t := Skip(rest);
      if t == "" then Fail
      else if t[0] == ']' then Read(Item(head, NoItems), t[1..])
      else if t[0] != ',' then Fail
      else
        match ReadItems(Skip(t[1..]))
        case Fail => Fail
        case Read(tail, after) => Read(Item(head, tail), after)
  }

  datatype Pair = Pair(key: Text, value: Json)

  function ReadPair(s: string): (r: Reading<Pair>)
    ensures r.Read? ==> |r.rest| < |s|
    decreases |s|, 1
  {
    match ReadString(s)
    case Fail => Fail
    case Read(key, rest) =>
      var c := Skip(rest);
      if c == "" || c[0] != ':' then Fail else
        match ReadValue(Skip(c[1..]))
        case Fail => Fail
        case Read(value, after) => Read(Pair(key, value), after)
  }

  /** One or more pairs up to the closing brace. */
  function ReadMembers(s: string): (r: Reading<Members>)
    ensures r.Read? ==> |r.rest| < |s|
    decreases |s|, 2
  {
    match ReadPair(s)
    case Fail => Fail
    case Read(pair, rest) =>
      var t := Skip(rest);
      if t == "" then Fail
      else if t[0] == '}' then Read(Member(pair.key, pair.value, NoMembers), t[1..])
      else if t[0] != ',' then Fail
      else
        match ReadMembers(Skip(t[1..]))
        case Fail => Fail
        case Read(others, after) => Read(Member(pair.key, pair.value, others), after)
  }

  /** White space is a space, a tab, a line feed or a carriage return. */
  lemma SpaceExactlyWhen(c: char)
    ensures IsSpace(c) <==> c as int in {9, 10, 13, 32}
  {}

  /** Items are values separated by commas. */
  lemma ItemsRead(s: string)
    ensures ReadItems(s).Read? ==>
      ReadValue(s).Read? && var t := Skip(ReadValue(s).rest); t != "" && t[0] in {',', ']'} && ReadItems(s).value.head == ReadValue(s).value
    ensures ReadItems(s).Read? && Skip(ReadValue(s).rest)[0] == ']' ==> ReadItems(s).value.tail == NoItems
  {}

  /** A pair is a string, a colon and a value, and pairs are separated by commas. */
  lemma PairsRead(s: string)
    ensures ReadPair(s).Read? ==>
      ReadString(s).Read? && var t := Skip(ReadString(s).rest); t != "" && t[0] == ':' && ReadPair(s).value.key == ReadString(s).value
    ensures ReadMembers(s).Read? ==> ReadPair(s).Read? && var t := Skip(ReadPair(s).rest); t != "" && t[0] in {',', '}'}
    ensures ReadMembers(s).Read? && Skip(ReadPair(s).rest)[0] == '}' ==> ReadMembers(s).value.rest == NoMembers
  {}

  /** json.loads: one value with nothing but white space around it, as dictionaries. */
  function Loads(s: string): Option<Json> {
    match ReadValue(Skip(s))
    case Fail => None
    case Read(v, rest) => if Skip(rest) == "" then Some(Merged(v)) else None
  }

  // ---------------------------------------------------------------- joined texts

  /** The value with every text as the reader gives it. */
  function JoinedAll(v: Json): Json {
    match v
    case Str(text) => Str(Joined(text))
    case Arr(items) => Arr(JoinedItems(items))
    case Obj(members) => Obj(JoinedMembers(members))
    case _ => v
  }

  function JoinedItems(items: Items): Items {
    match items
    case NoItems => NoItems
    case Item(head, tail) => Item(JoinedAll(head), JoinedItems(tail))
  }

  function JoinedMembers(m: Members): Members {
    match m
    case NoMembers => NoMembers
    case Member(key, value, rest) => Member(Joined(key), JoinedAll(value), JoinedMembers(rest))
  }

  /** No stamps: what Normal leaves. */
  predicate Plain(v: Json) {
    match v
    case Stamp(_) => false
    case Arr(items) => PlainItems(items)
    case Obj(members) => PlainMembers(members)
    case _ => true
  }

  predicate PlainItems(items: Items) { items.Item? ==> Plain(items.head) && PlainItems(items.tail) }

  predicate PlainMembers(m: Members) { m.Member? ==> Plain(m.value) && PlainMembers(m.rest) }

  lemma {:induction false} InsertPlain(k: Text, v: Json, m: Members)
    requires Plain(v) && PlainMembers(m)
    ensures PlainMembers(InsertKey(k, v, m))
  {
    if m.Member? && Less(m.key, k) { InsertPlain(k, v, m.rest); }
  }

  lemma {:induction false} NormalIsPlain(v: Json)
    ensures Plain(Normal(v))
    decreases v
  {
    if v.Arr? { NormalItemsPlain(v.items); }
    if v.Obj? { NormalMembersPlain(v.members); }
  }

  lemma {:induction false} NormalItemsPlain(items: Items)
    ensures PlainItems(NormalItems(items))
    decreases items
  {
    if items.Item? {
      NormalIsPlain(items.head);
      NormalItemsPlain(items.tail);
    }
  }

  lemma {:induction false} NormalMembersPlain(m: Members)
    ensures PlainMembers(NormalMembers(m))
    decreases m
  {
    if m.Member? {
      NormalIsPlain(m.value);
      NormalMembersPlain(m.rest);
      InsertPlain(m.key, Normal(m.value), NormalMembers(m.rest));
    }
  }

  // ---------------------------------------------------------------- reading what was printed

  /** What may follow a printed value: the end, a comma or a closing bracket. */
  predicate Boundary(rest: string) { rest == "" || rest[0] == ',' || rest[0] == ']' || rest[0] == '}' }

  lemma {:induction false} RunOf(d: string, rest: string)
    requires forall i :: 0 <= i < |d| ==> Decimals.IsDigit(d[i])
    requires rest == "" || !Decimals.IsDigit(rest[0])
    ensures DigitRun(d + rest) == |d|
  {
    if d == "" {
      assert d + rest == rest;
    } else {
      assert (d + rest)[1..] == d[1..] + rest;
      RunOf(d[1..], rest);
    }
  }

  lemma ReadPrintedNatural(n: nat, rest: string)
    requires Boundary(rest)
    ensures ReadNatural(Decimals.Decimal(n) + rest) == Read(n, rest)
  {
    var d := Decimals.Decimal(n);
    Decimals.DecimalRoundTrip(n);
    RunOf(d, rest);
    assert d[0] == '0' ==> |d| == 1;
    assert (d + rest)[..|d|] == d && (d + rest)[|d|..] == rest;
  }

  lemma NumberStart(s: string)
    requires s != "" && (s[0] == '-' || Decimals.IsDigit(s[0]))
    ensures ReadValue(s) == ReadNumber(s)
  {
    var c := s[0];
    assert c != '"' && c != '[' && c != '{' && c != 'n' && c != 't' && c != 'f';
  }

  lemma NumberPlus(s: string, n: int, rest: string)
    requires s != "" && Decimals.IsDigit(s[0]) && ReadNatural(s) == Read(n, rest)
    ensures ReadValue(s) == Read(Number(n), rest)
  {
    NumberStart(s);
  }

  lemma NumberMinus(s: string, n: int, rest: string)
    requires ReadNatural(s) == Read(n, rest)
    ensures ReadValue("-" + s) == Read(Number(-n), rest)
  {
    NumberStart("-" + s);
    assert ("-" + s)[1..] == s;
  }

  lemma ReadPrintedNumber(n: int, rest: string)
    requires Boundary(rest)
    ensures ReadValue(PrintNumber(n) + rest) == Read(Number(n), rest)
  {
    var k: nat := if n < 0 then -n else n;
    var s := Decimals.Decimal(k) + rest;
    Decimals.DecimalRoundTrip(k);
    ReadPrintedNatural(k, rest);
    if n < 0 {
      NumberMinus(s, k, rest);
      assert PrintNumber(n) + rest == "-" + s;
    } else {
      assert s[0] == Decimals.Decimal(k)[0];
      NumberPlus(s, k, rest);
    }
  }

  lemma ReadPrintedText(t: Text, rest: string)
    ensures ReadString(Literal(t) + rest) == Read(Joined(t), rest)
  {
    assert (Literal(t) + rest)[1..] == EscapeAll(t) + (['"'] + rest);
    ScanLiteral(t, ['"'] + rest);
    assert (['"'] + rest)[1..] == rest;
  }

  /** A character that can start a value. */
  predicate Starts(c: char) { !IsSpace(c) && c != ']' && c != '}' }

  lemma FirstPrinted(v: Json)
    ensures Print(v) != "" && Starts(Print(v)[0])
  {
    if v.Number? { Decimals.DecimalRoundTrip(if v.n < 0 then -v.n else v.n); }
  }

  /** Any printed value reads back as the value with its texts joined, whatever boundary follows. */
  lemma {:induction false} ReadPrinted(v: Json, rest: string)
    requires Plain(v) && Boundary(rest)
    ensures ReadValue(Print(v) + rest) == Read(JoinedAll(v), rest)
    decreases v, 0
  {
    match v
    case Number(n) => ReadPrintedNumber(n, rest);
    case Str(text) => ReadPrintedText(text, rest);
    case Null => assert ("null" + rest)[4..] == rest;
    case Bool(flag) =>
      assert ("true" + rest)[4..] == rest;
      assert ("false" + rest)[5..] == rest;
    case Arr(items) => ReadPrintedArray(items, rest);
    case Obj(members) => ReadPrintedObject(members, rest);
  }

  lemma {:induction false} ReadPrintedArray(items: Items, rest: string)
    requires PlainItems(items)
    ensures ReadValue("[" + PrintItems(items) + "]" + rest) == Read(Arr(JoinedItems(items)), rest)
    decreases items, 1
  {
    var t := PrintItems(items) + ("]" + rest);
    assert "[" + PrintItems(items) + "]" + rest == "[" + t;
    if items.NoItems? {
      assert t == "]" + rest;
      BracketClosed('[', rest);
    } else {
      FirstPrinted(items.head);
      assert t[0] == Print(items.head)[0];
      ReadPrintedItems(items, rest);
      BracketOpen('[', t);
    }
  }

  /** An opening bracket followed at once by its closing one. */
  lemma BracketClosed(b: char, rest: string)
    requires b == '[' || b == '{'
    ensures b == '[' ==> ReadValue([b] + ("]" + rest)) == Read(Arr(NoItems), rest)
    ensures b == '{' ==> ReadValue([b] + ("}" + rest)) == Read(Obj(NoMembers), rest)
  {
    assert ([b] + ("]" + rest))[1..] == "]" + rest && ("]" + rest)[1..] == rest;
    assert ([b] + ("}" + rest))[1..] == "}" + rest && ("}" + rest)[1..] == rest;
  }

  /** An opening bracket followed by the start of its contents. */
  lemma BracketOpen(b: char, t: string)
    requires t != "" && Starts(t[0])
    requires b == '[' || b == '{'
    ensures b == '[' && ReadItems(t).Read? ==> ReadValue([b] + t) == Read(Arr(ReadItems(t).value), ReadItems(t).rest)
    ensures b == '{' && ReadMembers(t).Read? ==> ReadValue([b] + t) == Read(Obj(ReadMembers(t).value), ReadMembers(t).rest)
  {
    assert ([b] + t)[1..] == t;
  }

  lemma ItemsEnd(s: string, v: Json, rest: string)
    requires ReadValue(s) == Read(v, "]" + rest)
    ensures ReadItems(s) == Read(Item(v, NoItems), rest)
  {
    assert ("]" + rest)[1..] == rest;
  }

  lemma ItemsMore(s: string, v: Json, later: string, others: Items, rest: string)
    requires ReadValue(s) == Read(v, "," + later)
    requires later != "" && Starts(later[0]) && ReadItems(later) == Read(others, rest)
    ensures ReadItems(s) == Read(Item(v, others), rest)
  {
    assert ("," + later)[1..] == later;
  }

  lemma {:induction false} ReadPrintedItems(items: Items, rest: string)
    requires PlainItems(items) && items.Item?
    ensures ReadItems(PrintItems(items) + ("]" + rest)) == Read(JoinedItems(items), rest)
    decreases items, 0
  {
    var s := PrintItems(items) + ("]" + rest);
    if items.tail.NoItems? {
      assert s == Print(items.head) + ("]" + rest);
      ReadPrinted(items.head, "]" + rest);
      ItemsEnd(s, JoinedAll(items.head), rest);
    } else {
      var later := PrintItems(items.tail) + ("]" + rest);
      assert s == Print(items.head) + ("," + later);
      ReadPrinted(items.head, "," + later);
      FirstPrinted(items.tail.head);
      assert later[0] == Print(items.tail.head)[0];
      ReadPrintedItems(items.tail, rest);
      ItemsMore(s, JoinedAll(items.head), later, JoinedItems(items.tail), rest);
    }
  }

  lemma {:induction false} ReadPrintedObject(m: Members, rest: string)
    requires PlainMembers(m)
    ensures ReadValue("{" + PrintMembers(m) + "}" + rest) == Read(Obj(JoinedMembers(m)), rest)
    decreases m, 2
  {
    var t := PrintMembers(m) + ("}" + rest);
    assert "{" + PrintMembers(m) + "}" + rest == "{" + t;
    if m.NoMembers? {
      assert t == "}" + rest;
      BracketClosed('{', rest);
    } else {
      assert t[0] == '"';
      ReadPrintedMembers(m, rest);
      BracketOpen('{', t);
    }
  }

  lemma PairParts(s: string, key: Text, after: string)
    requires ReadString(s) == Read(key, ":" + after)
    requires after != "" && Starts(after[0]) && ReadValue(after).Read?
    ensures ReadPair(s) == Read(Pair(key, ReadValue(after).value), ReadValue(after).rest)
  {
    assert (":" + after)[1..] == after;
  }

  lemma {:induction false} ReadPrintedPair(key: Text, value: Json, rest: string)
    requires Plain(value) && Boundary(rest)
    ensures ReadPair(Literal(key) + ":" + Print(value) + rest) == Read(Pair(Joined(key), JoinedAll(value)), rest)
    decreases value, 1
  {
    var after := Print(value) + rest;
    assert Literal(key) + ":" + Print(value) + rest == Literal(key) + (":" + after);
    ReadPrintedText(key, ":" + after);
    FirstPrinted(value);
    assert after[0] == Print(value)[0];
    ReadPrinted(value, rest);
    PairParts(Literal(key) + (":" + after), Joined(key), after);
  }

  lemma MembersEnd(s: string, p: Pair, rest: string)
    requires ReadPair(s) == Read(p, "}" + rest)
    ensures ReadMembers(s) == Read(Member(p.key, p.value, NoMembers), rest)
  {
    assert ("}" + rest)[1..] == rest;
  }

  lemma MembersMore(s: string, p: Pair, later: string, others: Members, rest: string)
    requires ReadPair(s) == Read(p, "," + later)
    requires later != "" && later[0] == '"' && ReadMembers(later) == Read(others, rest)
    ensures ReadMembers(s) == Read(Member(p.key, p.value, others), rest)
  {
    assert ("," + later)[1..] == later;
  }

  lemma {:induction false} ReadPrintedMembers(m: Members, rest: string)
    requires PlainMembers(m) && m.Member?
    ensures ReadMembers(PrintMembers(m) + ("}" + rest)) == Read(JoinedMembers(m), rest)
    decreases m, 0
  {
    var s := PrintMembers(m) + ("}" + rest);
    var p := Pair(Joined(m.key), JoinedAll(m.value));
    if m.rest.NoMembers? {
      assert s == Literal(m.key) + ":" + Print(m.value) + ("}" + rest);
      ReadPrintedPair(m.key, m.value, "}" + rest);
      MembersEnd(s, p, rest);
    } else {
      var later := PrintMembers(m.rest) + ("}" + rest);
      assert s == Literal(m.key) + ":" + Print(m.value) + ("," + later);
      ReadPrintedPair(m.key, m.value, "," + later);
      assert later[0] == '"';
      ReadPrintedMembers(m.rest, rest);
      MembersMore(s, p, later, JoinedMembers(m.rest), rest);
    }
  }

  /** Reading canonical JSON gives the normal form, with surrogate pairs joined and equal keys merged. */
  lemma LoadsCanonical(v: Json)
    ensures Loads(Canonical(v)) == Some(Merged(JoinedAll(Normal(v))))
  {
    var s := Canonical(v);
    NormalIsPlain(v);
    FirstPrinted(Normal(v));
    ReadPrinted(Normal(v), "");
    assert s + "" == s;
  }

  // ---------------------------------------------------------------- canonical JSON is ASCII

  /** A written code point is ASCII, and a surrogate pair of escapes at most twelve characters long. */
  lemma EscapedOne(c: CodePoint)
    ensures IsAscii(Escape(c)) && |Escape(c)| <= 12
  {}

  lemma {:induction false} EscapedText(t: Text)
    ensures IsAscii(EscapeAll(t)) && |EscapeAll(t)| <= 12 * |t|
  {
    if t != [] {
      EscapedText(t[1..]);
      EscapedOne(t[0]);
    }
  }

  lemma {:induction false} DecimalIsAscii(n: nat)
    ensures IsAscii(Decimals.Decimal(n))
  {
    if n >= 10 { DecimalIsAscii(n / 10); }
  }

  lemma AsciiBetween(open: string, inner: string, close: string)
    requires IsAscii(open) && IsAscii(inner) && IsAscii(close)
    ensures IsAscii(open + inner + close)
  {}

  lemma {:induction false} PrintIsAscii(v: Json)
    ensures IsAscii(Print(v))
    decreases v
  {
    match v
    case Number(n) => NumberIsAscii(n);
    case Str(text) => EscapedText(text);
    case Stamp(moment) => EscapedText(AsText(Iso(moment)));
    case Arr(items) =>
      ItemsAreAscii(items);
      AsciiBetween("[", PrintItems(items), "]");
    case Obj(members) =>
      MembersAreAscii(members);
      AsciiBetween("{", PrintMembers(members), "}");
    case _ =>
  }

  lemma NumberIsAscii(n: int)
    ensures IsAscii(PrintNumber(n))
  {
    DecimalIsAscii(if n < 0 then -n else n);
  }

  lemma {:induction false} ItemsAreAscii(items: Items)
    ensures IsAscii(PrintItems(items))
    decreases items
  {
    if items.Item? {
      PrintIsAscii(items.head);
      ItemsAreAscii(items.tail);
    }
  }

  lemma {:induction false} MembersAreAscii(m: Members)
    ensures IsAscii(PrintMembers(m))
    decreases m
  {
    if m.Member? {
      EscapedText(m.key);
      PrintIsAscii(m.value);
      MembersAreAscii(m.rest);
    }
  }
}
