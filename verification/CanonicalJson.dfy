/**
 Canonical JSON: json.dumps with sorted keys, compact separators and UTC time stamps, and json.loads,
 which builds a dictionary from each object it reads. Numbers are integers.
 */
module CanonicalJson {
  import opened JsonStrings
  import Decimals = Text

  /** A UTC date and time, as datetime.astimezone(UTC) gives it. */
  datatype Moment = Moment(year: nat, month: nat, day: nat, hour: nat, minute: nat, second: nat, micro: nat)

  datatype Json =
    | Null
    | Bool(flag: bool)
    | Number(n: int)
    | Str(text: Text)
    | Stamp(moment: Moment)
    | Arr(items: Items)
    | Obj(members: Members)

  datatype Items = NoItems | Item(head: Json, tail: Items)

  datatype Members = NoMembers | Member(key: Text, value: Json, rest: Members)

  // ---------------------------------------------------------------- key order

  /** Python's order on strings: by code points. */
  predicate Less(a: Text, b: Text) {
    b != [] && (a == [] || a[0] < b[0] || (a[0] == b[0] && Less(a[1..], b[1..])))
  }

  lemma {:induction false} LessTotal(a: Text, b: Text)
    ensures a == b || Less(a, b) || Less(b, a)
    ensures !(Less(a, b) && Less(b, a)) && !Less(a, a)
  {
    if a != [] {
      LessTotal(a[1..], a[1..]);
      if b != [] {
        LessTotal(a[1..], b[1..]);
        if a[0] == b[0] && a[1..] == b[1..] {
          assert a == [a[0]] + a[1..] == b;
        }
      }
    }
  }

  lemma {:induction false} LessTransitive(a: Text, b: Text, c: Text)
    requires Less(a, b) && Less(b, c)
    ensures Less(a, c)
  {
    if a != [] && a[0] == b[0] == c[0] {
      LessTransitive(a[1..], b[1..], c[1..]);
    }
  }

  // ---------------------------------------------------------------- dictionaries

  predicate HasKey(m: Members, k: Text) { m.Member? && (m.key == k || HasKey(m.rest, k)) }

  function Get(m: Members, k: Text): (v: Json)
    requires HasKey(m, k)
    ensures v < m
  {
    if m.key == k then m.value else Get(m.rest, k)
  }

  function Without(m: Members, k: Text): Members {
    match m
    case NoMembers => NoMembers
    case Member(key, value, rest) => if key == k then Without(rest, k) else Member(key, value, Without(rest, k))
  }

  /** No object has two members with the same key: true of every Python dictionary. */
  predicate Distinct(v: Json) {
    match v
    case Arr(items) => DistinctItems(items)
    case Obj(members) => DistinctMembers(members)
    case _ => true
  }

  predicate DistinctItems(items: Items) {
    items.Item? ==> Distinct(items.head) && DistinctItems(items.tail)
  }

  predicate DistinctMembers(m: Members) {
    m.Member? ==> !HasKey(m.rest, m.key) && Distinct(m.value) && DistinctMembers(m.rest)
  }

  /** What building dictionaries makes of a value read as pairs: the last value of a key stays, in its first place. */
  function Merged(v: Json): Json {
    match v
    case Arr(items) => Arr(MergedItems(items))
    case Obj(members) => Obj(MergedMembers(members))
    case _ => v
  }

  function MergedItems(items: Items): Items {
    match items
    case NoItems => NoItems
    case Item(head, tail) => Item(Merged(head), MergedItems(tail))
  }

  function MergedMembers(m: Members): Members {
    match m
    case NoMembers => NoMembers
    case Member(key, value, rest) =>
      var later := MergedMembers(rest);
      if HasKey(later, key) then Member(key, Get(later, key), Without(later, key)) else Member(key, Merged(value), later)
  }

  lemma {:induction false} WithoutLacks(m: Members, k: Text, j: Text)
    ensures HasKey(Without(m, k), j) <==> j != k && HasKey(m, j)
  {
    if m.Member? { WithoutLacks(m.rest, k, j); }
  }

  lemma {:induction false} WithoutDistinct(m: Members, k: Text)
    requires DistinctMembers(m)
    ensures DistinctMembers(Without(m, k))
  {
    if m.Member? {
      WithoutDistinct(m.rest, k);
      WithoutLacks(m.rest, k, m.key);
    }
  }

  lemma {:induction false} GetDistinct(m: Members, k: Text)
    requires DistinctMembers(m) && HasKey(m, k)
    ensures Distinct(Get(m, k))
  {
    if m.key != k { GetDistinct(m.rest, k); }
  }

  lemma {:induction false} MergedIsDistinct(v: Json)
    ensures Distinct(Merged(v))
    decreases v
  {
    if v.Arr? { MergedItemsDistinct(v.items); }
    if v.Obj? { MergedMembersDistinct(v.members); }
  }

  lemma {:induction false} MergedItemsDistinct(items: Items)
    ensures DistinctItems(MergedItems(items))
    decreases items
  {
    if items.Item? {
      MergedIsDistinct(items.head);
      MergedItemsDistinct(items.tail);
    }
  }

  lemma {:induction false} MergedMembersDistinct(m: Members)
    ensures DistinctMembers(MergedMembers(m))
    decreases m
  {
    if m.Member? {
      MergedIsDistinct(m.value);
      MergedMembersDistinct(m.rest);
      var later := MergedMembers(m.rest);
      if HasKey(later, m.key) {
        WithoutDistinct(later, m.key);
        WithoutLacks(later, m.key, m.key);
        GetDistinct(later, m.key);
      }
    }
  }

  lemma {:induction false} DistinctIsMerged(v: Json)
    requires Distinct(v)
    ensures Merged(v) == v
    decreases v
  {
    if v.Arr? { DistinctItemsMerged(v.items); }
    if v.Obj? { DistinctMembersMerged(v.members); }
  }

  lemma {:induction false} DistinctItemsMerged(items: Items)
    requires DistinctItems(items)
    ensures MergedItems(items) == items
    decreases items
  {
    if items.Item? {
      DistinctIsMerged(items.head);
      DistinctItemsMerged(items.tail);
    }
  }

  lemma {:induction false} DistinctMembersMerged(m: Members)
    requires DistinctMembers(m)
    ensures MergedMembers(m) == m
    decreases m
  {
    if m.Member? {
      DistinctIsMerged(m.value);
      DistinctMembersMerged(m.rest);
    }
  }

  // ---------------------------------------------------------------- normal form

  function Pad(n: nat, width: nat): string
  {
    var d := Decimals.Decimal(n);
    Zeros(width - |d|) + d
  }

  function Zeros(count: int): string { if count <= 0 then "" else "0" + Zeros(count - 1) }

  /** datetime.isoformat in UTC with the offset written as Z: microseconds only when there are any. */
  function Iso(m: Moment): string {
    Pad(m.year, 4) + "-" + Pad(m.month, 2) + "-" + Pad(m.day, 2) + "T"
    + Pad(m.hour, 2) + ":" + Pad(m.minute, 2) + ":" + Pad(m.second, 2)
    + (if m.micro == 0 then "" else "." + Pad(m.micro, 6)) + "Z"
  }

  /** A string literal's characters, which are never surrogates. */
  function AsText(s: string): Text {
    if s == "" then [] else [s[0] as int] + AsText(s[1..])
  }

  /** sort_keys: inserts a member before the first key that is not below its own. */
  function InsertKey(k: Text, v: Json, m: Members): Members {
    if m.NoMembers? || !Less(m.key, k) then Member(k, v, m) else Member(m.key, m.value, InsertKey(k, v, m.rest))
  }

  /** The value as json.dumps sees it: stamps become strings, and members are sorted by key. */
  function Normal(v: Json): Json {
    match v
    case Stamp(moment) => Str(AsText(Iso(moment)))
    case Arr(items) => Arr(NormalItems(items))
    case Obj(members) => Obj(NormalMembers(members))
    case _ => v
  }

  function NormalItems(items: Items): Items {
    match items
    case NoItems => NoItems
    case Item(head, tail) => Item(Normal(head), NormalItems(tail))
  }

  function NormalMembers(m: Members): Members {
    match m
    case NoMembers => NoMembers
    case Member(key, value, rest) => InsertKey(key, Normal(value), NormalMembers(rest))
  }

  /** No stamps, and the members of every object strictly ascend by key. */
  predicate Ordered(v: Json) {
    match v
    case Stamp(_) => false
    case Arr(items) => OrderedItems(items)
    case Obj(members) => OrderedMembers(members)
    case _ => true
  }

  predicate OrderedItems(items: Items) {
    items.Item? ==> Ordered(items.head) && OrderedItems(items.tail)
  }

  predicate OrderedMembers(m: Members) {
    m.Member? ==> Ordered(m.value) && OrderedMembers(m.rest) && (m.rest.Member? ==> Less(m.key, m.rest.key))
  }

  lemma {:induction false} InsertHasKey(k: Text, v: Json, m: Members, j: Text)
    ensures HasKey(InsertKey(k, v, m), j) <==> j == k || HasKey(m, j)
  {
    if !(m.NoMembers? || !Less(m.key, k)) { InsertHasKey(k, v, m.rest, j); }
  }

  lemma {:induction false} InsertOrdered(k: Text, v: Json, m: Members)
    requires OrderedMembers(m) && Ordered(v) && !HasKey(m, k)
    ensures OrderedMembers(InsertKey(k, v, m))
  {
    if m.Member? {
      LessTotal(k, m.key);
      if Less(m.key, k) { InsertOrdered(k, v, m.rest); }
    }
  }

  lemma {:induction false} NormalHasKey(m: Members, j: Text)
    ensures HasKey(NormalMembers(m), j) <==> HasKey(m, j)
  {
    if m.Member? {
      NormalHasKey(m.rest, j);
      InsertHasKey(m.key, Normal(m.value), NormalMembers(m.rest), j);
    }
  }

  lemma {:induction false} NormalIsOrdered(v: Json)
    requires Distinct(v)
    ensures Ordered(Normal(v))
    decreases v
  {
    if v.Arr? { NormalItemsOrdered(v.items); }
    if v.Obj? { NormalMembersOrdered(v.members); }
  }

  lemma {:induction false} NormalItemsOrdered(items: Items)
    requires DistinctItems(items)
    ensures OrderedItems(NormalItems(items))
    decreases items
  {
    if items.Item? {
      NormalIsOrdered(items.head);
      NormalItemsOrdered(items.tail);
    }
  }

  lemma {:induction false} NormalMembersOrdered(m: Members)
    requires DistinctMembers(m)
    ensures OrderedMembers(NormalMembers(m))
    decreases m
  {
    if m.Member? {
      NormalIsOrdered(m.value);
      NormalMembersOrdered(m.rest);
      NormalHasKey(m.rest, m.key);
      InsertOrdered(m.key, Normal(m.value), NormalMembers(m.rest));
    }
  }

  lemma {:induction false} OrderedIsNormal(v: Json)
    requires Ordered(v)
    ensures Normal(v) == v
    decreases v
  {
    if v.Arr? { OrderedItemsNormal(v.items); }
    if v.Obj? { OrderedMembersNormal(v.members); }
  }

  lemma {:induction false} OrderedItemsNormal(items: Items)
    requires OrderedItems(items)
    ensures NormalItems(items) == items
    decreases items
  {
    if items.Item? {
      OrderedIsNormal(items.head);
      OrderedItemsNormal(items.tail);
    }
  }

  lemma {:induction false} OrderedMembersNormal(m: Members)
    requires OrderedMembers(m)
    ensures NormalMembers(m) == m
    decreases m
  {
    if m.Member? {
      OrderedIsNormal(m.value);
      OrderedMembersNormal(m.rest);
      if m.rest.Member? { LessTotal(m.key, m.rest.key); }
    }
  }

  lemma {:induction false} AboveLacks(m: Members, k: Text)
    requires OrderedMembers(m) && (m.Member? ==> Less(k, m.key))
    ensures !HasKey(m, k)
  {
    if m.Member? {
      LessTotal(k, m.key);
      if m.rest.Member? { LessTransitive(k, m.key, m.rest.key); }
      AboveLacks(m.rest, k);
    }
  }

  lemma {:induction false} OrderedIsDistinct(v: Json)
    requires Ordered(v)
    ensures Distinct(v)
    decreases v
  {
    if v.Arr? { OrderedItemsDistinct(v.items); }
    if v.Obj? { OrderedMembersDistinct(v.members); }
  }

  lemma {:induction false} OrderedItemsDistinct(items: Items)
    requires OrderedItems(items)
    ensures DistinctItems(items)
    decreases items
  {
    if items.Item? {
      OrderedIsDistinct(items.head);
      OrderedItemsDistinct(items.tail);
    }
  }

  lemma {:induction false} OrderedMembersDistinct(m: Members)
    requires OrderedMembers(m)
    ensures DistinctMembers(m)
    decreases m
  {
    if m.Member? {
      OrderedIsDistinct(m.value);
      OrderedMembersDistinct(m.rest);
      AboveLacks(m.rest, m.key);
    }
  }
}
