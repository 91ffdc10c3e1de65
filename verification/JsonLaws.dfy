/** When canonical JSON survives being read back and written again. */
module JsonLaws {
  import opened Options
  import opened JsonStrings
  import opened CanonicalJson
  import opened JsonText

  // ---------------------------------------------------------------- joining and printing

  lemma JoinedPairPrints(high: CodePoint, low: CodePoint)
    requires IsHigh(high) && IsLow(low)
    ensures Escape(Combine(high, low)) == Escape(high) + Escape(low)
  {
    SplitCombine(high, low);
    var c := Combine(high, low);
    assert Short(c) == [] && Short(high) == [] && Short(low) == [];
    assert Escape(high) == Unit(high) && Escape(low) == Unit(low);
  }

  lemma SplitCombine(high: CodePoint, low: CodePoint)
    requires IsHigh(high) && IsLow(low)
    ensures HighOf(Combine(high, low)) == high && LowOf(Combine(high, low)) == low
  {}

  lemma EscapeFirst(c: CodePoint, t: Text)
    ensures EscapeAll([c] + t) == Escape(c) + EscapeAll(t)
  {
    assert ([c] + t)[1..] == t;
  }

  lemma EscapePair(high: CodePoint, low: CodePoint, t: Text)
    requires IsHigh(high) && IsLow(low)
    ensures EscapeAll([high] + ([low] + t)) == EscapeAll([Combine(high, low)] + t)
  {
    EscapeFirst(high, [low] + t);
    EscapeFirst(low, t);
    EscapeFirst(Combine(high, low), t);
    JoinedPairPrints(high, low);
    Regroup(Escape(high), Escape(low), EscapeAll(t));
  }

  lemma Regroup(a: string, b: string, c: string)
    ensures a + (b + c) == a + b + c
  {}

  lemma {:induction false} EscapeJoined(t: Text)
    ensures EscapeAll(Joined(t)) == EscapeAll(t)
  {
    if |t| >= 2 && IsHigh(t[0]) && IsLow(t[1]) {
      EscapeJoined(t[2..]);
      EscapeFirst(Combine(t[0], t[1]), Joined(t[2..]));
      EscapeFirst(Combine(t[0], t[1]), t[2..]);
      EscapePair(t[0], t[1], t[2..]);
      assert t == [t[0]] + ([t[1]] + t[2..]);
    } else if t != [] {
      EscapeJoined(t[1..]);
      EscapeFirst(t[0], Joined(t[1..]));
      EscapeFirst(t[0], t[1..]);
      assert t == [t[0]] + t[1..];
    }
  }

  lemma {:induction false} JoinedPrints(v: Json)
    ensures Print(JoinedAll(v)) == Print(v)
    decreases v
  {
    if v.Str? { EscapeJoined(v.text); }
    if v.Arr? { JoinedItemsPrint(v.items); }
    if v.Obj? { JoinedMembersPrint(v.members); }
  }

  lemma {:induction false} JoinedItemsPrint(items: Items)
    ensures PrintItems(JoinedItems(items)) == PrintItems(items)
    decreases items
  {
    if items.Item? {
      JoinedPrints(items.head);
      JoinedItemsPrint(items.tail);
    }
  }

  lemma {:induction false} JoinedMembersPrint(m: Members)
    ensures PrintMembers(JoinedMembers(m)) == PrintMembers(m)
    decreases m
  {
    if m.Member? {
      EscapeJoined(m.key);
      JoinedPrints(m.value);
      JoinedMembersPrint(m.rest);
    }
  }

  // ---------------------------------------------------------------- values without spelled-out pairs

  /** No text in the value, key or string, spells out a surrogate pair; `keysOnly` asks it of the keys alone. */
  ghost predicate Whole(v: Json, keysOnly: bool) {
    match v
    case Str(text) => keysOnly || Unpaired(text)
    case Arr(items) => WholeItems(items, keysOnly)
    case Obj(members) => WholeMembers(members, keysOnly)
    case _ => true
  }

  ghost predicate WholeItems(items: Items, keysOnly: bool) {
    items.Item? ==> Whole(items.head, keysOnly) && WholeItems(items.tail, keysOnly)
  }

  ghost predicate WholeMembers(m: Members, keysOnly: bool) {
    m.Member? ==> Unpaired(m.key) && Whole(m.value, keysOnly) && WholeMembers(m.rest, keysOnly)
  }

  lemma {:induction false} JoinedUnpaired(t: Text)
    ensures Unpaired(Joined(t))
    ensures t != [] && !(|t| >= 2 && IsHigh(t[0]) && IsLow(t[1])) ==> Joined(t) != [] && Joined(t)[0] == t[0]
    ensures t != [] ==> Joined(t) != [] && (Joined(t)[0] == t[0] || Joined(t)[0] >= 0x10000)
  {
    if |t| >= 2 && IsHigh(t[0]) && IsLow(t[1]) {
      JoinedUnpaired(t[2..]);
      UnpairedFront(Combine(t[0], t[1]), Joined(t[2..]));
    } else if t != [] {
      JoinedUnpaired(t[1..]);
      UnpairedFront(t[0], Joined(t[1..]));
    }
  }

  lemma UnpairedFront(c: CodePoint, t: Text)
    requires Unpaired(t)
    requires t != [] ==> !(IsHigh(c) && IsLow(t[0]))
    ensures Unpaired([c] + t)
  {
    var u := [c] + t;
    forall i | 0 <= i < |u| - 1 ensures !PairAt(u, i) {
      if i > 0 { assert u[i] == t[i - 1] && u[i + 1] == t[i] && !PairAt(t, i - 1); }
    }
  }

  lemma {:induction false} JoinedIsWhole(v: Json)
    ensures Whole(JoinedAll(v), false)
    decreases v
  {
    if v.Str? { JoinedUnpaired(v.text); }
    if v.Arr? { JoinedItemsWhole(v.items); }
    if v.Obj? { JoinedMembersWhole(v.members); }
  }

  lemma {:induction false} JoinedItemsWhole(items: Items)
    ensures WholeItems(JoinedItems(items), false)
    decreases items
  {
    if items.Item? {
      JoinedIsWhole(items.head);
      JoinedItemsWhole(items.tail);
    }
  }

  lemma {:induction false} JoinedMembersWhole(m: Members)
    ensures WholeMembers(JoinedMembers(m), false)
    decreases m
  {
    if m.Member? {
      JoinedUnpaired(m.key);
      JoinedIsWhole(m.value);
      JoinedMembersWhole(m.rest);
    }
  }

  lemma {:induction false} WholeIsJoined(v: Json)
    requires Whole(v, false)
    ensures JoinedAll(v) == v
    decreases v
  {
    if v.Str? { JoinedIffUnpaired(v.text); }
    if v.Arr? { WholeItemsJoined(v.items); }
    if v.Obj? { WholeMembersJoined(v.members); }
  }

  lemma {:induction false} WholeItemsJoined(items: Items)
    requires WholeItems(items, false)
    ensures JoinedItems(items) == items
    decreases items
  {
    if items.Item? {
      WholeIsJoined(items.head);
      WholeItemsJoined(items.tail);
    }
  }

  lemma {:induction false} WholeMembersJoined(m: Members)
    requires WholeMembers(m, false)
    ensures JoinedMembers(m) == m
    decreases m
  {
    if m.Member? {
      JoinedIffUnpaired(m.key);
      WholeIsJoined(m.value);
      WholeMembersJoined(m.rest);
    }
  }

  lemma {:induction false} AsTextKeeps(s: string)
    ensures |AsText(s)| == |s| && forall i :: 0 <= i < |s| ==> AsText(s)[i] == s[i] as int
    ensures NoSurrogates(AsText(s))
  {
    if s != "" { AsTextKeeps(s[1..]); }
  }

  lemma AsTextInjective(a: string, b: string)
    requires AsText(a) == AsText(b)
    ensures a == b
  {
    AsTextKeeps(a);
    AsTextKeeps(b);
    forall i | 0 <= i < |a| ensures a[i] == b[i] {
      assert AsText(a)[i] == AsText(b)[i];
    }
  }

  lemma {:induction false} InsertWhole(k: Text, v: Json, m: Members, keysOnly: bool)
    requires Unpaired(k) && Whole(v, keysOnly) && WholeMembers(m, keysOnly)
    ensures WholeMembers(InsertKey(k, v, m), keysOnly)
  {
    if m.Member? && Less(m.key, k) { InsertWhole(k, v, m.rest, keysOnly); }
  }

  lemma {:induction false} NormalIsWhole(v: Json, keysOnly: bool)
    requires Whole(v, keysOnly)
    ensures Whole(Normal(v), keysOnly)
    decreases v
  {
    if v.Stamp? { AsTextKeeps(Iso(v.moment)); }
    if v.Arr? { NormalItemsWhole(v.items, keysOnly); }
    if v.Obj? { NormalMembersWhole(v.members, keysOnly); }
  }

  lemma {:induction false} NormalItemsWhole(items: Items, keysOnly: bool)
    requires WholeItems(items, keysOnly)
    ensures WholeItems(NormalItems(items), keysOnly)
    decreases items
  {
    if items.Item? {
      NormalIsWhole(items.head, keysOnly);
      NormalItemsWhole(items.tail, keysOnly);
    }
  }

  lemma {:induction false} NormalMembersWhole(m: Members, keysOnly: bool)
    requires WholeMembers(m, keysOnly)
    ensures WholeMembers(NormalMembers(m), keysOnly)
    decreases m
  {
    if m.Member? {
      NormalIsWhole(m.value, keysOnly);
      NormalMembersWhole(m.rest, keysOnly);
      InsertWhole(m.key, Normal(m.value), NormalMembers(m.rest), keysOnly);
    }
  }

  lemma {:induction false} GetWhole(m: Members, k: Text)
    requires WholeMembers(m, false) && HasKey(m, k)
    ensures Whole(Get(m, k), false)
  {
    if m.key != k { GetWhole(m.rest, k); }
  }

  lemma {:induction false} WithoutWhole(m: Members, k: Text)
    requires WholeMembers(m, false)
    ensures WholeMembers(Without(m, k), false)
  {
    if m.Member? { WithoutWhole(m.rest, k); }
  }

  lemma {:induction false} MergedIsWhole(v: Json)
    requires Whole(v, false)
    ensures Whole(Merged(v), false)
    decreases v
  {
    if v.Arr? { MergedItemsWhole(v.items); }
    if v.Obj? { MergedMembersWhole(v.members); }
  }

  lemma {:induction false} MergedItemsWhole(items: Items)
    requires WholeItems(items, false)
    ensures WholeItems(MergedItems(items), false)
    decreases items
  {
    if items.Item? {
      MergedIsWhole(items.head);
      MergedItemsWhole(items.tail);
    }
  }

  lemma {:induction false} MergedMembersWhole(m: Members)
    requires WholeMembers(m, false)
    ensures WholeMembers(MergedMembers(m), false)
    decreases m
  {
    if m.Member? {
      MergedIsWhole(m.value);
      MergedMembersWhole(m.rest);
      var later := MergedMembers(m.rest);
      if HasKey(later, m.key) {
        GetWhole(later, m.key);
        WithoutWhole(later, m.key);
      }
    }
  }

  lemma {:induction false} WholeKeysStayOrdered(v: Json)
    requires Ordered(v) && Whole(v, true)
    ensures Ordered(JoinedAll(v))
    decreases v
  {
    if v.Arr? { WholeItemsStayOrdered(v.items); }
    if v.Obj? { WholeMembersStayOrdered(v.members); }
  }

  lemma {:induction false} WholeItemsStayOrdered(items: Items)
    requires OrderedItems(items) && WholeItems(items, true)
    ensures OrderedItems(JoinedItems(items))
    decreases items
  {
    if items.Item? {
      WholeKeysStayOrdered(items.head);
      WholeItemsStayOrdered(items.tail);
    }
  }

  lemma {:induction false} WholeMembersStayOrdered(m: Members)
    requires OrderedMembers(m) && WholeMembers(m, true)
    ensures OrderedMembers(JoinedMembers(m))
    decreases m
  {
    if m.Member? {
      WholeKeysStayOrdered(m.value);
      WholeMembersStayOrdered(m.rest);
      JoinedIffUnpaired(m.key);
      if m.rest.Member? { JoinedIffUnpaired(m.rest.key); }
    }
  }

  // ---------------------------------------------------------------- values that are written alike

  /** The same but for strings, which are written with the same escapes. */
  ghost predicate Alike(v: Json, w: Json) {
    match v
    case Str(text) => w.Str? && EscapeAll(text) == EscapeAll(w.text)
    case Arr(items) => w.Arr? && AlikeItems(items, w.items)
    case Obj(members) => w.Obj? && AlikeMembers(members, w.members)
    case _ => v == w
  }

  ghost predicate AlikeItems(a: Items, b: Items) {
    if a.Item? then b.Item? && Alike(a.head, b.head) && AlikeItems(a.tail, b.tail) else b.NoItems?
  }

  ghost predicate AlikeMembers(m: Members, r: Members) {
    if m.Member? then r.Member? && m.key == r.key && Alike(m.value, r.value) && AlikeMembers(m.rest, r.rest) else r.NoMembers?
  }

  lemma {:induction false} AlikeItself(v: Json)
    ensures Alike(v, v)
    decreases v
  {
    if v.Arr? { ItemsAlikeThemselves(v.items); }
    if v.Obj? { MembersAlikeThemselves(v.members); }
  }

  lemma {:induction false} ItemsAlikeThemselves(items: Items)
    ensures AlikeItems(items, items)
    decreases items
  {
    if items.Item? {
      AlikeItself(items.head);
      ItemsAlikeThemselves(items.tail);
    }
  }

  lemma {:induction false} MembersAlikeThemselves(m: Members)
    ensures AlikeMembers(m, m)
    decreases m
  {
    if m.Member? {
      AlikeItself(m.value);
      MembersAlikeThemselves(m.rest);
    }
  }

  lemma {:induction false} InsertAlike(k: Text, v: Json, m: Members, w: Json, r: Members)
    requires Alike(v, w) && AlikeMembers(m, r)
    ensures AlikeMembers(InsertKey(k, v, m), InsertKey(k, w, r))
  {
    if m.Member? && Less(m.key, k) { InsertAlike(k, v, m.rest, w, r.rest); }
  }

  lemma {:induction false} NormalAlike(v: Json, w: Json)
    requires Alike(v, w)
    ensures Alike(Normal(v), Normal(w))
    decreases v
  {
    if v.Stamp? { AlikeItself(Normal(v)); }
    if v.Arr? { NormalItemsAlike(v.items, w.items); }
    if v.Obj? { NormalMembersAlike(v.members, w.members); }
  }

  lemma {:induction false} NormalItemsAlike(a: Items, b: Items)
    requires AlikeItems(a, b)
    ensures AlikeItems(NormalItems(a), NormalItems(b))
    decreases a
  {
    if a.Item? {
      NormalAlike(a.head, b.head);
      NormalItemsAlike(a.tail, b.tail);
    }
  }

  lemma {:induction false} NormalMembersAlike(m: Members, r: Members)
    requires AlikeMembers(m, r)
    ensures AlikeMembers(NormalMembers(m), NormalMembers(r))
    decreases m
  {
    if m.Member? {
      NormalAlike(m.value, r.value);
      NormalMembersAlike(m.rest, r.rest);
      InsertAlike(m.key, Normal(m.value), NormalMembers(m.rest), Normal(r.value), NormalMembers(r.rest));
    }
  }

  lemma {:induction false} PrintAlike(v: Json, w: Json)
    requires Alike(v, w)
    ensures Print(v) == Print(w)
    decreases v
  {
    if v.Arr? { PrintItemsAlike(v.items, w.items); }
    if v.Obj? { PrintMembersAlike(v.members, w.members); }
  }

  lemma {:induction false} PrintItemsAlike(a: Items, b: Items)
    requires AlikeItems(a, b)
    ensures PrintItems(a) == PrintItems(b)
    decreases a
  {
    if a.Item? {
      PrintAlike(a.head, b.head);
      PrintItemsAlike(a.tail, b.tail);
    }
  }

  lemma {:induction false} PrintMembersAlike(m: Members, r: Members)
    requires AlikeMembers(m, r)
    ensures PrintMembers(m) == PrintMembers(r)
    decreases m
  {
    if m.Member? {
      PrintAlike(m.value, r.value);
      PrintMembersAlike(m.rest, r.rest);
    }
  }

  /** Values that are written alike have the same canonical JSON. */
  lemma CanonicalAlike(v: Json, w: Json)
    requires Alike(v, w)
    ensures Canonical(v) == Canonical(w)
  {
    NormalAlike(v, w);
    PrintAlike(Normal(v), Normal(w));
  }

  /** With whole keys, joining surrogate pairs does not show in what is written. */
  lemma {:induction false} JoinedAlike(v: Json)
    requires Whole(v, true)
    ensures Alike(v, JoinedAll(v))
    decreases v
  {
    if v.Str? { EscapeJoined(v.text); }
    if v.Arr? { JoinedItemsAlike(v.items); }
    if v.Obj? { JoinedMembersAlike(v.members); }
  }

  lemma {:induction false} JoinedItemsAlike(items: Items)
    requires WholeItems(items, true)
    ensures AlikeItems(items, JoinedItems(items))
    decreases items
  {
    if items.Item? {
      JoinedAlike(items.head);
      JoinedItemsAlike(items.tail);
    }
  }

  lemma {:induction false} JoinedMembersAlike(m: Members)
    requires WholeMembers(m, true)
    ensures AlikeMembers(m, JoinedMembers(m))
    decreases m
  {
    if m.Member? {
      JoinedIffUnpaired(m.key);
      JoinedAlike(m.value);
      JoinedMembersAlike(m.rest);
    }
  }

  lemma {:induction false} JoinedHasKey(m: Members, k: Text)
    requires WholeMembers(m, true)
    ensures HasKey(JoinedMembers(m), k) == HasKey(m, k)
  {
    if m.Member? {
      JoinedIffUnpaired(m.key);
      JoinedHasKey(m.rest, k);
    }
  }

  lemma {:induction false} JoinedDistinct(v: Json)
    requires Distinct(v) && Whole(v, true)
    ensures Distinct(JoinedAll(v))
    decreases v
  {
    if v.Arr? { JoinedItemsDistinct(v.items); }
    if v.Obj? { JoinedMembersDistinct(v.members); }
  }

  lemma {:induction false} JoinedItemsDistinct(items: Items)
    requires DistinctItems(items) && WholeItems(items, true)
    ensures DistinctItems(JoinedItems(items))
    decreases items
  {
    if items.Item? {
      JoinedDistinct(items.head);
      JoinedItemsDistinct(items.tail);
    }
  }

  lemma {:induction false} JoinedMembersDistinct(m: Members)
    requires DistinctMembers(m) && WholeMembers(m, true)
    ensures DistinctMembers(JoinedMembers(m))
    decreases m
  {
    if m.Member? {
      JoinedIffUnpaired(m.key);
      JoinedHasKey(m.rest, m.key);
      JoinedDistinct(m.value);
      JoinedMembersDistinct(m.rest);
    }
  }

  // ---------------------------------------------------------------- the laws

  /** Without spelled-out pairs, reading canonical JSON gives exactly the normal form. */
  lemma LoadsWhole(v: Json)
    requires Distinct(v) && Whole(v, false)
    ensures Loads(Canonical(v)) == Some(Normal(v))
  {
    LoadsCanonical(v);
    NormalIsWhole(v, false);
    WholeIsJoined(Normal(v));
    NormalIsOrdered(v);
    OrderedIsDistinct(Normal(v));
    DistinctIsMerged(Normal(v));
  }

  /** Two printed values agree only when they read back alike. */
  lemma PrintInjective(v: Json, w: Json)
    requires Plain(v) && Plain(w) && Print(v) == Print(w)
    ensures JoinedAll(v) == JoinedAll(w)
  {
    ReadPrinted(v, "");
    ReadPrinted(w, "");
    assert Print(v) + "" == Print(w) + "";
  }

  /**
   Reading canonical JSON and writing it again gives the same bytes exactly when, in every object,
   the sorted keys still strictly ascend once spelled-out surrogate pairs are joined.
   */
  lemma CanonicalReparse(v: Json)
    requires Distinct(v)
    ensures Loads(Canonical(v)).Some?
    ensures Canonical(Loads(Canonical(v)).value) == Canonical(v) <==> Ordered(JoinedAll(Normal(v)))
  {
    var n := Normal(v);
    var j := JoinedAll(n);
    var p := Merged(j);
    LoadsCanonical(v);
    JoinedPrints(n);
    if Ordered(j) {
      OrderedIsDistinct(j);
      DistinctIsMerged(j);
      OrderedIsNormal(j);
    }
    MergedIsDistinct(j);
    NormalIsOrdered(p);
    JoinedIsWhole(n);
    MergedIsWhole(j);
    NormalIsWhole(p, false);
    WholeIsJoined(Normal(p));
    NormalIsPlain(v);
    NormalIsPlain(p);
    if Print(Normal(p)) == Print(n) { PrintInjective(Normal(p), n); }
  }

  /** Canonical JSON is a fixed point for every value whose keys spell out no surrogate pair, whatever its strings and stamps. */
  lemma CanonicalFixedPoint(v: Json)
    requires Distinct(v) && Whole(v, true)
    ensures Loads(Canonical(v)).Some? && Canonical(Loads(Canonical(v)).value) == Canonical(v)
  {
    CanonicalReparse(v);
    NormalIsOrdered(v);
    NormalIsWhole(v, true);
    WholeKeysStayOrdered(Normal(v));
  }

  const SpelledKey: Text := [0xD83D, 0xDE00]

  /** A key with a spelled-out pair sorts before U+FFFF, and after it once joined. */
  lemma SpelledKeysBreakIt()
    ensures var v := Obj(Member(SpelledKey, Null, Member([0xFFFF], Null, NoMembers)));
            Distinct(v) && Loads(Canonical(v)).Some? && Canonical(Loads(Canonical(v)).value) != Canonical(v)
  {
    var inner := Member([0xFFFF], Null, NoMembers);
    var v := Obj(Member(SpelledKey, Null, inner));
    CanonicalReparse(v);
    OrderedIsNormal(v);
    JoinedSpelled();
  }

  lemma JoinedSpelled()
    ensures Joined(SpelledKey) == [0x1F600] && Joined([0xFFFF]) == [0xFFFF]
  {
    assert SpelledKey[2..] == [];
  }

  // ---------------------------------------------------------------- dictionaries and normal forms

  /** Two dictionaries hold the same keys, with values that have the same normal form. */
  ghost predicate SameContents(a: Members, b: Members) {
    forall k :: HasKey(a, k) == HasKey(b, k) && (HasKey(a, k) && HasKey(b, k) ==> Normal(Get(a, k)) == Normal(Get(b, k)))
  }

  lemma {:induction false} InsertGet(k: Text, v: Json, m: Members, j: Text)
    requires !HasKey(m, k) && (j == k || HasKey(m, j))
    ensures HasKey(InsertKey(k, v, m), j) && Get(InsertKey(k, v, m), j) == if j == k then v else Get(m, j)
  {
    if m.Member? && Less(m.key, k) && m.key != j { InsertGet(k, v, m.rest, j); }
  }

  lemma {:induction false} NormalGet(m: Members, j: Text)
    requires DistinctMembers(m) && HasKey(m, j)
    ensures HasKey(NormalMembers(m), j) && Get(NormalMembers(m), j) == Normal(Get(m, j))
  {
    NormalHasKey(m.rest, m.key);
    if m.key != j { NormalGet(m.rest, j); }
    InsertGet(m.key, Normal(m.value), NormalMembers(m.rest), j);
  }

  lemma {:induction false} OrderedKeysAbove(m: Members, k: Text)
    requires OrderedMembers(m) && HasKey(m, k)
    ensures k == m.key || Less(m.key, k)
  {
    if k != m.key {
      OrderedKeysAbove(m.rest, k);
      if k != m.rest.key { LessTransitive(m.key, m.rest.key, k); }
    }
  }

  ghost predicate SameLookups(a: Members, b: Members) {
    forall k :: HasKey(a, k) == HasKey(b, k) && (HasKey(a, k) && HasKey(b, k) ==> Get(a, k) == Get(b, k))
  }

  lemma {:induction false} OrderedDetermined(a: Members, b: Members)
    requires OrderedMembers(a) && OrderedMembers(b) && SameLookups(a, b)
    ensures a == b
  {
    if a.NoMembers? {
      if b.Member? { assert HasKey(b, b.key); }
    } else {
      assert HasKey(a, a.key);
      assert HasKey(b, b.key);
      OrderedKeysAbove(b, a.key);
      OrderedKeysAbove(a, b.key);
      LessTotal(a.key, b.key);
      assert Get(a, a.key) == Get(b, a.key);
      OrderedMembersDistinct(a);
      OrderedMembersDistinct(b);
      forall k ensures HasKey(a.rest, k) == HasKey(b.rest, k) && (HasKey(a.rest, k) && HasKey(b.rest, k) ==> Get(a.rest, k) == Get(b.rest, k)) {
        assert HasKey(a, k) == HasKey(b, k);
      }
      OrderedDetermined(a.rest, b.rest);
    }
  }

  /** The order in which a dictionary was filled does not show in its canonical JSON. */
  lemma FillingOrderIrrelevant(a: Members, b: Members)
    requires DistinctMembers(a) && DistinctMembers(b) && SameContents(a, b)
    ensures Canonical(Obj(a)) == Canonical(Obj(b))
  {
    NormalMembersOrdered(a);
    NormalMembersOrdered(b);
    forall k ensures HasKey(NormalMembers(a), k) == HasKey(NormalMembers(b), k)
      && (HasKey(NormalMembers(a), k) && HasKey(NormalMembers(b), k) ==> Get(NormalMembers(a), k) == Get(NormalMembers(b), k))
    {
      NormalHasKey(a, k);
      NormalHasKey(b, k);
      if HasKey(a, k) {
        NormalGet(a, k);
        NormalGet(b, k);
      }
    }
    OrderedDetermined(NormalMembers(a), NormalMembers(b));
  }

  /** Without spelled-out pairs, equal canonical JSON means equal normal forms. */
  lemma CanonicalInjective(v: Json, w: Json)
    requires Distinct(v) && Whole(v, false) && Distinct(w) && Whole(w, false)
    ensures Canonical(v) == Canonical(w) <==> Normal(v) == Normal(w)
  {
    LoadsWhole(v);
    LoadsWhole(w);
  }

  /** Writing a value's normal form gives the same text as writing the value. */
  lemma CanonicalNormal(v: Json)
    requires Distinct(v)
    ensures Canonical(Normal(v)) == Canonical(v)
  {
    NormalIsOrdered(v);
    OrderedIsNormal(Normal(v));
  }
}
