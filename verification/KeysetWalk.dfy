/**
 The PostgreSQL connector's scan, page by page, over a catalog that may change between pages. A page
 asks for the tables beyond the cursor, in order, and one row more than it returns.
 */
module KeysetWalk {
  import opened Options
  import opened JsonStrings
  import opened CanonicalJson
  import opened PostgresCursor

  datatype Name = Name(schema: Text, table: Text)

  /** The order of ORDER BY table_schema, table_name, and of the keyset comparison. */
  predicate Before(a: Name, b: Name) {
    Less(a.schema, b.schema) || (a.schema == b.schema && Less(a.table, b.table))
  }

  lemma BeforeTotal(a: Name, b: Name)
    ensures a == b || Before(a, b) || Before(b, a)
    ensures !(Before(a, b) && Before(b, a)) && !Before(a, a)
  {
    LessTotal(a.schema, b.schema);
    LessTotal(a.table, b.table);
    LessTotal(a.table, a.table);
    LessTotal(a.schema, a.schema);
  }

  lemma BeforeTransitive(a: Name, b: Name, c: Name)
    requires Before(a, b) && Before(b, c)
    ensures Before(a, c)
  {
    if Less(a.schema, b.schema) && Less(b.schema, c.schema) { LessTransitive(a.schema, b.schema, c.schema); }
    if Less(a.table, b.table) && Less(b.table, c.table) { LessTransitive(a.table, b.table, c.table); }
  }

  ghost predicate Ascending(names: seq<Name>) {
    forall i, j :: 0 <= i < j < |names| ==> Before(names[i], names[j])
  }

  /** A table PostgreSQL can hold: names of at most 63 characters without surrogates, and a named schema. */
  ghost predicate Possible(n: Name) {
    && 0 < |n.schema| <= MAX_NAME && |n.table| <= MAX_NAME
    && Unpaired(n.schema) && Unpaired(n.table)
  }

  /** The user tables at one moment, in order. */
  ghost predicate IsCatalog(names: seq<Name>) {
    Ascending(names) && forall i :: 0 <= i < |names| ==> Possible(names[i])
  }

  // ---------------------------------------------------------------- one page

  /** The WHERE clause; an empty cursor schema means the start, an empty filter every schema. */
  predicate Selects(at: Name, filter: set<Text>, n: Name) {
    (at.schema == [] || Before(at, n)) && (filter == {} || n.schema in filter)
  }

  /** The first page starts with the first table; later ones beyond the table they are given; and a filter leaves its schemas. */
  lemma SelectsExactlyWhen(at: Name, filter: set<Text>, n: Name)
    ensures at.schema == [] && filter == {} ==> Selects(at, filter, n)
    ensures at.schema != [] && filter == {} ==> (Selects(at, filter, n) <==> Before(at, n))
    ensures filter != {} ==> (Selects(at, filter, n) <==> Selects(at, {}, n) && n.schema in filter)
  {}

  function Matching(names: seq<Name>, at: Name, filter: set<Text>): seq<Name> {
    if names == [] then []
    else (if Selects(at, filter, names[0]) then [names[0]] else []) + Matching(names[1..], at, filter)
  }

  function Take(names: seq<Name>, limit: nat): seq<Name> { if |names| <= limit then names else names[..limit] }

  datatype Batch = Batch(records: seq<Name>, next: Option<string>, complete: bool) | InvalidScan

  function Scan(names: seq<Name>, filter: set<Text>, cursor: Option<string>, maxItems: int): Batch {
    if !(1 <= maxItems <= 5000) then InvalidScan else
      match DecodeCursor(cursor)
      case InvalidCursor => InvalidScan
      case Position(schema, table) =>
        var rows := Take(Matching(names, Name(schema, table), filter), maxItems + 1);
        var complete := |rows| <= maxItems;
        var selected := Take(rows, maxItems);
        Batch(selected, if complete || selected == [] then None else
                          var last := selected[|selected| - 1]; Some(EncodeCursor(last.schema, last.table)), complete)
  }

  // ---------------------------------------------------------------- what one page holds

  lemma {:induction false} MatchingMembers(names: seq<Name>, at: Name, filter: set<Text>, n: Name)
    ensures n in Matching(names, at, filter) <==> n in names && Selects(at, filter, n)
  {
    if names != [] {
      MatchingMembers(names[1..], at, filter, n);
      assert names == [names[0]] + names[1..];
    }
  }

  lemma {:induction false} MatchingAscends(names: seq<Name>, at: Name, filter: set<Text>)
    requires Ascending(names)
    ensures Ascending(Matching(names, at, filter))
  {
    if names != [] {
      var rest := Matching(names[1..], at, filter);
      MatchingAscends(names[1..], at, filter);
      forall i | 0 <= i < |rest| ensures Before(names[0], rest[i]) {
        MatchingMembers(names[1..], at, filter, rest[i]);
        var k :| 0 <= k < |names[1..]| && names[1..][k] == rest[i];
        assert names[k + 1] == rest[i];
      }
    }
  }

  ghost predicate PageOf(names: seq<Name>, filter: set<Text>, at: Name, maxItems: nat, b: Batch) {
    && b.Batch?
    && Ascending(b.records)
    && (forall n :: n in b.records ==> n in names && Selects(at, filter, n))
    && (b.complete ==> forall n :: n in names && Selects(at, filter, n) ==> n in b.records)
    && (!b.complete ==> |b.records| == maxItems)
    && (!b.complete && maxItems >= 1 ==>
          forall n :: n in names && Selects(at, filter, n) && n !in b.records ==> Before(b.records[maxItems - 1], n))
  }

  lemma PageHolds(names: seq<Name>, at: Name, filter: set<Text>, maxItems: nat, b: Batch)
    requires Ascending(names) && maxItems >= 1
    requires b.Batch? && b.records == Take(Matching(names, at, filter), maxItems)
    requires b.complete == (|Matching(names, at, filter)| <= maxItems)
    ensures PageOf(names, filter, at, maxItems, b)
  {
    var all := Matching(names, at, filter);
    MatchingAscends(names, at, filter);
    forall n ensures n in all <==> n in names && Selects(at, filter, n) {
      MatchingMembers(names, at, filter, n);
    }
    forall n | n in all && n !in b.records ensures !b.complete && Before(all[maxItems - 1], n) {
      var k :| 0 <= k < |all| && all[k] == n;
      assert forall j :: 0 <= j < |b.records| ==> all[j] == b.records[j];
    }
  }

  /** A scan's page, and the cursor it hands on: it reads back as the page's last table. */
  lemma ScanIsPage(names: seq<Name>, filter: set<Text>, cursor: Option<string>, at: Name, maxItems: int)
    requires IsCatalog(names) && 1 <= maxItems <= 5000 && DecodeCursor(cursor) == Position(at.schema, at.table)
    ensures var b := Scan(names, filter, cursor, maxItems);
            && PageOf(names, filter, at, maxItems, b)
            && (b.complete ==> b.next == None)
            && (!b.complete ==>
                  var last := b.records[maxItems - 1];
                  Possible(last) && DecodeCursor(b.next) == Position(last.schema, last.table))
  {
    var b := Scan(names, filter, cursor, maxItems);
    var all := Matching(names, at, filter);
    assert Take(Take(all, maxItems + 1), maxItems) == Take(all, maxItems);
    PageHolds(names, at, filter, maxItems, b);
    if !b.complete {
      var last := b.records[maxItems - 1];
      assert last in b.records;
      CursorRoundTrip(last.schema, last.table);
    }
  }

  // ---------------------------------------------------------------- a whole walk

  /** The tables a walk hands out that follows next_cursor over these catalogs and completes on the last. */
  function Walk(catalogs: seq<seq<Name>>, filter: set<Text>, cursor: Option<string>, maxItems: int): Option<seq<Name>> {
    if catalogs == [] then None else
      var b := Scan(catalogs[0], filter, cursor, maxItems);
      if b.InvalidScan? then None
      else if b.complete then (if |catalogs| == 1 then Some(b.records) else None)
      else
        match Walk(catalogs[1..], filter, b.next, maxItems)
        case None => None
        case Some(later) => Some(b.records + later)
  }

  lemma AscendingJoin(a: seq<Name>, b: seq<Name>)
    requires Ascending(a) && Ascending(b) && a != []
    requires forall n :: n in b ==> Before(a[|a| - 1], n)
    ensures Ascending(a + b)
  {
    var c := a + b;
    forall i, j | 0 <= i < j < |c| ensures Before(c[i], c[j]) {
      if i < |a| <= j {
        assert c[j] == b[j - |a|] && b[j - |a|] in b;
        if i < |a| - 1 { BeforeTransitive(a[i], a[|a| - 1], c[j]); }
      }
    }
  }

  /** What is beyond the cursor and beyond the page, when a page is not the last. */
  lemma BeyondPage(names: seq<Name>, filter: set<Text>, at: Name, maxItems: nat, b: Batch, n: Name)
    requires PageOf(names, filter, at, maxItems, b) && !b.complete && maxItems >= 1
    requires b.records[maxItems - 1].schema != []
    ensures n in names && Selects(at, filter, n) && n !in b.records ==> Selects(b.records[maxItems - 1], filter, n)
    ensures Selects(b.records[maxItems - 1], filter, n) ==> Selects(at, filter, n) && Before(b.records[maxItems - 1], n)
  {
    var last := b.records[maxItems - 1];
    assert last in b.records;
    assert Selects(at, filter, last);
    if at.schema != [] && Before(last, n) { BeforeTransitive(at, last, n); }
  }

  ghost predicate Within(catalogs: seq<seq<Name>>, n: Name) { exists i :: 0 <= i < |catalogs| && n in catalogs[i] }

  ghost predicate Throughout(catalogs: seq<seq<Name>>, n: Name) { forall i :: 0 <= i < |catalogs| ==> n in catalogs[i] }

  /**
   The pages of a complete walk, put together, strictly ascend, so no table comes twice; they hold only
   tables that existed at some page and lie beyond the cursor, and every such table that existed throughout.
   */
  lemma {:induction false} WalkCovers(catalogs: seq<seq<Name>>, filter: set<Text>, cursor: Option<string>, at: Name, maxItems: int, all: seq<Name>)
    requires forall i :: 0 <= i < |catalogs| ==> IsCatalog(catalogs[i])
    requires DecodeCursor(cursor) == Position(at.schema, at.table)
    requires Walk(catalogs, filter, cursor, maxItems) == Some(all)
    ensures Ascending(all)
    ensures forall n :: n in all ==> Within(catalogs, n) && Selects(at, filter, n)
    ensures forall n :: Throughout(catalogs, n) && Selects(at, filter, n) ==> n in all
    decreases |catalogs|
  {
    var b := Scan(catalogs[0], filter, cursor, maxItems);
    ScanIsPage(catalogs[0], filter, cursor, at, maxItems);
    forall n | n in catalogs[0] ensures Within(catalogs, n) {}
    if !b.complete {
      var last := b.records[maxItems - 1];
      var later := Walk(catalogs[1..], filter, b.next, maxItems).value;
      WalkCovers(catalogs[1..], filter, b.next, last, maxItems, later);
      forall n ensures (Throughout(catalogs, n) ==> Throughout(catalogs[1..], n) && n in catalogs[0])
        && (Within(catalogs[1..], n) ==> Within(catalogs, n))
      {
        TailCatalogs(catalogs, n);
      }
      PageThenRest(catalogs[0], filter, at, maxItems, b, later);
    }
  }

  lemma TailCatalogs(catalogs: seq<seq<Name>>, n: Name)
    requires catalogs != []
    ensures Throughout(catalogs, n) ==> Throughout(catalogs[1..], n) && n in catalogs[0]
    ensures Within(catalogs[1..], n) ==> Within(catalogs, n)
  {
    assert forall i :: 0 <= i < |catalogs[1..]| ==> catalogs[1..][i] == catalogs[i + 1];
  }

  /** A page followed by what lies beyond its last table. */
  lemma PageThenRest(names: seq<Name>, filter: set<Text>, at: Name, maxItems: nat, b: Batch, later: seq<Name>)
    requires PageOf(names, filter, at, maxItems, b) && !b.complete && maxItems >= 1
    requires b.records[maxItems - 1].schema != []
    requires Ascending(later) && forall n :: n in later ==> Selects(b.records[maxItems - 1], filter, n)
    ensures Ascending(b.records + later)
    ensures forall n :: n in b.records + later ==> Selects(at, filter, n)
    ensures forall n :: n in names && Selects(at, filter, n) ==> n in b.records || Selects(b.records[maxItems - 1], filter, n)
  {
    forall n ensures (n in names && Selects(at, filter, n) && n !in b.records ==> Selects(b.records[maxItems - 1], filter, n))
      && (Selects(b.records[maxItems - 1], filter, n) ==> Selects(at, filter, n) && Before(b.records[maxItems - 1], n))
    {
      BeyondPage(names, filter, at, maxItems, b, n);
    }
    AscendingJoin(b.records, later);
  }

  /** A full walk starts without a cursor and holds every table of the filter that existed throughout, once. */
  lemma FullWalk(catalogs: seq<seq<Name>>, filter: set<Text>, maxItems: int, all: seq<Name>)
    requires forall i :: 0 <= i < |catalogs| ==> IsCatalog(catalogs[i])
    requires Walk(catalogs, filter, None, maxItems) == Some(all)
    ensures Ascending(all) && forall i, j :: 0 <= i < j < |all| ==> all[i] != all[j]
    ensures forall n :: Throughout(catalogs, n) && (filter == {} || n.schema in filter) ==> n in all
    ensures forall n :: n in all ==> Within(catalogs, n) && (filter == {} || n.schema in filter)
  {
    WalkCovers(catalogs, filter, None, Name([], []), maxItems, all);
    forall i, j | 0 <= i < j < |all| ensures all[i] != all[j] {
      BeforeTotal(all[i], all[j]);
    }
  }

  // ---------------------------------------------------------------- a catalog that does not change

  lemma {:induction false} AscendingSame(a: seq<Name>, b: seq<Name>)
    requires Ascending(a) && Ascending(b) && forall n :: n in a <==> n in b
    ensures a == b
  {
    assert |b| > 0 ==> b[0] in a;
    if a != [] {
      assert a[0] in b;
      var j :| 0 <= j < |b| && b[j] == a[0];
      assert b[0] in a;
      var i :| 0 <= i < |a| && a[i] == b[0];
      BeforeTotal(a[0], b[0]);
      assert i == 0 && j == 0;
      forall n ensures n in a[1..] <==> n in b[1..] {
        SameTail(a, b, n);
        SameTail(b, a, n);
      }
      AscendingSame(a[1..], b[1..]);
    }
  }

  lemma SameTail(a: seq<Name>, b: seq<Name>, n: Name)
    requires a != [] && b != [] && a[0] == b[0] && Ascending(a) && forall m :: m in a ==> m in b
    ensures n in a[1..] ==> n in b[1..]
  {
    if n in a[1..] {
      var k :| 1 <= k < |a| && a[k] == n;
      BeforeTotal(a[0], n);
      assert n in b;
      var j :| 0 <= j < |b| && b[j] == n;
      assert b[1..][j - 1] == n;
    }
  }

  /** Beyond a page's last table lies what the page left out. */
  lemma RestOfMatching(names: seq<Name>, filter: set<Text>, at: Name, maxItems: nat)
    requires IsCatalog(names) && 1 <= maxItems < |Matching(names, at, filter)|
    ensures var all := Matching(names, at, filter); Matching(names, all[maxItems - 1], filter) == all[maxItems..]
  {
    var all := Matching(names, at, filter);
    var last := all[maxItems - 1];
    MatchingAscends(names, at, filter);
    MatchingAscends(names, last, filter);
    assert last in all;
    MatchingMembers(names, at, filter, last);
    forall n ensures n in Matching(names, last, filter) <==> n in all[maxItems..] {
      MatchingMembers(names, last, filter, n);
      MatchingMembers(names, at, filter, n);
      AfterPosition(all, maxItems, n);
      BeyondLast(names, filter, at, last, n);
    }
    AscendingSame(Matching(names, last, filter), all[maxItems..]);
  }

  /** In an ascending list, what comes after a position is what is after its table. */
  lemma AfterPosition(all: seq<Name>, k: nat, n: Name)
    requires Ascending(all) && 1 <= k <= |all|
    ensures n in all[k..] <==> n in all && Before(all[k - 1], n)
  {
    if n in all[k..] {
      var i :| k <= i < |all| && all[i] == n;
    }
    if n in all && Before(all[k - 1], n) {
      var i :| 0 <= i < |all| && all[i] == n;
      BeforeTotal(all[k - 1], n);
      assert i >= k;
      assert all[k..][i - k] == n;
    }
  }

  lemma BeyondLast(names: seq<Name>, filter: set<Text>, at: Name, last: Name, n: Name)
    requires Selects(at, filter, last) && last.schema != []
    ensures Selects(last, filter, n) <==> Selects(at, filter, n) && Before(last, n)
  {
    if at.schema != [] && Before(last, n) { BeforeTransitive(at, last, n); }
  }

  function Same(names: seq<Name>, pages: nat): (r: seq<seq<Name>>)
    ensures |r| == pages && forall i :: 0 <= i < pages ==> r[i] == names
  {
    if pages == 0 then [] else [names] + Same(names, pages - 1)
  }

  /** How many pages a list of this length fills; an empty list still takes one. */
  function PageCount(length: nat, maxItems: nat): nat
    requires maxItems >= 1
  {
    if length <= maxItems then 1 else 1 + PageCount(length - maxItems, maxItems)
  }

  /** What a page holds of the tables beyond the cursor, and where it leads. */
  lemma SteadyPage(names: seq<Name>, filter: set<Text>, cursor: Option<string>, at: Name, maxItems: int)
    requires IsCatalog(names) && 1 <= maxItems <= 5000 && DecodeCursor(cursor) == Position(at.schema, at.table)
    ensures var b := Scan(names, filter, cursor, maxItems); var all := Matching(names, at, filter);
      && b.Batch? && (b.complete <==> |all| <= maxItems) && b.records == Take(all, maxItems)
      && (!b.complete ==> DecodeCursor(b.next) == Position(all[maxItems - 1].schema, all[maxItems - 1].table))
  {
    ScanIsPage(names, filter, cursor, at, maxItems);
    assert Take(Take(Matching(names, at, filter), maxItems + 1), maxItems) == Take(Matching(names, at, filter), maxItems);
  }

  lemma WalkStep(names: seq<Name>, pages: nat, filter: set<Text>, cursor: Option<string>, maxItems: int, later: seq<Name>)
    requires Scan(names, filter, cursor, maxItems).Batch? && !Scan(names, filter, cursor, maxItems).complete
    requires Walk(Same(names, pages), filter, Scan(names, filter, cursor, maxItems).next, maxItems) == Some(later)
    ensures Walk(Same(names, pages + 1), filter, cursor, maxItems) == Some(Scan(names, filter, cursor, maxItems).records + later)
  {
    assert Same(names, pages + 1)[1..] == Same(names, pages);
  }

  lemma LastStep(names: seq<Name>, filter: set<Text>, cursor: Option<string>, maxItems: int)
    requires Scan(names, filter, cursor, maxItems).Batch? && Scan(names, filter, cursor, maxItems).complete
    ensures Walk(Same(names, 1), filter, cursor, maxItems) == Some(Scan(names, filter, cursor, maxItems).records)
  {
    assert Same(names, 1) == [names];
  }

  /** A walk over one unchanging catalog takes this many pages and hands out these tables. */
  ghost predicate Completes(names: seq<Name>, filter: set<Text>, cursor: Option<string>, maxItems: int, all: seq<Name>) {
    maxItems >= 1 && Walk(Same(names, PageCount(|all|, maxItems)), filter, cursor, maxItems) == Some(all)
  }

  lemma CompletesIn(names: seq<Name>, filter: set<Text>, cursor: Option<string>, maxItems: int, all: seq<Name>, pages: nat)
    requires maxItems >= 1 && pages == PageCount(|all|, maxItems)
    requires Walk(Same(names, pages), filter, cursor, maxItems) == Some(all)
    ensures Completes(names, filter, cursor, maxItems, all)
  {}

  lemma PageThenCompletes(names: seq<Name>, filter: set<Text>, cursor: Option<string>, maxItems: int, all: seq<Name>)
    requires 1 <= maxItems < |all|
    requires Scan(names, filter, cursor, maxItems).Batch? && !Scan(names, filter, cursor, maxItems).complete
    requires Scan(names, filter, cursor, maxItems).records == all[..maxItems]
    requires Completes(names, filter, Scan(names, filter, cursor, maxItems).next, maxItems, all[maxItems..])
    ensures Completes(names, filter, cursor, maxItems, all)
  {
    var pages := PageCount(|all| - maxItems, maxItems);
    WalkStep(names, pages, filter, cursor, maxItems, all[maxItems..]);
    assert all[..maxItems] + all[maxItems..] == all;
    CompletesIn(names, filter, cursor, maxItems, all, pages + 1);
  }

  lemma OnePageCompletes(names: seq<Name>, filter: set<Text>, cursor: Option<string>, maxItems: int, all: seq<Name>)
    requires |all| <= maxItems && maxItems >= 1
    requires Scan(names, filter, cursor, maxItems).Batch? && Scan(names, filter, cursor, maxItems).complete
    requires Scan(names, filter, cursor, maxItems).records == all
    ensures Completes(names, filter, cursor, maxItems, all)
  {
    LastStep(names, filter, cursor, maxItems);
  }

  /** While the catalog stays as it is, a walk completes after as many pages as its tables fill, and hands out exactly those tables. */
  lemma {:induction false} SteadyWalkCompletes(names: seq<Name>, filter: set<Text>, cursor: Option<string>, at: Name, maxItems: int)
    requires IsCatalog(names) && 1 <= maxItems <= 5000 && DecodeCursor(cursor) == Position(at.schema, at.table)
    ensures Completes(names, filter, cursor, maxItems, Matching(names, at, filter))
    decreases |Matching(names, at, filter)|
  {
    var all := Matching(names, at, filter);
    SteadyPage(names, filter, cursor, at, maxItems);
    if |all| > maxItems {
      RestOfMatching(names, filter, at, maxItems);
      SteadyWalkCompletes(names, filter, Scan(names, filter, cursor, maxItems).next, all[maxItems - 1], maxItems);
      PageThenCompletes(names, filter, cursor, maxItems, all);
    } else {
      OnePageCompletes(names, filter, cursor, maxItems, all);
    }
  }
}
