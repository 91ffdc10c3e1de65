/** Enumeration of the simple paths between two nodes, shortest first. */
module GraphPaths {
  import opened Graph

  const FAN_OUT: nat := 1000

  type Path = seq<Edge>

  /** The node a path ends at, taking every edge to its other end. */
  function End(source: Node, path: Path): Node {
    if path == [] then source else OtherEnd(path[|path| - 1], End(source, path[..|path| - 1]))
  }

  function NodesOf(source: Node, path: Path): seq<Node> {
    if path == [] then [source] else NodesOf(source, path[..|path| - 1]) + [End(source, path)]
  }

  /** A path that never comes back to a node it has visited. */
  ghost predicate Open(table: seq<Edge>, direction: Direction, source: Node, path: Path) {
    path == [] ||
    var prefix, e := path[..|path| - 1], path[|path| - 1];
    && Open(table, direction, source, prefix)
    && e in table && Leaves(e, End(source, prefix), direction)
    && End(source, path) !in NodesOf(source, prefix)
  }

  ghost predicate Goal(table: seq<Edge>, direction: Direction, source: Node, target: Node, path: Path) {
    path != [] && Open(table, direction, source, path) && End(source, path) == target
  }

  ghost predicate Distinct<T>(s: seq<T>) { forall i, j :: 0 <= i < j < |s| ==> s[i] != s[j] }

  /** Simple paths by their definition: walks from source to target that repeat no node. */
  ghost predicate SimplePath(table: seq<Edge>, direction: Direction, source: Node, target: Node, path: Path) {
    path != [] && exists nodes ::
      Walk(Rows(table), direction, nodes, path) && Distinct(nodes) && nodes[0] == source && nodes[|path|] == target
  }

  lemma {:induction false} NodesShape(source: Node, path: Path)
    ensures |NodesOf(source, path)| == |path| + 1 && NodesOf(source, path)[|path|] == End(source, path)
    ensures NodesOf(source, path)[0] == source
  {
    if path != [] { NodesShape(source, path[..|path| - 1]); }
  }

  lemma {:induction false} OpenWalks(table: seq<Edge>, direction: Direction, source: Node, path: Path)
    requires Open(table, direction, source, path)
    ensures Walk(Rows(table), direction, NodesOf(source, path), path) && Distinct(NodesOf(source, path))
  {
    NodesShape(source, path);
    if path != [] {
      var k := |path| - 1;
      OpenWalks(table, direction, source, path[..k]);
      NodesShape(source, path[..k]);
    }
  }

  lemma {:induction false} WalkOpens(table: seq<Edge>, direction: Direction, source: Node, nodes: seq<Node>, path: Path)
    requires Walk(Rows(table), direction, nodes, path) && Distinct(nodes) && nodes[0] == source
    ensures Open(table, direction, source, path) && NodesOf(source, path) == nodes
  {
    if path != [] {
      var k := |path| - 1;
      WalkOpens(table, direction, source, nodes[..k + 1], path[..k]);
      NodesShape(source, path[..k]);
      assert Leads(path[k], direction, nodes[k], nodes[k + 1]) && nodes[k] != nodes[k + 1];
      assert End(source, path) == nodes[k + 1];
      assert nodes == nodes[..k + 1] + [nodes[k + 1]];
    } else {
      assert nodes == [source];
    }
  }

  /** What the search looks for is the simple paths. */
  lemma GoalIsSimplePath(table: seq<Edge>, direction: Direction, source: Node, target: Node, path: Path)
    ensures Goal(table, direction, source, target, path) <==> SimplePath(table, direction, source, target, path)
  {
    NodesShape(source, path);
    if Goal(table, direction, source, target, path) { OpenWalks(table, direction, source, path); }
    if SimplePath(table, direction, source, target, path) {
      var nodes :| Walk(Rows(table), direction, nodes, path) && Distinct(nodes) && nodes[0] == source && nodes[|path|] == target;
      WalkOpens(table, direction, source, nodes, path);
    }
  }

  // ---------------------------------------------------------------- expanding one entry

  /** The edges at a node, in table order. */
  function Incident(table: seq<Edge>, node: Node, direction: Direction): seq<Edge> {
    if table == [] then [] else
      var e := table[|table| - 1];
      Incident(table[..|table| - 1], node, direction) + (if Leaves(e, node, direction) then [e] else [])
  }

  lemma {:induction false} IncidentHas(table: seq<Edge>, node: Node, direction: Direction)
    requires Distinct(table)
    ensures forall e :: e in Incident(table, node, direction) <==> e in table && Leaves(e, node, direction)
    ensures Distinct(Incident(table, node, direction))
  {
    if table != [] {
      var k := |table| - 1;
      IncidentHas(table[..k], node, direction);
      assert table == table[..k] + [table[k]];
    }
  }

  /** The extensions of q along the rows that visit a new node; `hit` picks those that end at the target. */
  function Extend(source: Node, target: Node, q: Path, rows: seq<Edge>, hit: bool): seq<Path> {
    if rows == [] then [] else
      var e := rows[|rows| - 1];
      var next := OtherEnd(e, End(source, q));
      Extend(source, target, q, rows[..|rows| - 1], hit) +
      (if next !in NodesOf(source, q) && (next == target) == hit then [q + [e]] else [])
  }

  lemma EndSnoc(source: Node, q: Path, e: Edge)
    ensures End(source, q + [e]) == OtherEnd(e, End(source, q))
    ensures NodesOf(source, q + [e]) == NodesOf(source, q) + [OtherEnd(e, End(source, q))]
  {
    assert (q + [e])[..|q|] == q;
  }

  ghost predicate Extends(source: Node, target: Node, q: Path, rows: seq<Edge>, hit: bool, p: Path) {
    && |p| == |q| + 1 && p[..|q|] == q && p[|q|] in rows
    && End(source, p) !in NodesOf(source, q) && (End(source, p) == target) == hit
  }

  /** One more row gives at most one more extension. */
  lemma ExtendsStep(source: Node, target: Node, q: Path, rest: seq<Edge>, e: Edge, hit: bool, p: Path)
    ensures Extends(source, target, q, rest + [e], hit, p) <==>
      (Extends(source, target, q, rest, hit, p) || (p == q + [e] && Extends(source, target, q, rest + [e], hit, p)))
  {
    if |p| == |q| + 1 && p[..|q|] == q { assert p == q + [p[|q|]]; }
  }

  lemma ExtendsLast(source: Node, target: Node, q: Path, rest: seq<Edge>, e: Edge, hit: bool)
    ensures Extends(source, target, q, rest + [e], hit, q + [e]) <==>
      OtherEnd(e, End(source, q)) !in NodesOf(source, q) && (OtherEnd(e, End(source, q)) == target) == hit
    ensures e !in rest ==> !Extends(source, target, q, rest, hit, q + [e])
  {
    EndSnoc(source, q, e);
    assert (q + [e])[..|q|] == q && (q + [e])[|q|] == e;
  }

  lemma {:induction false} ExtendHas(source: Node, target: Node, q: Path, rows: seq<Edge>, hit: bool)
    requires Distinct(rows)
    ensures forall p :: p in Extend(source, target, q, rows, hit) <==> Extends(source, target, q, rows, hit, p)
    ensures Distinct(Extend(source, target, q, rows, hit)) && |Extend(source, target, q, rows, hit)| <= |rows|
  {
    if rows != [] {
      var rest, e := rows[..|rows| - 1], rows[|rows| - 1];
      ExtendHas(source, target, q, rest, hit);
      ExtendsLast(source, target, q, rest, e, hit);
      assert rows == rest + [e];
      forall p ensures Extends(source, target, q, rows, hit, p) <==>
        (Extends(source, target, q, rest, hit, p) || (p == q + [e] && Extends(source, target, q, rows, hit, p)))
      {
        ExtendsStep(source, target, q, rest, e, hit, p);
      }
      var more := Extend(source, target, q, rest, hit);
      assert Extend(source, target, q, rows, hit) == if Extends(source, target, q, rows, hit, q + [e]) then more + [q + [e]] else more;
    }
  }

  // ---------------------------------------------------------------- what the search keeps

  /** Waiting paths: simple, and none a prefix of another one or of a path already found. */
  ghost predicate Apart(open: seq<Path>, found: seq<Path>) {
    && (forall i, j :: 0 <= i < |open| && 0 <= j < |open| && i != j ==> !(open[i] <= open[j]))
    && (forall i, j :: 0 <= i < |open| && 0 <= j < |found| ==> !(open[i] <= found[j]))
    && Distinct(found)
  }

  /** Waiting paths are in order of length and differ by at most one; found paths are no longer than the next ones can be. */
  ghost predicate Ordered(open: seq<Path>, found: seq<Path>) {
    && (forall i, j :: 0 <= i < j < |open| ==> |open[i]| <= |open[j]|)
    && (forall i, j :: 0 <= i < j < |found| ==> |found[i]| <= |found[j]|)
    && (open != [] ==>
          && (forall i :: 0 <= i < |open| ==> |open[i]| <= |open[0]| + 1)
          && (forall i :: 0 <= i < |found| ==> |found[i]| <= |open[0]| + 1))
  }

  /** Every simple path within the bound has been found or still has a waiting prefix. */
  ghost predicate Covered(
    table: seq<Edge>, direction: Direction, source: Node, target: Node, bound: int, open: seq<Path>, found: seq<Path>) {
    forall p :: Goal(table, direction, source, target, p) && |p| <= bound ==> p in found || HasPrefix(open, p)
  }

  /** No simple path within the bound that has not been found is shorter than one that has. */
  ghost predicate NoneShorter(table: seq<Edge>, direction: Direction, source: Node, target: Node, bound: int, found: seq<Path>) {
    forall p :: Goal(table, direction, source, target, p) && |p| <= bound && p !in found ==> forall q :: q in found ==> |q| <= |p|
  }

  ghost predicate HasPrefix(open: seq<Path>, p: Path) {
    exists i :: 0 <= i < |open| && |open[i]| < |p| && open[i] <= p
  }

  lemma DropKeepsOrder(open: seq<Path>, found: seq<Path>)
    requires open != [] && Apart(open, found) && Ordered(open, found)
    ensures Apart(open[1..], found) && Ordered(open[1..], found)
  {}

  ghost predicate OneEdgeMore(q: Path, p: Path) { |p| == |q| + 1 && p[..|q|] == q }

  /** How a path one edge longer than q relates to any other path. */
  lemma OneEdgeMorePrefixes(q: Path, p: Path, x: Path)
    requires OneEdgeMore(q, p)
    ensures q <= p && (p <= x ==> q <= x)
    ensures p <= x && |p| == |x| ==> p == x
    ensures x <= p ==> x == p || x <= q
  {
    if p <= x { assert q == p[..|q|] == x[..|q|]; }
    if x <= p && |x| <= |q| { assert x == p[..|x|] == q[..|x|]; }
  }

  /** Adding one-edge extensions of the path just taken keeps everything apart. */
  lemma ExtensionsApart(open: seq<Path>, found: seq<Path>, news: seq<Path>, hits: seq<Path>)
    requires open != [] && Apart(open, found) && Distinct(news) && Distinct(hits)
    requires forall p :: p in news || p in hits ==> OneEdgeMore(open[0], p)
    requires forall p :: p in news ==> p !in hits
    ensures Apart(open[1..] + news, found + hits)
  {
    var q, r, open', found' := open[0], |open| - 1, open[1..] + news, found + hits;
    forall i, j | 0 <= i < |open'| && 0 <= j < |open'| && i != j ensures !(open'[i] <= open'[j]) {
      if i < r {
        assert open'[i] == open[i + 1];
        if j < r { assert open'[j] == open[j + 1]; } else { OneEdgeMorePrefixes(q, open'[j], open'[i]); }
      } else {
        assert open'[i] == news[i - r];
        OneEdgeMorePrefixes(q, open'[i], open'[j]);
        if j < r {
          assert open'[j] == open[j + 1];
        } else {
          assert open'[j] == news[j - r] && open'[j] in news;
          assert news[i - r] != news[j - r];
        }
      }
    }
    forall i, j | 0 <= i < |open'| && 0 <= j < |found'| ensures !(open'[i] <= found'[j]) {
      if i < r {
        assert open'[i] == open[i + 1];
        if j >= |found| { OneEdgeMorePrefixes(q, found'[j], open'[i]); }
      } else {
        assert open'[i] in news && (j >= |found| ==> found'[j] in hits);
        OneEdgeMorePrefixes(q, open'[i], found'[j]);
      }
    }
    forall i, j | 0 <= i < j < |found'| ensures found'[i] != found'[j] {
      if i < |found| && j >= |found| { OneEdgeMorePrefixes(q, found'[j], found'[i]); }
    }
  }

  lemma ExtensionsOrdered(open: seq<Path>, found: seq<Path>, news: seq<Path>, hits: seq<Path>)
    requires open != [] && Ordered(open, found)
    requires forall p :: p in news || p in hits ==> |p| == |open[0]| + 1
    ensures Ordered(open[1..] + news, found + hits)
  {}

  /** A waiting prefix other than the first stays, and so does one among the new paths. */
  lemma PrefixStays(open: seq<Path>, news: seq<Path>, p: Path, i: nat)
    requires open != [] && i < |open| && |open[i]| < |p| && open[i] <= p
    requires i == 0 ==> |p| > |open[0]| + 1 && p[..|open[0]| + 1] in news
    ensures HasPrefix(open[1..] + news, p)
  {
    var rest := open[1..] + news;
    if i > 0 {
      assert rest[i - 1] == open[i];
    } else {
      var k :| 0 <= k < |news| && news[k] == p[..|open[0]| + 1];
      assert rest[|open| - 1 + k] == news[k];
    }
  }

  /** One path with a waiting prefix is found by the step or still has one after it. */
  lemma ExtensionCovers(
    table: seq<Edge>, direction: Direction, source: Node, target: Node, open: seq<Path>, rows: seq<Edge>, p: Path)
    requires open != [] && HasPrefix(open, p) && Goal(table, direction, source, target, p)
    requires Distinct(rows) && forall e :: e in table && Leaves(e, End(source, open[0]), direction) ==> e in rows
    ensures p in Extend(source, target, open[0], rows, true) || HasPrefix(open[1..] + Extend(source, target, open[0], rows, false), p)
  {
    var i :| 0 <= i < |open| && |open[i]| < |p| && open[i] <= p;
    if i == 0 { NextOnPath(table, direction, source, target, open[0], rows, p); }
    if i > 0 || |p| > |open[0]| + 1 { PrefixStays(open, Extend(source, target, open[0], rows, false), p, i); }
  }

  /** Taking one path and keeping all its extensions leaves nothing uncovered. */
  lemma ExtensionsCover(
    table: seq<Edge>, direction: Direction, source: Node, target: Node, bound: int,
    open: seq<Path>, found: seq<Path>, rows: seq<Edge>)
    requires open != [] && Covered(table, direction, source, target, bound, open, found)
    requires Distinct(rows) && forall e :: e in table && Leaves(e, End(source, open[0]), direction) ==> e in rows
    ensures Covered(table, direction, source, target, bound,
      open[1..] + Extend(source, target, open[0], rows, false), found + Extend(source, target, open[0], rows, true))
  {
    forall p | Goal(table, direction, source, target, p) && |p| <= bound && HasPrefix(open, p)
      ensures p in Extend(source, target, open[0], rows, true) || HasPrefix(open[1..] + Extend(source, target, open[0], rows, false), p)
    {
      ExtensionCovers(table, direction, source, target, open, rows, p);
    }
  }

  /** The next prefix of a simple path is among the extensions of the prefix just taken. */
  lemma NextOnPath(
    table: seq<Edge>, direction: Direction, source: Node, target: Node, q: Path, rows: seq<Edge>, p: Path)
    requires Goal(table, direction, source, target, p) && q <= p && |q| < |p|
    requires Distinct(rows) && forall e :: e in table && Leaves(e, End(source, q), direction) ==> e in rows
    ensures if |p| == |q| + 1 then p in Extend(source, target, q, rows, true) else p[..|q| + 1] in Extend(source, target, q, rows, false)
  {
    ExtendHas(source, target, q, rows, true);
    ExtendHas(source, target, q, rows, false);
    var p1 := p[..|q| + 1];
    OpenPrefix(table, direction, source, p, |q| + 1);
    assert p1[..|q|] == q;
    assert p1[|q|] in rows;
    if |p1| == |p| {
      assert p1 == p && Extends(source, target, q, rows, true, p);
    } else {
      EndAmongNodes(source, p, |q| + 1);
      assert Extends(source, target, q, rows, false, p1);
    }
  }

  lemma {:induction false} OpenPrefix(table: seq<Edge>, direction: Direction, source: Node, p: Path, k: nat)
    requires Open(table, direction, source, p) && k <= |p|
    ensures Open(table, direction, source, p[..k])
  {
    if k < |p| {
      OpenPrefix(table, direction, source, p[..|p| - 1], k);
      assert p[..|p| - 1][..k] == p[..k];
    } else {
      assert p[..k] == p;
    }
  }

  /** The end of a shorter prefix is among the nodes before the last one. */
  lemma {:induction false} EndAmongNodes(source: Node, p: Path, k: nat)
    requires k < |p|
    ensures End(source, p[..k]) in NodesOf(source, p[..|p| - 1])
  {
    var front := p[..|p| - 1];
    if k == |front| {
      NodesShape(source, front);
    } else {
      EndAmongNodes(source, front, k);
      assert front[..k] == p[..k];
    }
  }

  /** A path already at the bound has no simple path within the bound below it. */
  lemma BoundedCover(
    table: seq<Edge>, direction: Direction, source: Node, target: Node, bound: int, open: seq<Path>, found: seq<Path>)
    requires open != [] && |open[0]| >= bound && Covered(table, direction, source, target, bound, open, found)
    ensures Covered(table, direction, source, target, bound, open[1..], found)
  {
    forall p | Goal(table, direction, source, target, p) && |p| <= bound && p !in found
      ensures HasPrefix(open[1..], p)
    {
      var i :| 0 <= i < |open| && |open[i]| < |p| && open[i] <= p;
      assert open[1..][i - 1] == open[i];
    }
  }

  // ---------------------------------------------------------------- the search

  /** A queue entry: the node reached, the path to it and the nodes on it. */
  datatype Entry = Entry(node: Node, path: Path, visited: set<Node>)

  ghost function EntryOf(source: Node, path: Path): Entry {
    Entry(End(source, path), path, set v | v in NodesOf(source, path))
  }

  ghost function Each<T, U>(f: T -> U, s: seq<T>): seq<U> {
    if s == [] then [] else Each(f, s[..|s| - 1]) + [f(s[|s| - 1])]
  }

  lemma {:induction false} EachJoin<T, U>(f: T -> U, a: seq<T>, b: seq<T>)
    ensures Each(f, a + b) == Each(f, a) + Each(f, b)
    decreases |b|
  {
    if b == [] {
      assert a + b == a;
    } else {
      assert (a + b)[..|a + b| - 1] == a + b[..|b| - 1];
      EachJoin(f, a, b[..|b| - 1]);
    }
  }

  ghost function Entries(source: Node, paths: seq<Path>): seq<Entry> {
    Each(path => EntryOf(source, path), paths)
  }

  lemma EntriesJoin(source: Node, a: seq<Path>, b: seq<Path>)
    ensures Entries(source, a + b) == Entries(source, a) + Entries(source, b)
  {
    EachJoin(path => EntryOf(source, path), a, b);
  }

  lemma EachOne<T, U>(f: T -> U, x: T)
    ensures Each(f, [x]) == [f(x)]
  {
    assert [x][..0] == [];
  }

  lemma EntriesOne(source: Node, p: Path)
    ensures Entries(source, [p]) == [EntryOf(source, p)]
  {
    EachOne(path => EntryOf(source, path), p);
  }

  lemma EntriesFirst(source: Node, open: seq<Path>)
    requires open != []
    ensures Entries(source, open) == [EntryOf(source, open[0])] + Entries(source, open[1..])
  {
    assert open == [open[0]] + open[1..];
    EntriesJoin(source, [open[0]], open[1..]);
    EntriesOne(source, open[0]);
  }

  lemma EntrySnoc(source: Node, q: Path, edge: Edge)
    ensures
      var next := OtherEnd(edge, End(source, q));
      EntryOf(source, q + [edge]) == Entry(next, q + [edge], EntryOf(source, q).visited + {next})
  {
    EndSnoc(source, q, edge);
  }

  /** An upper bound on the entries a waiting path can still give rise to. */
  function Weight(room: int): nat
    decreases if room < 0 then 0 else room
  {
    if room <= 0 then 1 else 1 + FAN_OUT * Weight(room - 1)
  }

  function TotalWeight(bound: int, open: seq<Path>): nat {
    if open == [] then 0 else Weight(bound - |open[0]|) + TotalWeight(bound, open[1..])
  }

  lemma {:induction false} WeightJoin(bound: int, a: seq<Path>, b: seq<Path>)
    ensures TotalWeight(bound, a + b) == TotalWeight(bound, a) + TotalWeight(bound, b)
  {
    if a == [] { assert a + b == b; } else {
      assert (a + b)[1..] == a[1..] + b;
      WeightJoin(bound, a[1..], b);
    }
  }

  lemma {:induction false} WeightAll(bound: int, news: seq<Path>, length: nat, n: nat)
    requires |news| <= n && forall p :: p in news ==> |p| == length
    ensures TotalWeight(bound, news) <= n * Weight(bound - length)
  {
    var w := Weight(bound - length);
    if n > 0 {
      assert n * w == w + (n - 1) * w;
      if news != [] {
        assert forall p :: p in news[1..] ==> p in news;
        WeightAll(bound, news[1..], length, n - 1);
      } else {
        WeightAll(bound, news, length, n - 1);
      }
    }
  }

  /** Replacing a path by at most FAN_OUT longer ones makes the queue lighter. */
  lemma WeightFalls(bound: int, open: seq<Path>, news: seq<Path>)
    requires open != [] && |open[0]| < bound && |news| <= FAN_OUT
    requires forall p :: p in news ==> |p| == |open[0]| + 1
    ensures TotalWeight(bound, open[1..] + news) < TotalWeight(bound, open)
  {
    WeightJoin(bound, open[1..], news);
    WeightAll(bound, news, |open[0]| + 1, FAN_OUT);
  }

  lemma ExtendSnoc(source: Node, target: Node, q: Path, rows: seq<Edge>, k: nat, hit: bool)
    requires k < |rows|
    ensures
      var next := OtherEnd(rows[k], End(source, q));
      Extend(source, target, q, rows[..k + 1], hit) ==
      Extend(source, target, q, rows[..k], hit) + (if next !in NodesOf(source, q) && (next == target) == hit then [q + [rows[k]]] else [])
  {
    assert rows[..k + 1][..k] == rows[..k];
  }

  /** The outcome after the first k edges of an entry. */
  ghost predicate Expanded(
    source: Node, target: Node, q: Path, rows: seq<Edge>, k: nat, queue: seq<Entry>, paths: seq<Path>, queue': seq<Entry>, paths': seq<Path>)
    requires k <= |rows|
  {
    && queue' == queue + Entries(source, Extend(source, target, q, rows[..k], false))
    && paths' == paths + Extend(source, target, q, rows[..k], true)
  }

  method Follow(ghost source: Node, target: Node, entry: Entry, edge: Edge) returns (news: seq<Entry>, hits: seq<Path>)
    requires entry == EntryOf(source, entry.path)
    ensures
      var next := OtherEnd(edge, End(source, entry.path));
      var unseen := next !in NodesOf(source, entry.path);
      && news == Entries(source, if unseen && next != target then [entry.path + [edge]] else [])
      && hits == (if unseen && next == target then [entry.path + [edge]] else [])
  {
    news, hits := [], [];
    var nextNode := OtherEnd(edge, entry.node);
    if nextNode !in entry.visited {
      var nextPath := entry.path + [edge];
      if nextNode == target {
        hits := [nextPath];
      } else {
        EntrySnoc(source, entry.path, edge);
        news := [Entry(nextNode, nextPath, entry.visited + {nextNode})];
        EntriesFirst(source, [nextPath]);
      }
    }
  }

  /** The edges of one entry in order, until enough paths are found. */
  method Expand(
    ghost source: Node, target: Node, entry: Entry, rows: seq<Edge>, maxPaths: int, queue: seq<Entry>, paths: seq<Path>)
    returns (queue': seq<Entry>, paths': seq<Path>, ghost k: nat)
    requires entry == EntryOf(source, entry.path) && |paths| < maxPaths
    ensures |paths'| <= maxPaths
    ensures k <= |rows| && Expanded(source, target, entry.path, rows, k, queue, paths, queue', paths')
    ensures |paths'| < maxPaths ==> k == |rows|
  {
    queue', paths', k := queue, paths, 0;
    for i := 0 to |rows|
      invariant k == i && Expanded(source, target, entry.path, rows, k, queue, paths, queue', paths')
      invariant |paths'| < maxPaths
    {
      var news, hits := Follow(source, target, entry, rows[i]);
      ExtendSnoc(source, target, entry.path, rows, i, false);
      ExtendSnoc(source, target, entry.path, rows, i, true);
      ghost var before := Extend(source, target, entry.path, rows[..i], false);
      var next := OtherEnd(rows[i], entry.node);
      EntriesJoin(source, before, if next !in entry.visited && next != target then [entry.path + [rows[i]]] else []);
      queue', paths', k := queue' + news, paths' + hits, k + 1;
      if |paths'| >= maxPaths { return; }
    }
  }

  /** No node has more edges than the statement's LIMIT. */
  ghost predicate Narrow(table: seq<Edge>, direction: Direction) {
    forall v :: |Incident(table, v, direction)| <= FAN_OUT
  }

  /** SELECT ... ORDER BY id LIMIT 1000. */
  method FetchIncident(table: seq<Edge>, node: Node, direction: Direction) returns (rows: seq<Edge>)
    requires Distinct(table)
    ensures Distinct(rows) && |rows| <= FAN_OUT
    ensures forall e :: e in rows ==> e in table && Leaves(e, node, direction)
    ensures |Incident(table, node, direction)| <= FAN_OUT ==> forall e :: e in table && Leaves(e, node, direction) ==> e in rows
  {
    IncidentHas(table, node, direction);
    var all := Incident(table, node, direction);
    rows := if |all| <= FAN_OUT then all else all[..FAN_OUT];
  }

  ghost predicate SearchInv(
    table: seq<Edge>, direction: Direction, source: Node, target: Node, bound: int, open: seq<Path>, found: seq<Path>)
  {
    && Apart(open, found) && Ordered(open, found)
    && (forall p :: p in open ==> Open(table, direction, source, p))
    && (forall p :: p in found ==> Goal(table, direction, source, target, p) && |p| <= bound)
  }

  lemma ExtensionsOpen(table: seq<Edge>, direction: Direction, source: Node, target: Node, q: Path, rows: seq<Edge>, hit: bool)
    requires Open(table, direction, source, q) && Distinct(rows)
    requires forall e :: e in rows ==> e in table && Leaves(e, End(source, q), direction)
    ensures forall p :: p in Extend(source, target, q, rows, hit) ==>
      OneEdgeMore(q, p) && Open(table, direction, source, p) && (hit ==> Goal(table, direction, source, target, p))
    ensures Distinct(Extend(source, target, q, rows, hit)) && |Extend(source, target, q, rows, hit)| <= |rows|
  {
    ExtendHas(source, target, q, rows, hit);
  }

  lemma ExpansionKeepsInv(
    table: seq<Edge>, direction: Direction, source: Node, target: Node, bound: int, open: seq<Path>, found: seq<Path>, rows: seq<Edge>)
    requires open != [] && |open[0]| < bound && SearchInv(table, direction, source, target, bound, open, found)
    requires Distinct(rows) && |rows| <= FAN_OUT
    requires forall e :: e in rows ==> e in table && Leaves(e, End(source, open[0]), direction)
    ensures
      var open' := open[1..] + Extend(source, target, open[0], rows, false);
      var found' := found + Extend(source, target, open[0], rows, true);
      SearchInv(table, direction, source, target, bound, open', found') && TotalWeight(bound, open') < TotalWeight(bound, open)
  {
    var news, hits := Extend(source, target, open[0], rows, false), Extend(source, target, open[0], rows, true);
    ExtensionsOpen(table, direction, source, target, open[0], rows, false);
    ExtensionsOpen(table, direction, source, target, open[0], rows, true);
    ExtendHas(source, target, open[0], rows, false);
    ExtendHas(source, target, open[0], rows, true);
    ExtensionsApart(open, found, news, hits);
    ExtensionsOrdered(open, found, news, hits);
    WeightFalls(bound, open, news);
  }

  lemma StartInv(table: seq<Edge>, direction: Direction, source: Node, target: Node, bound: int)
    ensures SearchInv(table, direction, source, target, bound, [[]], []) && Covered(table, direction, source, target, bound, [[]], [])
    ensures Entries(source, [[]]) == [Entry(source, [], {source})]
  {
    var none: Path := [];
    assert [none][..0] == [];
    assert NodesOf(source, none) == [source];
    assert (set v | v in NodesOf(source, none)) == {source};
    forall p | Goal(table, direction, source, target, p) ensures HasPrefix([none], p) {
      assert [none][0] <= p;
    }
  }

  /** While everything is covered, what is found next is no longer than anything not found. */
  lemma NextAreShortest(
    table: seq<Edge>, direction: Direction, source: Node, target: Node, bound: int, open: seq<Path>, found: seq<Path>, hits: seq<Path>)
    requires open != [] && Ordered(open, found) && Covered(table, direction, source, target, bound, open, found)
    requires forall p :: p in hits ==> |p| == |open[0]| + 1
    ensures NoneShorter(table, direction, source, target, bound, found + hits)
  {
    var found' := found + hits;
    forall p, q | Goal(table, direction, source, target, p) && |p| <= bound && p !in found' && q in found' ensures |q| <= |p| {
      assert HasPrefix(open, p);
      var i :| 0 <= i < |open| && |open[i]| < |p| && open[i] <= p;
      assert |open[0]| <= |open[i]|;
      if q in found {
        var j :| 0 <= j < |found| && found[j] == q;
      }
    }
  }

  /** Dropping a path that is already at the bound leaves nothing uncovered, and nothing found is longer than what is not. */
  lemma DroppedKeepsSearch(
    table: seq<Edge>, direction: Direction, source: Node, target: Node, bound: int, open: seq<Path>, found: seq<Path>)
    requires open != [] && |open[0]| >= bound && SearchInv(table, direction, source, target, bound, open, found)
    ensures SearchInv(table, direction, source, target, bound, open[1..], found)
    ensures TotalWeight(bound, open[1..]) < TotalWeight(bound, open)
    ensures Covered(table, direction, source, target, bound, open, found) ==>
      Covered(table, direction, source, target, bound, open[1..], found) && NoneShorter(table, direction, source, target, bound, found)
  {
    DropKeepsOrder(open, found);
    if Covered(table, direction, source, target, bound, open, found) {
      NextAreShortest(table, direction, source, target, bound, open, found, []);
      assert found + [] == found;
      BoundedCover(table, direction, source, target, bound, open, found);
    }
  }

  /** What the extensions of a path finish is no longer than anything not found; with all its edges followed nothing is left uncovered. */
  lemma ExpandedKeepsSearch(
    table: seq<Edge>, direction: Direction, source: Node, target: Node, bound: int, open: seq<Path>, found: seq<Path>, rows: seq<Edge>)
    requires open != [] && SearchInv(table, direction, source, target, bound, open, found)
    requires Covered(table, direction, source, target, bound, open, found) && Distinct(rows)
    requires forall e :: e in rows ==> e in table && Leaves(e, End(source, open[0]), direction)
    ensures NoneShorter(table, direction, source, target, bound, found + Extend(source, target, open[0], rows, true))
    ensures (forall e :: e in table && Leaves(e, End(source, open[0]), direction) ==> e in rows) ==>
      Covered(table, direction, source, target, bound,
        open[1..] + Extend(source, target, open[0], rows, false), found + Extend(source, target, open[0], rows, true))
  {
    ExtensionsOpen(table, direction, source, target, open[0], rows, true);
    NextAreShortest(table, direction, source, target, bound, open, found, Extend(source, target, open[0], rows, true));
    if forall e :: e in table && Leaves(e, End(source, open[0]), direction) ==> e in rows {
      ExtensionsCover(table, direction, source, target, bound, open, found, rows);
    }
  }

  /** Takes the first waiting path and replaces it by its extensions. */
  method Round(
    table: seq<Edge>, ghost source: Node, target: Node, direction: Direction, bound: int, maxPaths: int,
    queue: seq<Entry>, ghost open: seq<Path>, paths: seq<Path>)
    returns (queue': seq<Entry>, ghost open': seq<Path>, paths': seq<Path>)
    requires Distinct(table) && queue != [] && |paths| < maxPaths && queue == Entries(source, open)
    requires SearchInv(table, direction, source, target, bound, open, paths)
    ensures queue' == Entries(source, open') && |paths'| <= maxPaths
    ensures SearchInv(table, direction, source, target, bound, open', paths')
    ensures TotalWeight(bound, open') < TotalWeight(bound, open)
    ensures Narrow(table, direction) && |paths'| < maxPaths && Covered(table, direction, source, target, bound, open, paths) ==>
      Covered(table, direction, source, target, bound, open', paths')
    ensures Covered(table, direction, source, target, bound, open, paths) ==> NoneShorter(table, direction, source, target, bound, paths')
  {
    EntriesFirst(source, open);
    var entry := queue[0];
    if |entry.path| >= bound {
      DroppedKeepsSearch(table, direction, source, target, bound, open, paths);
      return queue[1..], open[1..], paths;
    }
    var rows := FetchIncident(table, entry.node, direction);
    ghost var k;
    queue', paths', k := Expand(source, target, entry, rows, maxPaths, queue[1..], paths);
    ghost var news := Extend(source, target, open[0], rows[..k], false);
    open' := open[1..] + news;
    ExpansionKeepsInv(table, direction, source, target, bound, open, paths, rows[..k]);
    EntriesJoin(source, open[1..], news);
    if Covered(table, direction, source, target, bound, open, paths) {
      assert |paths'| < maxPaths ==> rows[..k] == rows;
      ExpandedKeepsSearch(table, direction, source, target, bound, open, paths, rows[..k]);
    }
  }

  /**
   The paths reported are distinct simple paths within the bound, in order of length. If no node has more edges than the
   statement's LIMIT, none that is left out is shorter than one that is reported, and if fewer than max_paths are reported
   they are all of them.
   */
  method ExplainPaths(
    table: seq<Edge>, source: Node, target: Node, maxDepth: int, depthLimit: int, direction: Direction, maxPaths: int)
    returns (paths: seq<Path>, truncated: bool)
    requires Distinct(table)
    ensures forall p :: p in paths ==>
      SimplePath(table, direction, source, target, p) && |p| <= maxDepth && |p| <= depthLimit
    ensures Distinct(paths) && forall i, j :: 0 <= i < j < |paths| ==> |paths[i]| <= |paths[j]|
    ensures paths == [] || |paths| <= maxPaths
    ensures truncated == (|paths| >= maxPaths)
    ensures !truncated && Narrow(table, direction) ==>
      forall p :: SimplePath(table, direction, source, target, p) && |p| <= maxDepth && |p| <= depthLimit ==> p in paths
    ensures Narrow(table, direction) ==>
      forall p, q :: SimplePath(table, direction, source, target, p) && |p| <= maxDepth && |p| <= depthLimit && p !in paths && q in paths ==> |q| <= |p|
  {
    var bound := if maxDepth <= depthLimit then maxDepth else depthLimit;
    var queue := [Entry(source, [], {source})];
    ghost var open: seq<Path> := [[]];
    paths := [];
    StartInv(table, direction, source, target, bound);
    ghost var narrow := Narrow(table, direction);
    while queue != [] && |paths| < maxPaths
      invariant queue == Entries(source, open)
      invariant SearchInv(table, direction, source, target, bound, open, paths)
      invariant narrow && |paths| < maxPaths ==> Covered(table, direction, source, target, bound, open, paths)
      invariant narrow ==> NoneShorter(table, direction, source, target, bound, paths)
      invariant paths == [] || |paths| <= maxPaths
      decreases TotalWeight(bound, open)
    {
      queue, open, paths := Round(table, source, target, direction, bound, maxPaths, queue, open, paths);
    }
    truncated := |paths| >= maxPaths;
    GoalsAreSimplePaths(table, direction, source, target);
    if !truncated && narrow { NothingWaiting(table, direction, source, target, bound, paths); }
  }

  lemma GoalsAreSimplePaths(table: seq<Edge>, direction: Direction, source: Node, target: Node)
    ensures forall p :: Goal(table, direction, source, target, p) <==> SimplePath(table, direction, source, target, p)
  {
    forall p ensures Goal(table, direction, source, target, p) <==> SimplePath(table, direction, source, target, p) {
      GoalIsSimplePath(table, direction, source, target, p);
    }
  }

  lemma NothingWaiting(table: seq<Edge>, direction: Direction, source: Node, target: Node, bound: int, found: seq<Path>)
    requires Covered(table, direction, source, target, bound, [], found)
    ensures forall p :: Goal(table, direction, source, target, p) && |p| <= bound ==> p in found
  {}

  // ---------------------------------------------------------------- explaining one path

  /** One step of the explanation; `forwards` chooses between its two wordings. */
  datatype Step = Step(edge: Edge, from: Node, to: Node, forwards: bool)

  predicate StepAlong(step: Step, e: Edge, from: Node, to: Node) {
    step == Step(e, from, to, e.source == from)
  }

  /** A step names its edge and both ends, and is worded forwards exactly when it starts at the edge's source. */
  lemma StepSays(step: Step, e: Edge, from: Node, to: Node)
    ensures StepAlong(step, e, from, to) <==> step.edge == e && step.from == from && step.to == to && (step.forwards <==> e.source == from)
  {}

  lemma {:induction false} NodesPrefix(source: Node, path: Path, k: nat)
    requires k <= |path|
    ensures |NodesOf(source, path)| == |path| + 1 && NodesOf(source, path)[k] == End(source, path[..k])
  {
    NodesShape(source, path);
    if k < |path| {
      var front := path[..|path| - 1];
      NodesPrefix(source, front, k);
      assert front[..k] == path[..k];
    } else {
      assert path[..k] == path;
    }
  }

  /** The explanation walks the path's own nodes, so that for a path found above it ends at the target. */
  method PathResponse(source: Node, path: Path) returns (steps: seq<Step>)
    ensures |steps| == |path| && |NodesOf(source, path)| == |path| + 1
    ensures forall i :: 0 <= i < |path| ==>
      StepAlong(steps[i], path[i], NodesOf(source, path)[i], NodesOf(source, path)[i + 1])
    ensures path != [] ==> steps[0].from == source && steps[|path| - 1].to == End(source, path)
  {
    var current := source;
    steps := [];
    ghost var nodes := NodesOf(source, path);
    NodesShape(source, path);
    for k := 0 to |path|
      invariant |steps| == k && current == nodes[k]
      invariant forall i :: 0 <= i < k ==> StepAlong(steps[i], path[i], nodes[i], nodes[i + 1])
    {
      var edge := path[k];
      var next := if current == edge.source then edge.target else edge.source;
      NodesPrefix(source, path, k);
      NodesPrefix(source, path, k + 1);
      assert path[..k + 1] == path[..k] + [edge];
      EndSnoc(source, path[..k], edge);
      steps := steps + [Step(edge, current, next, current == edge.source)];
      current := next;
    }
    if path != [] {
      assert StepAlong(steps[0], path[0], nodes[0], nodes[1]);
      assert StepAlong(steps[|path| - 1], path[|path| - 1], nodes[|path| - 1], nodes[|path|]);
    }
  }
}
