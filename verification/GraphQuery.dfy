/** Level-by-level reachability with a bound on the rows fetched. */
module GraphQuery {
  import opened Graph

  /** Rows a level's statement selects before its LIMIT. */
  predicate Selected(e: Edge, frontier: set<Node>, direction: Direction, relationships: set<string>) {
    && ((direction != Inbound && e.source in frontier) || (direction != Outbound && e.target in frontier))
    && Related(e, relationships)
  }

  /** The edges a query may use at all. */
  ghost function Usable(table: seq<Edge>, relationships: set<string>): set<Edge> {
    set e | e in table && Related(e, relationships)
  }

  /** Without relationships a query may use every edge, otherwise those of the relationships it names. */
  lemma UsableExactlyWhen(table: seq<Edge>, relationships: set<string>, e: Edge)
    ensures e in Usable(table, relationships) <==> e in table && (relationships != {} ==> e.relationship in relationships)
  {}

  /** A level selects the usable edges that lead from its frontier somewhere. */
  lemma SelectedExactlyWhen(e: Edge, frontier: set<Node>, direction: Direction, relationships: set<string>)
    ensures Selected(e, frontier, direction, relationships) <==>
      (relationships == {} || e.relationship in relationships) && exists a, b :: a in frontier && Leads(e, direction, a, b)
  {
    assert Leads(e, Outbound, e.source, e.target) && Leads(e, Inbound, e.target, e.source);
    assert direction.Both? ==> Leads(e, direction, e.source, e.target) && Leads(e, direction, e.target, e.source);
  }

  /** Outbound edges lead from source to target, inbound ones from target to source, and both ways is either. */
  lemma LeadsExactlyWhen(e: Edge, direction: Direction, a: Node, b: Node)
    ensures Leads(e, Outbound, a, b) <==> e.source == a && e.target == b
    ensures Leads(e, Inbound, a, b) <==> e.source == b && e.target == a
    ensures Leads(e, Both, a, b) <==> Leads(e, Outbound, a, b) || Leads(e, Inbound, a, b)
    ensures Leads(e, direction, a, b) ==> Leaves(e, a, direction) && (a != b || e.source == e.target)
    ensures Leads(e, direction, a, b) && (e.source == a ==> e.target == b) ==> OtherEnd(e, a) == b
  {}

  /** The rows a level's statement selects, before its LIMIT. */
  function SelectedRows(table: seq<Edge>, frontier: set<Node>, direction: Direction, relationships: set<string>): seq<Edge> {
    if table == [] then []
    else
      var last := table[|table| - 1];
      SelectedRows(table[..|table| - 1], frontier, direction, relationships)
      + (if Selected(last, frontier, direction, relationships) then [last] else [])
  }

  lemma {:induction false} SelectedMembers(table: seq<Edge>, frontier: set<Node>, direction: Direction, relationships: set<string>)
    ensures forall e :: e in SelectedRows(table, frontier, direction, relationships) <==> e in table && Selected(e, frontier, direction, relationships)
    ensures |SelectedRows(table, frontier, direction, relationships)| <= |table|
  {
    if table != [] {
      SelectedMembers(table[..|table| - 1], frontier, direction, relationships);
      assert table == table[..|table| - 1] + [table[|table| - 1]];
    }
  }

  /**
   A statement without ORDER BY may return any of its rows when a LIMIT cuts it, which it does exactly when it selects
   more rows than that; otherwise it returns all of them.
   */
  method Fetch(table: seq<Edge>, frontier: set<Node>, direction: Direction, relationships: set<string>, limit: nat)
    returns (rows: seq<Edge>, ghost cut: bool)
    ensures forall e :: e in rows ==> e in table && Selected(e, frontier, direction, relationships)
    ensures |rows| <= limit
    ensures !cut ==> rows == SelectedRows(table, frontier, direction, relationships)
    ensures cut <==> |SelectedRows(table, frontier, direction, relationships)| > limit
  {
    rows, cut := [], false;
    for i := 0 to |table|
      invariant forall e :: e in rows ==> e in SelectedRows(table[..i], frontier, direction, relationships)
      invariant if cut then |rows| == limit else rows == SelectedRows(table[..i], frontier, direction, relationships)
      invariant |rows| <= limit
      invariant cut <==> |SelectedRows(table[..i], frontier, direction, relationships)| > limit
    {
      assert table[..i + 1][..i] == table[..i];
      if Selected(table[i], frontier, direction, relationships) {
        if |rows| < limit { rows := rows + [table[i]]; } else { cut := true; }
      }
    }
    assert table[..|table|] == table;
    SelectedMembers(table, frontier, direction, relationships);
  }

  /** Every reported node is really reached in exactly as many steps as its depth. */
  ghost predicate Sound(usable: set<Edge>, direction: Direction, start: Node, depths: map<Node, nat>) {
    forall v :: v in depths ==> Reaches(usable, direction, start, v, depths[v])
  }

  /** Every edge out of a node that has been expanded ends at a node at most one level deeper. */
  ghost predicate Expanded(usable: set<Edge>, direction: Direction, depths: map<Node, nat>, below: int) {
    forall u, e, v ::
      u in depths && depths[u] < below && e in usable && Leads(e, direction, u, v)
      ==> v in depths && depths[v] <= depths[u] + 1
  }

  lemma {:induction false} ExpandedCovers(
    usable: set<Edge>, direction: Direction, start: Node, depths: map<Node, nat>, below: int, v: Node, length: nat)
    requires start in depths && depths[start] == 0
    requires Expanded(usable, direction, depths, below) && length <= below
    requires Reaches(usable, direction, start, v, length)
    ensures v in depths && depths[v] <= length
    decreases length
  {
    if length > 0 {
      var u, e := LastStep(usable, direction, start, v, length);
      ExpandedCovers(usable, direction, start, depths, below, u, length - 1);
    } else {
      var nodes, edges :| Walk(usable, direction, nodes, edges) && |edges| == 0 && nodes[0] == start && nodes[|edges|] == v;
    }
  }

  /** The nodes the edges of the list touch. */
  ghost function Ends(rows: seq<Edge>): set<Node> {
    if rows == [] then {} else Ends(rows[..|rows| - 1]) + {rows[|rows| - 1].source} + {rows[|rows| - 1].target}
  }

  lemma EndsSnoc(rows: seq<Edge>, k: nat)
    requires k < |rows|
    ensures Ends(rows[..k + 1]) == Ends(rows[..k]) + {rows[k].source} + {rows[k].target}
  {
    assert rows[..k + 1][..k] == rows[..k];
  }

  lemma {:induction false} EndsTouch(rows: seq<Edge>)
    ensures forall v :: v in Ends(rows) <==> exists e :: e in rows && (v == e.source || v == e.target)
  {
    if rows != [] {
      var last := rows[|rows| - 1];
      EndsTouch(rows[..|rows| - 1]);
      assert rows == rows[..|rows| - 1] + [last];
    }
  }

  /** `depths'` adds exactly the nodes of `ends`, all at this depth. */
  ghost predicate Marked(depths: map<Node, nat>, ends: set<Node>, depth: nat, depths': map<Node, nat>) {
    && depths'.Keys == depths.Keys + ends
    && forall v :: v in depths' ==> depths'[v] == (if v in depths then depths[v] else depth)
  }

  /** Every entry of `edgesById'` was there before or comes from the rows, under its own id, and every row has one. */
  ghost predicate Gathered(edgesById: map<int, Edge>, rows: seq<Edge>, edgesById': map<int, Edge>) {
    && (forall i :: i in edgesById' ==>
          (i in edgesById && edgesById'[i] == edgesById[i]) || (edgesById'[i] in rows && edgesById'[i].id == i))
    && (forall i :: i in edgesById ==> i in edgesById')
    && (forall e :: e in rows ==> e.id in edgesById')
  }

  lemma AddOne(m: map<int, Edge>, i: int, e: Edge)
    ensures |m[i := e]| <= |m| + 1
  {
    assert m[i := e].Keys == m.Keys + {i};
  }

  lemma GatherOne(edgesById: map<int, Edge>, rows: seq<Edge>, k: nat, m: map<int, Edge>)
    requires k < |rows| && Gathered(edgesById, rows[..k], m)
    ensures Gathered(edgesById, rows[..k + 1], m[rows[k].id := rows[k]]) && |m[rows[k].id := rows[k]]| <= |m| + 1
  {
    AddOne(m, rows[k].id, rows[k]);
    assert rows[..k + 1] == rows[..k] + [rows[k]];
  }

  method Visit(v: Node, depth: nat, ghost depths: map<Node, nat>, ghost ends: set<Node>, seen: map<Node, nat>, next: set<Node>)
    returns (seen': map<Node, nat>, next': set<Node>)
    requires Marked(depths, ends, depth, seen) && next == ends - depths.Keys
    ensures Marked(depths, ends + {v}, depth, seen') && next' == (ends + {v}) - depths.Keys
  {
    seen', next' := seen, next;
    if v !in seen {
      seen' := seen[v := depth];
      next' := next + {v};
    }
  }

  /** One level's rows: their unseen ends get this depth and form the next frontier. */
  method Absorb(rows: seq<Edge>, depth: nat, depths: map<Node, nat>, edgesById: map<int, Edge>)
    returns (depths': map<Node, nat>, edgesById': map<int, Edge>, next: set<Node>)
    ensures Marked(depths, Ends(rows), depth, depths') && next == Ends(rows) - depths.Keys
    ensures Gathered(edgesById, rows, edgesById') && |edgesById'| <= |edgesById| + |rows|
  {
    depths', edgesById', next := depths, edgesById, {};
    for k := 0 to |rows|
      invariant Marked(depths, Ends(rows[..k]), depth, depths') && next == Ends(rows[..k]) - depths.Keys
      invariant Gathered(edgesById, rows[..k], edgesById') && |edgesById'| <= |edgesById| + k
    {
      var edge := rows[k];
      GatherOne(edgesById, rows, k, edgesById');
      edgesById' := edgesById'[edge.id := edge];
      ghost var ends := Ends(rows[..k]);
      depths', next := Visit(edge.source, depth, depths, ends, depths', next);
      depths', next := Visit(edge.target, depth, depths, ends + {edge.source}, depths', next);
      EndsSnoc(rows, k);
    }
    assert rows[..|rows|] == rows;
  }

  lemma {:induction false} FewIds(table: seq<Edge>, ids: set<int>)
    requires forall i :: i in ids ==> exists k :: 0 <= k < |table| && table[k].id == i
    ensures |ids| <= |table|
  {
    if table == [] {
      assert forall i :: i !in ids;
      assert ids == {};
    } else {
      var k := |table| - 1;
      var rest := ids - {table[k].id};
      forall i | i in rest ensures exists j :: 0 <= j < |table[..k]| && table[..k][j].id == i {
        var j :| 0 <= j < |table| && table[j].id == i;
        assert table[..k][j].id == i;
      }
      FewIds(table[..k], rest);
    }
  }

  lemma LevelSound(
    table: seq<Edge>, relationships: set<string>, direction: Direction, start: Node, depths: map<Node, nat>, depths': map<Node, nat>,
    frontier: set<Node>, rows: seq<Edge>, depth: nat)
    requires Sound(Usable(table, relationships), direction, start, depths) && depth >= 1
    requires forall e :: e in rows ==> e in table && Selected(e, frontier, direction, relationships)
    requires forall v :: v in frontier ==> v in depths && depths[v] == depth - 1
    requires Marked(depths, Ends(rows), depth, depths')
    ensures Sound(Usable(table, relationships), direction, start, depths')
  {
    var usable := Usable(table, relationships);
    EndsTouch(rows);
    forall v | v in depths' ensures Reaches(usable, direction, start, v, depths'[v]) {
      if v !in depths {
        var e :| e in rows && (v == e.source || v == e.target);
        var u := if direction != Inbound && e.source in frontier then e.source else e.target;
        assert e in usable && Leads(e, direction, u, v);
        ReachesFurther(usable, direction, start, u, depth - 1, e, v);
      }
    }
  }

  lemma LevelExpanded(
    table: seq<Edge>, relationships: set<string>, direction: Direction, depths: map<Node, nat>, depths': map<Node, nat>,
    frontier: set<Node>, rows: seq<Edge>, depth: nat)
    requires Expanded(Usable(table, relationships), direction, depths, depth - 1) && depth >= 1
    requires forall e :: e in table && Selected(e, frontier, direction, relationships) ==> e in rows
    requires forall v :: v in depths && depths[v] == depth - 1 ==> v in frontier
    requires Marked(depths, Ends(rows), depth, depths')
    requires forall v :: v in depths ==> depths[v] <= depth
    ensures Expanded(Usable(table, relationships), direction, depths', depth)
  {
    var usable := Usable(table, relationships);
    EndsTouch(rows);
    forall u, e, v | u in depths' && depths'[u] < depth && e in usable && Leads(e, direction, u, v)
      ensures v in depths' && depths'[v] <= depths'[u] + 1
    {
      assert u in depths;
      if depths[u] == depth - 1 {
        assert Selected(e, frontier, direction, relationships);
        assert v in Ends(rows);
      }
    }
  }

  /** Every edge out of a node that has been expanded is reported. */
  ghost predicate Kept(usable: set<Edge>, direction: Direction, depths: map<Node, nat>, edgesById: map<int, Edge>, below: int) {
    forall u, e, v :: u in depths && depths[u] < below && e in usable && Leads(e, direction, u, v) ==> e.id in edgesById
  }

  lemma LevelKept(
    table: seq<Edge>, relationships: set<string>, direction: Direction, depths: map<Node, nat>, depths': map<Node, nat>,
    edgesById: map<int, Edge>, edgesById': map<int, Edge>, frontier: set<Node>, rows: seq<Edge>, depth: nat)
    requires Kept(Usable(table, relationships), direction, depths, edgesById, depth - 1) && depth >= 1
    requires forall e :: e in table && Selected(e, frontier, direction, relationships) ==> e in rows
    requires forall v :: v in depths && depths[v] == depth - 1 ==> v in frontier
    requires Marked(depths, Ends(rows), depth, depths') && Gathered(edgesById, rows, edgesById')
    ensures Kept(Usable(table, relationships), direction, depths', edgesById', depth)
  {
    var usable := Usable(table, relationships);
    forall u, e, v | u in depths' && depths'[u] < depth && e in usable && Leads(e, direction, u, v) ensures e.id in edgesById' {
      if depths[u] == depth - 1 {
        assert Selected(e, frontier, direction, relationships);
        assert e in rows;
      } else {
        assert e.id in edgesById;
      }
    }
  }

  lemma DepthsAreDistances(usable: set<Edge>, direction: Direction, start: Node, depths: map<Node, nat>, bound: int, v: Node, d: nat)
    requires Sound(usable, direction, start, depths) && start in depths && depths[start] == 0
    requires Expanded(usable, direction, depths, bound) && (forall u :: u in depths ==> u == start || depths[u] <= bound)
    ensures (v in depths && depths[v] == d) <==> ((d <= bound || d == 0) && IsDistance(usable, direction, start, v, d))
  {
    if v in depths && depths[v] == d {
      forall k: nat | k < d ensures !Reaches(usable, direction, start, v, k) {
        if Reaches(usable, direction, start, v, k) { ExpandedCovers(usable, direction, start, depths, bound, v, k); }
      }
    }
    if (d <= bound || d == 0) && IsDistance(usable, direction, start, v, d) {
      if d == 0 {
        var nodes, edges :| Walk(usable, direction, nodes, edges) && |edges| == 0 && nodes[0] == start && nodes[|edges|] == v;
      } else {
        ExpandedCovers(usable, direction, start, depths, bound, v, d);
      }
    }
  }

  // ---------------------------------------------------------------- what a search needs

  /** The nodes at a distance. */
  ghost function Ring(table: seq<Edge>, relationships: set<string>, direction: Direction, start: Node, d: nat): set<Node> {
    set v | v in {start} + Ends(table) && IsDistance(Usable(table, relationships), direction, start, v, d)
  }

  ghost function IdsOf(rows: seq<Edge>): set<int> { set e | e in rows :: e.id }

  /** The ids of all edges the levels up to the d-th select. */
  ghost function IdsWithin(table: seq<Edge>, relationships: set<string>, direction: Direction, start: Node, d: nat): set<int> {
    if d == 0 then {}
    else
      IdsWithin(table, relationships, direction, start, d - 1)
      + IdsOf(SelectedRows(table, Ring(table, relationships, direction, start, d - 1), direction, relationships))
  }

  /** The d-th level, if it has any node to start from, finds edges left in the budget and room for every row it selects. */
  ghost predicate LevelFits(table: seq<Edge>, relationships: set<string>, direction: Direction, start: Node, maxEdges: nat, d: nat)
    requires d >= 1
  {
    var ring := Ring(table, relationships, direction, start, d - 1);
    var used := |IdsWithin(table, relationships, direction, start, d - 1)|;
    ring != {} ==> used < maxEdges && used + |SelectedRows(table, ring, direction, relationships)| <= maxEdges
  }

  /** Every level up to the bound fits the edge budget. */
  ghost predicate Fits(table: seq<Edge>, relationships: set<string>, direction: Direction, start: Node, maxEdges: nat, bound: int) {
    forall d: nat :: 1 <= d <= bound ==> LevelFits(table, relationships, direction, start, maxEdges, d)
  }

  lemma ReachedIsEnd(table: seq<Edge>, relationships: set<string>, direction: Direction, start: Node, v: Node, length: nat)
    requires Reaches(Usable(table, relationships), direction, start, v, length)
    ensures v in {start} + Ends(table)
  {
    EndsTouch(table);
    if length == 0 {
      var nodes, edges :| Walk(Usable(table, relationships), direction, nodes, edges) && |edges| == 0 && nodes[0] == start && nodes[|edges|] == v;
    } else {
      var u, e := LastStep(Usable(table, relationships), direction, start, v, length);
    }
  }

  /** Beyond an empty level all levels are empty. */
  lemma {:induction false} EmptyRings(table: seq<Edge>, relationships: set<string>, direction: Direction, start: Node, d: nat, later: nat)
    requires Ring(table, relationships, direction, start, d) == {} && d <= later
    ensures Ring(table, relationships, direction, start, later) == {}
    decreases later
  {
    var usable := Usable(table, relationships);
    if d < later {
      EmptyRings(table, relationships, direction, start, d, later - 1);
      forall v | v in {start} + Ends(table) ensures !IsDistance(usable, direction, start, v, later) {
        if IsDistance(usable, direction, start, v, later) {
          var u, e := LastStep(usable, direction, start, v, later);
          forall k: nat | k < later - 1 ensures !Reaches(usable, direction, start, u, k) {
            if Reaches(usable, direction, start, u, k) { ReachesFurther(usable, direction, start, u, k, e, v); }
          }
          ReachedIsEnd(table, relationships, direction, start, u, later - 1);
        }
      }
    }
  }

  lemma EmptyFits(table: seq<Edge>, relationships: set<string>, direction: Direction, start: Node, maxEdges: nat, d: nat, bound: int)
    requires Fits(table, relationships, direction, start, maxEdges, d) && Ring(table, relationships, direction, start, d) == {}
    ensures Fits(table, relationships, direction, start, maxEdges, bound)
  {
    forall k: nat | 1 <= k <= bound ensures LevelFits(table, relationships, direction, start, maxEdges, k) {
      if k > d { EmptyRings(table, relationships, direction, start, d, k - 1); }
    }
  }

  /** Where the search stands before a level, whatever was cut. */
  ghost predicate Standing(
    usable: set<Edge>, direction: Direction, start: Node, maxEdges: nat,
    depth: nat, depths: map<Node, nat>, edgesById: map<int, Edge>, frontier: set<Node>)
  {
    && depth >= 1 && start in depths && depths[start] == 0 && Sound(usable, direction, start, depths)
    && (forall v :: v in depths ==> depths[v] < depth)
    && (forall v :: v in frontier <==> v in depths && depths[v] == depth - 1)
    && (forall i :: i in edgesById ==> edgesById[i] in usable && edgesById[i].id == i) && |edgesById| <= maxEdges
  }

  /** What it has seen when nothing was cut: the rings so far and the edges between them. */
  ghost predicate Complete(
    table: seq<Edge>, relationships: set<string>, direction: Direction, start: Node,
    depth: nat, depths: map<Node, nat>, edgesById: map<int, Edge>, frontier: set<Node>)
    requires depth >= 1
  {
    var usable := Usable(table, relationships);
    && Expanded(usable, direction, depths, depth - 1) && Kept(usable, direction, depths, edgesById, depth - 1)
    && frontier == Ring(table, relationships, direction, start, depth - 1)
    && edgesById.Keys == IdsWithin(table, relationships, direction, start, depth - 1)
  }

  lemma StandsAtStart(table: seq<Edge>, relationships: set<string>, direction: Direction, start: Node, maxEdges: nat)
    ensures Standing(Usable(table, relationships), direction, start, maxEdges, 1, map[start := 0], map[], {start})
    ensures Complete(table, relationships, direction, start, 1, map[start := 0], map[], {start})
  {
    var usable := Usable(table, relationships);
    ReachesItself(usable, direction, start);
    forall v | v in Ring(table, relationships, direction, start, 0) ensures v == start {
      var nodes, edges :| Walk(usable, direction, nodes, edges) && |edges| == 0 && nodes[0] == start && nodes[|edges|] == v;
    }
    assert start in Ring(table, relationships, direction, start, 0);
  }

  /** After an uncut level the next frontier is the next ring. */
  lemma FrontierIsRing(
    table: seq<Edge>, relationships: set<string>, direction: Direction, start: Node, depths: map<Node, nat>, frontier: set<Node>, d: nat)
    requires Sound(Usable(table, relationships), direction, start, depths) && start in depths && depths[start] == 0
    requires Expanded(Usable(table, relationships), direction, depths, d) && forall v :: v in depths ==> depths[v] <= d
    requires forall v :: v in frontier <==> v in depths && depths[v] == d
    ensures frontier == Ring(table, relationships, direction, start, d)
  {
    var usable := Usable(table, relationships);
    forall v ensures v in frontier <==> v in Ring(table, relationships, direction, start, d) {
      DepthsAreDistances(usable, direction, start, depths, d, v, d);
      if v in frontier { ReachedIsEnd(table, relationships, direction, start, v, d); }
    }
  }

  /** The level's rows and what is made of them lead to the next standing. */
  lemma LevelStands(
    table: seq<Edge>, relationships: set<string>, direction: Direction, start: Node, maxEdges: nat,
    depth: nat, depths: map<Node, nat>, edgesById: map<int, Edge>, frontier: set<Node>,
    rows: seq<Edge>, depths': map<Node, nat>, edgesById': map<int, Edge>, next: set<Node>)
    requires Standing(Usable(table, relationships), direction, start, maxEdges, depth, depths, edgesById, frontier)
    requires forall e :: e in rows ==> e in table && Selected(e, frontier, direction, relationships)
    requires Marked(depths, Ends(rows), depth, depths') && next == Ends(rows) - depths.Keys
    requires Gathered(edgesById, rows, edgesById') && |edgesById'| <= maxEdges
    ensures Standing(Usable(table, relationships), direction, start, maxEdges, depth + 1, depths', edgesById', next)
  {
    LevelSound(table, relationships, direction, start, depths, depths', frontier, rows, depth);
  }

  /** An uncut level completes one more ring. */
  lemma LevelCompletes(
    table: seq<Edge>, relationships: set<string>, direction: Direction, start: Node, maxEdges: nat,
    depth: nat, depths: map<Node, nat>, edgesById: map<int, Edge>, frontier: set<Node>,
    rows: seq<Edge>, depths': map<Node, nat>, edgesById': map<int, Edge>, next: set<Node>)
    requires Standing(Usable(table, relationships), direction, start, maxEdges, depth, depths, edgesById, frontier)
    requires Standing(Usable(table, relationships), direction, start, maxEdges, depth + 1, depths', edgesById', next)
    requires Complete(table, relationships, direction, start, depth, depths, edgesById, frontier)
    requires rows == SelectedRows(table, frontier, direction, relationships)
    requires Marked(depths, Ends(rows), depth, depths') && Gathered(edgesById, rows, edgesById')
    ensures Complete(table, relationships, direction, start, depth + 1, depths', edgesById', next)
  {
    SelectedMembers(table, frontier, direction, relationships);
    LevelExpanded(table, relationships, direction, depths, depths', frontier, rows, depth);
    LevelKept(table, relationships, direction, depths, depths', edgesById, edgesById', frontier, rows, depth);
    FrontierIsRing(table, relationships, direction, start, depths', next, depth);
    GatheredKeys(edgesById, rows, edgesById');
  }

  lemma GatheredKeys(edgesById: map<int, Edge>, rows: seq<Edge>, edgesById': map<int, Edge>)
    requires Gathered(edgesById, rows, edgesById')
    ensures edgesById'.Keys == edgesById.Keys + IdsOf(rows)
  {
    forall i ensures i in edgesById'.Keys <==> i in edgesById.Keys + IdsOf(rows) {
      if i in edgesById' && i !in edgesById {
        assert edgesById'[i] in rows && edgesById'[i].id == i;
      }
    }
  }

  /** A level cuts exactly when it does not fit, and the first that does not fit is where all that fit ends. */
  lemma LevelBudget(table: seq<Edge>, relationships: set<string>, direction: Direction, start: Node, maxEdges: nat, depth: nat, used: nat, frontier: set<Node>)
    requires depth >= 1 && Fits(table, relationships, direction, start, maxEdges, depth - 1)
    requires frontier == Ring(table, relationships, direction, start, depth - 1) && frontier != {}
    requires used == |IdsWithin(table, relationships, direction, start, depth - 1)|
    ensures Fits(table, relationships, direction, start, maxEdges, depth)
       <==> used < maxEdges && |SelectedRows(table, frontier, direction, relationships)| <= maxEdges - used
  {
    assert LevelFits(table, relationships, direction, start, maxEdges, depth)
      <==> used < maxEdges && used + |SelectedRows(table, frontier, direction, relationships)| <= maxEdges;
  }

  lemma FitsLess(table: seq<Edge>, relationships: set<string>, direction: Direction, start: Node, maxEdges: nat, fewer: int, bound: int)
    requires fewer <= bound && Fits(table, relationships, direction, start, maxEdges, bound)
    ensures Fits(table, relationships, direction, start, maxEdges, fewer)
  {}

  /** A complete search whose frontier is empty is complete to any bound. */
  lemma NothingBeyond(
    table: seq<Edge>, relationships: set<string>, direction: Direction, start: Node, maxEdges: nat,
    depth: nat, depths: map<Node, nat>, edgesById: map<int, Edge>, bound: int)
    requires Standing(Usable(table, relationships), direction, start, maxEdges, depth, depths, edgesById, {})
    requires Complete(table, relationships, direction, start, depth, depths, edgesById, {})
    ensures Expanded(Usable(table, relationships), direction, depths, bound) && Kept(Usable(table, relationships), direction, depths, edgesById, bound)
  {
    assert forall v :: v in depths ==> depths[v] < depth - 1;
  }

  lemma {:induction false} FewWithin(table: seq<Edge>, relationships: set<string>, direction: Direction, start: Node, d: nat)
    ensures |IdsWithin(table, relationships, direction, start, d)| <= |table|
  {
    var ids := IdsWithin(table, relationships, direction, start, d);
    IdsFromTable(table, relationships, direction, start, d);
    forall i | i in ids ensures exists k :: 0 <= k < |table| && table[k].id == i {
      var e :| e in table && e.id == i;
    }
    FewIds(table, ids);
  }

  lemma {:induction false} IdsFromTable(table: seq<Edge>, relationships: set<string>, direction: Direction, start: Node, d: nat)
    ensures forall i :: i in IdsWithin(table, relationships, direction, start, d) ==> exists e :: e in table && e.id == i
  {
    if d > 0 {
      IdsFromTable(table, relationships, direction, start, d - 1);
      SelectedMembers(table, Ring(table, relationships, direction, start, d - 1), direction, relationships);
    }
  }

  lemma FewGathered(
    table: seq<Edge>, relationships: set<string>, direction: Direction, start: Node, maxEdges: nat,
    depth: nat, depths: map<Node, nat>, edgesById: map<int, Edge>, frontier: set<Node>)
    requires Standing(Usable(table, relationships), direction, start, maxEdges, depth, depths, edgesById, frontier)
    ensures |edgesById| <= |table|
  {
    forall i | i in edgesById.Keys ensures exists k :: 0 <= k < |table| && table[k].id == i {
      assert edgesById[i] in table;
    }
    FewIds(table, edgesById.Keys);
  }

  lemma AmpleLevelFits(table: seq<Edge>, relationships: set<string>, direction: Direction, start: Node, maxEdges: nat, d: nat)
    requires d >= 1 && 2 * |table| < maxEdges
    ensures LevelFits(table, relationships, direction, start, maxEdges, d)
  {
    FewWithin(table, relationships, direction, start, d - 1);
    SelectedMembers(table, Ring(table, relationships, direction, start, d - 1), direction, relationships);
  }

  /** A budget of more than twice the table fits every search, so nothing is cut. */
  lemma AmpleBudgetFits(table: seq<Edge>, relationships: set<string>, direction: Direction, start: Node, maxEdges: nat, bound: int)
    requires 2 * |table| < maxEdges
    ensures Fits(table, relationships, direction, start, maxEdges, bound)
  {
    forall d: nat | 1 <= d <= bound ensures LevelFits(table, relationships, direction, start, maxEdges, d) {
      AmpleLevelFits(table, relationships, direction, start, maxEdges, d);
    }
  }

  /** The reported nodes are exactly those within the bound, each at its distance. */
  ghost predicate Exact(usable: set<Edge>, direction: Direction, start: Node, depths: map<Node, nat>, bound: int) {
    forall v, d: nat :: (v in depths && depths[v] == d) <==> ((d <= bound || d == 0) && IsDistance(usable, direction, start, v, d))
  }

  lemma AllDistances(usable: set<Edge>, direction: Direction, start: Node, depths: map<Node, nat>, bound: int)
    requires Sound(usable, direction, start, depths) && start in depths && depths[start] == 0
    requires Expanded(usable, direction, depths, bound) && (forall u :: u in depths ==> u == start || depths[u] <= bound)
    ensures Exact(usable, direction, start, depths, bound)
  {
    forall v, d: nat
      ensures (v in depths && depths[v] == d) <==> ((d <= bound || d == 0) && IsDistance(usable, direction, start, v, d))
    {
      DepthsAreDistances(usable, direction, start, depths, bound, v, d);
    }
  }

  /** Only the start is reached in no steps, so no other node is reported beyond a bound the loop has reached. */
  lemma WithinBound(usable: set<Edge>, direction: Direction, start: Node, depths: map<Node, nat>, depth: nat, bound: int)
    requires Sound(usable, direction, start, depths) && (forall v :: v in depths ==> depths[v] < depth)
    requires depth == 1 || depth <= bound + 1
    ensures forall u :: u in depths ==> u == start || depths[u] <= bound
  {
    forall u | u in depths && depths[u] > bound ensures u == start {
      var nodes, edges :| Walk(usable, direction, nodes, edges) && |edges| == depths[u] && nodes[0] == start && nodes[|edges|] == u;
    }
  }

  function Bounded(maxDepth: int, depthLimit: int): (bound: int)
    ensures bound <= maxDepth && bound <= depthLimit && bound in {maxDepth, depthLimit}
  {
    if maxDepth <= depthLimit then maxDepth else depthLimit
  }

  /** What is known before a level: that an earlier one did not fit, or that everything so far is complete. */
  ghost predicate Before(
    table: seq<Edge>, relationships: set<string>, direction: Direction, start: Node, maxEdges: nat,
    depth: nat, depths: map<Node, nat>, edgesById: map<int, Edge>, frontier: set<Node>, cut: bool)
    requires depth >= 1
  {
    if cut then !Fits(table, relationships, direction, start, maxEdges, depth - 1)
    else
      && Fits(table, relationships, direction, start, maxEdges, depth - 1)
      && Complete(table, relationships, direction, start, depth, depths, edgesById, frontier)
  }

  /** What is known about a search up to a bound: where it does not fit, or that it is complete. */
  ghost predicate Settled(
    table: seq<Edge>, relationships: set<string>, direction: Direction, start: Node, maxEdges: nat,
    depths: map<Node, nat>, edgesById: map<int, Edge>, cut: bool, bound: int)
  {
    if cut then !Fits(table, relationships, direction, start, maxEdges, bound)
    else
      && Fits(table, relationships, direction, start, maxEdges, bound)
      && Expanded(Usable(table, relationships), direction, depths, bound) && Kept(Usable(table, relationships), direction, depths, edgesById, bound)
  }

  lemma StopEarly(
    table: seq<Edge>, relationships: set<string>, direction: Direction, start: Node, maxEdges: nat,
    depth: nat, depths: map<Node, nat>, edgesById: map<int, Edge>, frontier: set<Node>, cut: bool, bound: int)
    returns (cut': bool)
    requires Standing(Usable(table, relationships), direction, start, maxEdges, depth, depths, edgesById, frontier)
    requires depth <= bound && (frontier == {} || |edgesById| >= maxEdges)
    requires Before(table, relationships, direction, start, maxEdges, depth, depths, edgesById, frontier, cut)
    ensures Settled(table, relationships, direction, start, maxEdges, depths, edgesById, cut', bound) && cut' == (cut || frontier != {})
  {
    cut' := cut || frontier != {};
    if cut {
      if Fits(table, relationships, direction, start, maxEdges, bound) { FitsLess(table, relationships, direction, start, maxEdges, depth - 1, bound); }
    } else if frontier == {} {
      EmptyFits(table, relationships, direction, start, maxEdges, depth - 1, bound);
      NothingBeyond(table, relationships, direction, start, maxEdges, depth, depths, edgesById, bound);
    } else {
      LevelBudget(table, relationships, direction, start, maxEdges, depth, |edgesById.Keys|, frontier);
      if Fits(table, relationships, direction, start, maxEdges, bound) { FitsLess(table, relationships, direction, start, maxEdges, depth, bound); }
    }
  }

  lemma CutHere(
    table: seq<Edge>, relationships: set<string>, direction: Direction, start: Node, maxEdges: nat,
    depth: nat, depths: map<Node, nat>, edgesById: map<int, Edge>, frontier: set<Node>, cut: bool,
    rows: seq<Edge>, levelCut: bool, depths': map<Node, nat>, edgesById': map<int, Edge>, next: set<Node>)
    returns (cut': bool)
    requires Standing(Usable(table, relationships), direction, start, maxEdges, depth, depths, edgesById, frontier)
    requires Standing(Usable(table, relationships), direction, start, maxEdges, depth + 1, depths', edgesById', next)
    requires frontier != {} && |edgesById| < maxEdges
    requires Before(table, relationships, direction, start, maxEdges, depth, depths, edgesById, frontier, cut)
    requires !levelCut ==> rows == SelectedRows(table, frontier, direction, relationships)
    requires levelCut <==> |SelectedRows(table, frontier, direction, relationships)| > maxEdges - |edgesById|
    requires Marked(depths, Ends(rows), depth, depths') && Gathered(edgesById, rows, edgesById')
    ensures Before(table, relationships, direction, start, maxEdges, depth + 1, depths', edgesById', next, cut') && (cut ==> cut')
  {
    cut' := cut || levelCut;
    if cut {
      if Fits(table, relationships, direction, start, maxEdges, depth) { FitsLess(table, relationships, direction, start, maxEdges, depth - 1, depth); }
    } else {
      LevelBudget(table, relationships, direction, start, maxEdges, depth, |edgesById.Keys|, frontier);
      assert |edgesById| == |edgesById.Keys|;
      if !levelCut {
        LevelCompletes(table, relationships, direction, start, maxEdges, depth, depths, edgesById, frontier, rows, depths', edgesById', next);
      }
    }
  }

  lemma Finished(
    table: seq<Edge>, relationships: set<string>, direction: Direction, start: Node, maxEdges: nat,
    depth: nat, depths: map<Node, nat>, edgesById: map<int, Edge>, frontier: set<Node>, cut: bool, below: int, bound: int)
    requires Standing(Usable(table, relationships), direction, start, maxEdges, depth, depths, edgesById, frontier)
    requires depth == 1 || depth <= bound + 1
    requires below == bound || (below == 0 && bound <= 0)
    requires Settled(table, relationships, direction, start, maxEdges, depths, edgesById, cut, below)
    ensures |edgesById| <= |table| && forall v :: v in depths ==> v == start || depths[v] <= bound
    ensures cut <==> !Fits(table, relationships, direction, start, maxEdges, bound)
    ensures !cut ==> Exact(Usable(table, relationships), direction, start, depths, bound)
    ensures !cut ==> Kept(Usable(table, relationships), direction, depths, edgesById, bound)
  {
    FewGathered(table, relationships, direction, start, maxEdges, depth, depths, edgesById, frontier);
    WithinBound(Usable(table, relationships), direction, start, depths, depth, bound);
    if !cut { AllDistances(Usable(table, relationships), direction, start, depths, bound); }
  }

  /** Where the loop stands: with nothing cut, every level so far started from some node. */
  ghost predicate Started(
    table: seq<Edge>, relationships: set<string>, direction: Direction, start: Node, depth: nat, cut: bool)
  {
    !cut && depth >= 2 ==> Ring(table, relationships, direction, start, depth - 2) != {}
  }

  /**
   What `truncated` says after `levels` levels: that the edge budget was used up before the last level. Before that the
   search only stops where no node is left to start from.
   */
  ghost predicate StopsAt(depths: map<Node, nat>, edgesById: map<int, Edge>, maxEdges: nat, truncated: bool, levels: nat, bound: int) {
    && (levels == 0 || levels <= bound) && (forall v :: v in depths ==> depths[v] <= levels)
    && (truncated <==> levels < bound && |edgesById| == maxEdges)
    && (levels < bound && |edgesById| < maxEdges ==> forall v :: v in depths ==> depths[v] < levels)
  }

  /** With nothing cut, `truncated` only says that the last level had no node to start from and the budget is used up exactly. */
  ghost predicate FullAnyway(
    table: seq<Edge>, relationships: set<string>, direction: Direction, start: Node, edgesById: map<int, Edge>, maxEdges: nat, truncated: bool, bound: int)
  {
    truncated <==> bound >= 1 && |edgesById| == maxEdges && Ring(table, relationships, direction, start, bound - 1) == {}
  }

  /** The loop stops before the bound. */
  lemma StopHere(
    table: seq<Edge>, relationships: set<string>, direction: Direction, start: Node, maxEdges: nat,
    depth: nat, depths: map<Node, nat>, edgesById: map<int, Edge>, frontier: set<Node>, cut: bool, bound: int)
    returns (cut': bool)
    requires Standing(Usable(table, relationships), direction, start, maxEdges, depth, depths, edgesById, frontier)
    requires depth <= bound && (frontier == {} || |edgesById| >= maxEdges)
    requires Before(table, relationships, direction, start, maxEdges, depth, depths, edgesById, frontier, cut)
    ensures Settled(table, relationships, direction, start, maxEdges, depths, edgesById, cut', bound)
    ensures StopsAt(depths, edgesById, maxEdges, |edgesById| >= maxEdges, depth - 1, bound)
    ensures !cut' ==> FullAnyway(table, relationships, direction, start, edgesById, maxEdges, |edgesById| >= maxEdges, bound)
  {
    cut' := StopEarly(table, relationships, direction, start, maxEdges, depth, depths, edgesById, frontier, cut, bound);
    if !cut' { EmptyRings(table, relationships, direction, start, depth - 1, bound - 1); }
  }

  /** The loop has run all its levels. */
  lemma RanAll(
    table: seq<Edge>, relationships: set<string>, direction: Direction, start: Node, maxEdges: nat,
    depth: nat, depths: map<Node, nat>, edgesById: map<int, Edge>, frontier: set<Node>, cut: bool, bound: int)
    requires Standing(Usable(table, relationships), direction, start, maxEdges, depth, depths, edgesById, frontier)
    requires (depth == 1 || depth <= bound + 1) && depth > bound && Started(table, relationships, direction, start, depth, cut)
    ensures StopsAt(depths, edgesById, maxEdges, false, depth - 1, bound)
    ensures !cut ==> FullAnyway(table, relationships, direction, start, edgesById, maxEdges, false, bound)
  {}

  /** The search before a level: what stands, what is known, and that it has started from some node each time. */
  ghost predicate Underway(
    table: seq<Edge>, relationships: set<string>, direction: Direction, start: Node, maxEdges: nat,
    depth: nat, depths: map<Node, nat>, edgesById: map<int, Edge>, frontier: set<Node>, cut: bool)
  {
    && depth >= 1 && Standing(Usable(table, relationships), direction, start, maxEdges, depth, depths, edgesById, frontier)
    && Before(table, relationships, direction, start, maxEdges, depth, depths, edgesById, frontier, cut)
    && Started(table, relationships, direction, start, depth, cut)
  }

  /** The search after its last level. */
  ghost predicate Over(
    table: seq<Edge>, relationships: set<string>, direction: Direction, start: Node, maxEdges: nat,
    depth: nat, depths: map<Node, nat>, edgesById: map<int, Edge>, frontier: set<Node>, truncated: bool, cut: bool, bound: int)
  {
    && depth >= 1 && Standing(Usable(table, relationships), direction, start, maxEdges, depth, depths, edgesById, frontier)
    && (depth == 1 || depth <= bound + 1)
    && Settled(table, relationships, direction, start, maxEdges, depths, edgesById, cut, if depth <= bound then bound else depth - 1)
    && StopsAt(depths, edgesById, maxEdges, truncated, depth - 1, bound)
    && (!cut ==> FullAnyway(table, relationships, direction, start, edgesById, maxEdges, truncated, bound))
  }

  lemma UnderwayAtStart(table: seq<Edge>, relationships: set<string>, direction: Direction, start: Node, maxEdges: nat)
    ensures Underway(table, relationships, direction, start, maxEdges, 1, map[start := 0], map[], {start}, false)
  {
    StandsAtStart(table, relationships, direction, start, maxEdges);
  }

  lemma StoppedIsOver(
    table: seq<Edge>, relationships: set<string>, direction: Direction, start: Node, maxEdges: nat,
    depth: nat, depths: map<Node, nat>, edgesById: map<int, Edge>, frontier: set<Node>, cut: bool, bound: int)
    returns (cut': bool)
    requires Underway(table, relationships, direction, start, maxEdges, depth, depths, edgesById, frontier, cut)
    requires depth <= bound && (frontier == {} || |edgesById| >= maxEdges)
    ensures Over(table, relationships, direction, start, maxEdges, depth, depths, edgesById, frontier, |edgesById| >= maxEdges, cut', bound)
  {
    cut' := StopHere(table, relationships, direction, start, maxEdges, depth, depths, edgesById, frontier, cut, bound);
  }

  lemma RunIsOver(
    table: seq<Edge>, relationships: set<string>, direction: Direction, start: Node, maxEdges: nat,
    depth: nat, depths: map<Node, nat>, edgesById: map<int, Edge>, frontier: set<Node>, cut: bool, bound: int)
    requires Underway(table, relationships, direction, start, maxEdges, depth, depths, edgesById, frontier, cut)
    requires (depth == 1 || depth <= bound + 1) && depth > bound
    ensures Over(table, relationships, direction, start, maxEdges, depth, depths, edgesById, frontier, false, cut, bound)
  {
    RanAll(table, relationships, direction, start, maxEdges, depth, depths, edgesById, frontier, cut, bound);
  }

  /** One pass of the loop: the level's rows, and their unseen ends. */
  method Level(
    table: seq<Edge>, relationships: set<string>, direction: Direction, ghost start: Node, maxEdges: nat,
    depth: nat, depths: map<Node, nat>, edgesById: map<int, Edge>, frontier: set<Node>, ghost cut: bool)
    returns (depths': map<Node, nat>, edgesById': map<int, Edge>, next: set<Node>, ghost cut': bool)
    requires Underway(table, relationships, direction, start, maxEdges, depth, depths, edgesById, frontier, cut)
    requires frontier != {} && |edgesById| < maxEdges
    ensures Underway(table, relationships, direction, start, maxEdges, depth + 1, depths', edgesById', next, cut')
    ensures Standing(Usable(table, relationships), direction, start, maxEdges, depth + 1, depths', edgesById', next)
  {
    var rows, levelCut := Fetch(table, frontier, direction, relationships, maxEdges - |edgesById|);
    depths', edgesById', next := Absorb(rows, depth, depths, edgesById);
    LevelStands(table, relationships, direction, start, maxEdges, depth, depths, edgesById, frontier, rows, depths', edgesById', next);
    cut' := CutHere(table, relationships, direction, start, maxEdges, depth, depths, edgesById, frontier, cut, rows, levelCut, depths', edgesById', next);
  }

  /** All levels up to a bound. */
  method Levels(table: seq<Edge>, relationships: set<string>, direction: Direction, start: Node, maxEdges: nat, bound: int)
    returns (depth: nat, depths: map<Node, nat>, edgesById: map<int, Edge>, frontier: set<Node>, truncated: bool, ghost cut: bool)
    ensures Over(table, relationships, direction, start, maxEdges, depth, depths, edgesById, frontier, truncated, cut, bound)
    ensures (depth == 1 || depth <= bound + 1) && (truncated <==> depth <= bound && |edgesById| >= maxEdges)
  {
    depth, depths, edgesById, frontier, truncated, cut := 1, map[start := 0], map[], {start}, false, false;
    UnderwayAtStart(table, relationships, direction, start, maxEdges);
    while depth <= bound
      invariant Underway(table, relationships, direction, start, maxEdges, depth, depths, edgesById, frontier, cut)
      invariant (depth == 1 || depth <= bound + 1) && !truncated
    {
      if frontier == {} || |edgesById| >= maxEdges {
        truncated := |edgesById| >= maxEdges;
        cut := StoppedIsOver(table, relationships, direction, start, maxEdges, depth, depths, edgesById, frontier, cut, bound);
        return;
      }
      depths, edgesById, frontier, cut := Level(table, relationships, direction, start, maxEdges, depth, depths, edgesById, frontier, cut);
      depth := depth + 1;
    }
    RunIsOver(table, relationships, direction, start, maxEdges, depth, depths, edgesById, frontier, cut, bound);
  }

  /**
   The breadth-first search. A reported depth is always the length of some walk. Nothing is cut exactly when every level
   fits the edge budget; then the reported nodes are exactly those within the bound, at their distances, and every edge
   out of a node below the bound is reported. `truncated` is another matter: it says that the edge budget was used up before
   the last level, so a search cut by its last LIMIT is not truncated, and one that filled its budget exactly may be.
   */
  method QueryGraph(
    table: seq<Edge>, start: Node, maxDepth: int, depthLimit: int, direction: Direction, relationships: set<string>, maxEdges: nat)
    returns (depths: map<Node, nat>, edgesById: map<int, Edge>, truncated: bool, ghost cut: bool, ghost levels: nat)
    ensures Sound(Usable(table, relationships), direction, start, depths)
    ensures forall v :: v in depths ==> v == start || depths[v] <= Bounded(maxDepth, depthLimit)
    ensures forall i :: i in edgesById ==> edgesById[i] in Usable(table, relationships) && edgesById[i].id == i
    ensures |edgesById| <= maxEdges && |edgesById| <= |table|
    ensures cut <==> !Fits(table, relationships, direction, start, maxEdges, Bounded(maxDepth, depthLimit))
    ensures !cut ==> Exact(Usable(table, relationships), direction, start, depths, Bounded(maxDepth, depthLimit))
    ensures !cut ==> Kept(Usable(table, relationships), direction, depths, edgesById, Bounded(maxDepth, depthLimit))
    ensures StopsAt(depths, edgesById, maxEdges, truncated, levels, Bounded(maxDepth, depthLimit))
    ensures !cut ==> FullAnyway(table, relationships, direction, start, edgesById, maxEdges, truncated, Bounded(maxDepth, depthLimit))
  {
    var boundedDepth := Bounded(maxDepth, depthLimit);
    var depth, frontier;
    depth, depths, edgesById, frontier, truncated, cut := Levels(table, relationships, direction, start, maxEdges, boundedDepth);
    levels := depth - 1;
    Finished(table, relationships, direction, start, maxEdges, depth, depths, edgesById, frontier, cut, if depth <= boundedDepth then boundedDepth else depth - 1, boundedDepth);
  }
}
