/** Typed edges between typed nodes, and walks along them in a chosen direction. */
module Graph {

  datatype Node = Node(kind: string, id: string)

  /** A row of graph_edges of one tenant. */
  datatype Edge = Edge(id: int, source: Node, relationship: string, target: Node)

  datatype Direction = Outbound | Inbound | Both

  predicate Leaves(e: Edge, from: Node, direction: Direction) {
    (direction != Inbound && e.source == from) || (direction != Outbound && e.target == from)
  }

  /** The other end of an edge; an edge that starts here is taken forwards. */
  function OtherEnd(e: Edge, from: Node): Node {
    if e.source == from then e.target else e.source
  }

  predicate Related(e: Edge, relationships: set<string>) {
    relationships == {} || e.relationship in relationships
  }

  ghost function Rows(table: seq<Edge>): set<Edge> { set e | e in table }

  /** Edge e leads from a to b in the given direction. */
  predicate Leads(e: Edge, direction: Direction, a: Node, b: Node) {
    (direction != Inbound && e.source == a && e.target == b) || (direction != Outbound && e.target == a && e.source == b)
  }

  /** The walk visits nodes[0], nodes[1], ... along edges[0], edges[1], ... of the table. */
  ghost predicate Walk(table: set<Edge>, direction: Direction, nodes: seq<Node>, edges: seq<Edge>) {
    && |nodes| == |edges| + 1
    && forall i :: 0 <= i < |edges| ==> edges[i] in table && Leads(edges[i], direction, nodes[i], nodes[i + 1])
  }

  /** Some walk of exactly `length` edges leads from start to node. */
  ghost predicate Reaches(table: set<Edge>, direction: Direction, start: Node, node: Node, length: nat) {
    exists nodes, edges ::
      Walk(table, direction, nodes, edges) && |edges| == length && nodes[0] == start && nodes[|edges|] == node
  }

  /** The length of a shortest walk. */
  ghost predicate IsDistance(table: set<Edge>, direction: Direction, start: Node, node: Node, d: nat) {
    Reaches(table, direction, start, node, d) && forall k: nat :: k < d ==> !Reaches(table, direction, start, node, k)
  }

  lemma ReachesItself(table: set<Edge>, direction: Direction, start: Node)
    ensures Reaches(table, direction, start, start, 0)
  {
    assert Walk(table, direction, [start], []);
    assert [start][0] == start;
  }

  lemma ReachesFurther(table: set<Edge>, direction: Direction, start: Node, a: Node, length: nat, e: Edge, b: Node)
    requires Reaches(table, direction, start, a, length) && e in table && Leads(e, direction, a, b)
    ensures Reaches(table, direction, start, b, length + 1)
  {
    var nodes, edges :|
      Walk(table, direction, nodes, edges) && |edges| == length && nodes[0] == start && nodes[|edges|] == a;
    var nodes', edges' := nodes + [b], edges + [e];
    assert Walk(table, direction, nodes', edges');
    assert nodes'[0] == start && nodes'[|edges'|] == b;
  }

  lemma LastStep(table: set<Edge>, direction: Direction, start: Node, b: Node, length: nat) returns (a: Node, e: Edge)
    requires length > 0 && Reaches(table, direction, start, b, length)
    ensures Reaches(table, direction, start, a, length - 1) && e in table && Leads(e, direction, a, b)
  {
    var nodes, edges :|
      Walk(table, direction, nodes, edges) && |edges| == length && nodes[0] == start && nodes[|edges|] == b;
    a, e := nodes[length - 1], edges[length - 1];
    var nodes', edges' := nodes[..length], edges[..length - 1];
    assert Walk(table, direction, nodes', edges');
    assert nodes'[0] == start && nodes'[|edges'|] == a;
  }
}
