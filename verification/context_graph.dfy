/** Contexts of stored graphs. Every edge is found from both of its ends, and this makes a
    smaller row limit enough when few keys are within reach. */
module ContextGraph {
  import opened Basics
  import opened ContextOrder
  import opened ContextExpansion
  import opened GraphContext
  import opened ContextRoom

  // ------------------------------------------------------------------ stored graphs

  datatype Edge = Edge(source: Node, relation: string, target: Node)

  predicate Named(n: Node) { n.kind != "" && n.id != "" && ':' !in n.kind }

  function HitOf(n: Node): Hit { Hit(n.kind, n.id, None, "") }

  /** The neighbours one query asks for: the targets of edges that leave the node, or the
      sources of those that arrive. */
  function Neighbours(edges: seq<Edge>, n: Node, relation: string, direction: string): seq<Hit> {
    if edges == [] then []
    else
      var e := edges[0];
      (if e.relation == relation && direction == "outgoing" && e.source == n then [HitOf(e.target)]
       else if e.relation == relation && direction == "incoming" && e.target == n then [HitOf(e.source)]
       else [])
      + Neighbours(edges[1..], n, relation, direction)
  }

  /** The edges, and the order in which a query finds neighbours. */
  datatype Store = Store(edges: seq<Edge>, answers: (Node, string, string) -> seq<Hit>)

  ghost predicate Proper(st: Store) {
    && (forall i :: 0 <= i < |st.edges| ==> Named(st.edges[i].source) && Named(st.edges[i].target) && ':' !in st.edges[i].relation)
    && (forall n, r, d :: multiset(st.answers(n, r, d)) == multiset(Neighbours(st.edges, n, r, d)))
  }

  function Cut(hits: seq<Hit>, limit: nat): seq<Hit> {
    if |hits| <= limit then hits else hits[..limit]
  }

  /** Every query is answered from the store, up to its limit. */
  ghost predicate Serves(st: Store, s: Search) {
    forall n, r, d, most :: s.query(n, r, d, most) == Some(Cut(st.answers(n, r, d), most))
  }

  ghost predicate IsGraph(s: Search) {
    exists st :: Proper(st) && Serves(st, s)
  }

  // ------------------------------------------------------------ both ends of an edge

  function Opposite(direction: string): string {
    if direction == "outgoing" then "incoming" else "outgoing"
  }

  lemma {:induction false} FoundFromBothEnds(edges: seq<Edge>, n: Node, relation: string, direction: string, m: Node)
    requires direction in DIRECTIONS
    ensures HitOf(m) in Neighbours(edges, n, relation, direction) <==> HitOf(n) in Neighbours(edges, m, relation, Opposite(direction))
    decreases |edges|
  {
    assert direction == "outgoing" || direction == "incoming";
    assert "outgoing"[0] != "incoming"[0];
    if edges != [] { FoundFromBothEnds(edges[1..], n, relation, direction, m); }
  }

  lemma {:induction false} FoundAreNamed(edges: seq<Edge>, n: Node, relation: string, direction: string, h: Hit)
    requires forall i :: 0 <= i < |edges| ==> Named(edges[i].source) && Named(edges[i].target) && ':' !in edges[i].relation
    requires h in Neighbours(edges, n, relation, direction)
    ensures Named(n) && Named(Node(h.kind, h.id)) && h == HitOf(Node(h.kind, h.id))
    decreases |edges|
  {
    hide Named;
    if h in Neighbours(edges[1..], n, relation, direction) { FoundAreNamed(edges[1..], n, relation, direction, h); }
  }

  function RowHit(row: Row): Hit { Hit(row.kind, row.id, row.childIndex, row.columns) }

  /** The same edge, found from its other end. */
  function Mirrored(n: Node, row: Row): Row {
    Row(Opposite(row.direction), row.relation, n.kind, n.id, None, "")
  }

  lemma InStore(st: Store, s: Search, n: Node, row: Row)
    requires Proper(st) && Serves(st, s) && row.relation in s.relations && row.direction in DIRECTIONS && Usable(row)
    ensures Neighbour(s, n, row) <==> RowHit(row) in Neighbours(st.edges, n, row.relation, row.direction)
  {
    hide Neighbours;
    var found, all := st.answers(n, row.relation, row.direction), Neighbours(st.edges, n, row.relation, row.direction);
    assert RowHit(row) in found <==> RowHit(row) in multiset(found);
    assert RowHit(row) in all <==> RowHit(row) in multiset(all);
    if RowHit(row) in found {
      assert Cut(found, |found|) == found;
      assert Answers(s, n, row, |found|);
    }
    if Neighbour(s, n, row) {
      var most :| Answers(s, n, row, most);
      assert RowHit(row) in Cut(found, most);
    }
  }

  lemma EdgeIsMirrored(s: Search, n: Node, row: Row)
    requires IsGraph(s) && Neighbour(s, n, row)
    ensures Neighbour(s, NodeOf(row), Mirrored(n, row)) && NodeOf(Mirrored(n, row)) == n
    ensures Mirrored(n, row).direction != row.direction && Mirrored(n, row).direction in DIRECTIONS && row.direction in DIRECTIONS
  {
    hide Neighbours, Proper, Serves;
    var st :| Proper(st) && Serves(st, s);
    var most :| Answers(s, n, row, most);
    InStore(st, s, n, row);
    StoreIsNamed(st, n, row.relation, row.direction, RowHit(row));
    FoundFromBothEnds(st.edges, n, row.relation, row.direction, NodeOf(row));
    assert DIRECTIONS[0] == "outgoing" && DIRECTIONS[1] == "incoming" && "outgoing"[0] != "incoming"[0];
    InStore(st, s, NodeOf(row), Mirrored(n, row));
  }

  lemma StoreIsNamed(st: Store, n: Node, relation: string, direction: string, h: Hit)
    requires Proper(st) && h in Neighbours(st.edges, n, relation, direction)
    ensures Named(n) && Named(Node(h.kind, h.id)) && h == HitOf(Node(h.kind, h.id))
  {
    FoundAreNamed(st.edges, n, relation, direction, h);
  }

  /** Whatever a query of a graph answers is usable. */
  lemma HitsAreUsable(s: Search, n: Node, relation: string, direction: string, limit: nat, h: Hit)
    requires IsGraph(s) && relation in s.relations && direction in DIRECTIONS
    requires s.query(n, relation, direction, limit).Some? && h in s.query(n, relation, direction, limit).value
    ensures Neighbour(s, n, RowOf(direction, relation, h))
  {
    hide Neighbours, Proper;
    var st :| Proper(st) && Serves(st, s);
    var found := st.answers(n, relation, direction);
    assert h in found;
    AnsweredIsStored(st, n, relation, direction, h);
    StoreIsNamed(st, n, relation, direction, h);
    assert Answers(s, n, RowOf(direction, relation, h), limit);
  }

  lemma AnsweredIsStored(st: Store, n: Node, relation: string, direction: string, h: Hit)
    requires Proper(st)
    ensures h in st.answers(n, relation, direction) <==> h in Neighbours(st.edges, n, relation, direction)
  {
    hide Neighbours;
    var found, all := st.answers(n, relation, direction), Neighbours(st.edges, n, relation, direction);
    assert h in found <==> h in multiset(found);
    assert h in all <==> h in multiset(all);
  }

  /** An empty answer to a query with a limit means that there are no neighbours. */
  lemma NoAnswerNoNeighbour(s: Search, n: Node, relation: string, direction: string, limit: nat)
    requires IsGraph(s) && limit > 0 && s.query(n, relation, direction, limit) == Some([])
    ensures forall row: Row :: row.relation == relation && row.direction == direction ==> !Neighbour(s, n, row)
  {
    hide Proper;
    var st :| Proper(st) && Serves(st, s);
    assert Cut(st.answers(n, relation, direction), limit) == [];
    assert st.answers(n, relation, direction) == [];
  }

  // ------------------------------------------------------ what a shared neighbour costs

  /** Fewest steps to a node. */
  lemma {:induction false} Nearest(s: Search, node: Node, k: nat) returns (j: nat)
    requires Reached(s, node, k)
    ensures j <= k && Reached(s, node, j) && forall i: nat :: i < j ==> !Reached(s, node, i)
    decreases k
  {
    hide Reached;
    if i: nat :| i < k && Reached(s, node, i) { j := Nearest(s, node, i); } else { j := k; }
  }

  lemma ReachedRow(s: Search, n: Node, k: nat, row: Row)
    requires Reached(s, n, k) && k < s.depthLimit && Neighbour(s, n, row)
    ensures WithinReach(s, row)
  {
    hide Reached, Neighbour;
    RowReachedNext(s, n, row, k);
  }

  lemma KeysDistinct(s: Search, m: Node, p: Row, n: Node, q: Row)
    requires PlainNames(s) && Neighbour(s, m, p) && Neighbour(s, n, q)
    requires p.direction != q.direction || p.relation != q.relation || NodeOf(p) != NodeOf(q)
    ensures KeyOf(p) != KeyOf(q)
  {
    hide KeyOf;
    NeighbourDirection(s, m, p);
    NeighbourDirection(s, n, q);
    if KeyOf(p) == KeyOf(q) { KeyIsInjective(p, q); }
  }

  lemma FourDistinct(keys: set<string>, a: string, b: string, c: string, d: string)
    requires a in keys && b in keys && c in keys && d in keys
    requires a != b && a != c && a != d && b != c && b != d && c != d
    ensures |keys| >= 4
  {
    var four := {a, b, c, d};
    assert four <= keys;
    SubsetSize(four, keys);
  }

  /** Two nodes within the depth limit that share a neighbour. */
  ghost predicate Share(s: Search, n: Node, a: nat, m: Node, b: nat, shared: Row, same: Row) {
    && m != n && Reached(s, n, a) && a < s.depthLimit && Reached(s, m, b) && b < s.depthLimit
    && Neighbour(s, n, shared) && Neighbour(s, m, same) && NodeOf(same) == NodeOf(shared)
  }

  /** Two nodes that share a neighbour, of which one has another neighbour of the same
      relation and direction, bring at least four keys within reach. */
  lemma SharedNeighbourCosts(s: Search, among: set<string>, n: Node, a: nat, m: Node, b: nat, shared: Row, same: Row, other: Row)
    requires same.direction == shared.direction == other.direction && same.relation == shared.relation == other.relation
    requires NodeOf(shared) != NodeOf(other)
    ensures IsGraph(s) && PlainNames(s) && KeysAmong(s, among) && Share(s, n, a, m, b, shared, same) && Neighbour(s, n, other) ==> |among| >= 4
  {
    hide KeyOf, Reached, Neighbour, IsGraph, PlainNames;
    if !(IsGraph(s) && PlainNames(s) && KeysAmong(s, among) && Share(s, n, a, m, b, shared, same) && Neighbour(s, n, other)) { return; }
    var x := NodeOf(shared);
    EdgeIsMirrored(s, n, shared);
    EdgeIsMirrored(s, m, same);
    ReachedRow(s, n, a, shared);
    ReachedRow(s, n, a, other);
    if c: nat :| c < s.depthLimit && Reached(s, x, c) {
      var back, forth := Mirrored(n, shared), Mirrored(m, same);
      ReachedRow(s, x, c, back);
      ReachedRow(s, x, c, forth);
      KeysDistinct(s, n, shared, n, other);
      KeysDistinct(s, n, shared, x, back);
      KeysDistinct(s, n, shared, x, forth);
      KeysDistinct(s, n, other, x, back);
      KeysDistinct(s, n, other, x, forth);
      KeysDistinct(s, x, back, x, forth);
      FourDistinct(among, KeyOf(shared), KeyOf(other), KeyOf(back), KeyOf(forth));
    } else {
      FarNeighbourCosts(s, among, n, a, m, b, shared, same);
    }
  }

  /** If the shared neighbour is out of reach itself, both nodes are at the rim, found by
      edges of their own. */
  lemma FarNeighbourCosts(s: Search, among: set<string>, n: Node, a: nat, m: Node, b: nat, shared: Row, same: Row)
    requires forall c: nat :: c < s.depthLimit ==> !Reached(s, NodeOf(shared), c)
    ensures IsGraph(s) && PlainNames(s) && KeysAmong(s, among) && Share(s, n, a, m, b, shared, same) ==> |among| >= 4
  {
    hide KeyOf, Reached, Neighbour, IsGraph, PlainNames, KeysAmong;
    if !(IsGraph(s) && PlainNames(s) && KeysAmong(s, among) && Share(s, n, a, m, b, shared, same)) { return; }
    var rim := AtTheRim(s, n, a, shared);
    var rim' := AtTheRim(s, m, b, same);
    OnlyOneStart(s, n, m, rim);
    var before, found := FoundBy(s, n, rim);
    var before', found' := FoundBy(s, m, rim);
    EdgeIsMirrored(s, before, found);
    var back := Mirrored(before, found);
    ReachedRow(s, n, rim, shared);
    ReachedRow(s, before, rim - 1, found);
    ReachedRow(s, n, rim, back);
    ReachedRow(s, before', rim - 1, found');
    RimKeys(s, n, shared, before, found, back, before', found');
    FourInReach(s, among, shared, found, back, found');
  }

  lemma OnlyOneStart(s: Search, n: Node, m: Node, k: nat)
    requires Reached(s, n, k) && Reached(s, m, k) && n != m
    ensures k > 0
  {
    hide Neighbour;
  }

  lemma RimKeys(s: Search, n: Node, shared: Row, before: Node, found: Row, back: Row, before': Node, found': Row)
    requires PlainNames(s) && Neighbour(s, n, shared) && Neighbour(s, before, found) && Neighbour(s, n, back) && Neighbour(s, before', found')
    requires NodeOf(shared) != NodeOf(found) && NodeOf(shared) != NodeOf(back) && NodeOf(shared) != NodeOf(found')
    requires found.direction != back.direction && NodeOf(found) != NodeOf(found') && NodeOf(back) != NodeOf(found')
    ensures KeyOf(shared) != KeyOf(found) && KeyOf(shared) != KeyOf(back) && KeyOf(shared) != KeyOf(found')
    ensures KeyOf(found) != KeyOf(back) && KeyOf(found) != KeyOf(found') && KeyOf(back) != KeyOf(found')
  {
    hide KeyOf, Neighbour, PlainNames;
    KeysDistinct(s, n, shared, before, found);
    KeysDistinct(s, n, shared, n, back);
    KeysDistinct(s, n, shared, before', found');
    KeysDistinct(s, before, found, n, back);
    KeysDistinct(s, before, found, before', found');
    KeysDistinct(s, n, back, before', found');
  }

  lemma FourInReach(s: Search, among: set<string>, a: Row, b: Row, c: Row, d: Row)
    requires KeysAmong(s, among) && WithinReach(s, a) && WithinReach(s, b) && WithinReach(s, c) && WithinReach(s, d)
    requires KeyOf(a) != KeyOf(b) && KeyOf(a) != KeyOf(c) && KeyOf(a) != KeyOf(d)
    requires KeyOf(b) != KeyOf(c) && KeyOf(b) != KeyOf(d) && KeyOf(c) != KeyOf(d)
    ensures |among| >= 4
  {
    hide KeyOf, WithinReach;
    FourDistinct(among, KeyOf(a), KeyOf(b), KeyOf(c), KeyOf(d));
  }

  lemma AtTheRim(s: Search, n: Node, a: nat, row: Row) returns (rim: nat)
    requires Reached(s, n, a) && a < s.depthLimit && Neighbour(s, n, row)
    requires forall c: nat :: c < s.depthLimit ==> !Reached(s, NodeOf(row), c)
    ensures rim == s.depthLimit - 1 && Reached(s, n, rim) && forall i: nat :: i < rim ==> !Reached(s, n, i)
  {
    hide Neighbour, Reached;
    rim := Nearest(s, n, a);
    ReachedNext(s, n, row, rim);
  }

  lemma FoundBy(s: Search, n: Node, k: nat) returns (before: Node, row: Row)
    requires Reached(s, n, k) && k > 0
    ensures Reached(s, before, k - 1) && Neighbour(s, before, row) && NodeOf(row) == n
  {
    hide Neighbour;
    before, row :| Reached(s, before, k - 1) && Neighbour(s, before, row) && NodeOf(row) == n;
  }
}
