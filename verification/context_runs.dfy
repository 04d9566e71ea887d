/** Searches given by lists of edges, and the steps of their expansion. */
module ContextRuns {
  import opened Basics
  import opened ContextOrder
  import opened ContextExpansion
  import opened GraphContext
  import opened ContextRoom
  import opened ContextGraph

  // ------------------------------------------------------------- graphs given by edges

  function GraphSearch(edges: seq<Edge>, relations: seq<string>, start: Node, depthLimit: nat, limit: nat): Search {
    Search((n: Node, r: string, d: string, most: nat) => Some(Cut(Neighbours(edges, n, r, d), most)), relations, start, depthLimit, limit)
  }

  ghost predicate NamedEdges(edges: seq<Edge>) {
    forall i :: 0 <= i < |edges| ==> Named(edges[i].source) && Named(edges[i].target) && ':' !in edges[i].relation
  }

  lemma GraphAnswers(edges: seq<Edge>, relations: seq<string>, start: Node, depthLimit: nat, limit: nat, n: Node, r: string, d: string, most: nat)
    ensures GraphSearch(edges, relations, start, depthLimit, limit).query(n, r, d, most) == Some(Cut(Neighbours(edges, n, r, d), most))
  {
    hide Neighbours, Cut;
  }

  lemma GraphSearchIsGraph(edges: seq<Edge>, relations: seq<string>, start: Node, depthLimit: nat, limit: nat)
    requires NamedEdges(edges)
    ensures IsGraph(GraphSearch(edges, relations, start, depthLimit, limit))
  {
    hide Neighbours, Cut;
    var st := Store(edges, (n: Node, r: string, d: string) => Neighbours(edges, n, r, d));
    assert Proper(st);
    forall n, r, d, most ensures GraphSearch(edges, relations, start, depthLimit, limit).query(n, r, d, most) == Some(Cut(st.answers(n, r, d), most)) {
      GraphAnswers(edges, relations, start, depthLimit, limit, n, r, d, most);
    }
    assert Serves(st, GraphSearch(edges, relations, start, depthLimit, limit));
  }

  lemma GraphNeighbour(edges: seq<Edge>, relations: seq<string>, start: Node, depthLimit: nat, limit: nat, n: Node, row: Row)
    requires row.relation in relations && row.direction in DIRECTIONS && Usable(row)
    ensures Neighbour(GraphSearch(edges, relations, start, depthLimit, limit), n, row)
            <==> RowHit(row) in Neighbours(edges, n, row.relation, row.direction)
  {
    hide Neighbours;
    var s, hits := GraphSearch(edges, relations, start, depthLimit, limit), Neighbours(edges, n, row.relation, row.direction);
    GraphAnswers(edges, relations, start, depthLimit, limit, n, row.relation, row.direction, |hits|);
    if RowHit(row) in hits { assert Answers(s, n, row, |hits|); }
    if Neighbour(s, n, row) {
      var most :| Answers(s, n, row, most);
      GraphAnswers(edges, relations, start, depthLimit, limit, n, row.relation, row.direction, most);
    }
  }

  /** Names are plain and no query is wider than the widest list of neighbours. */
  lemma GraphIsPlainAndUncut(edges: seq<Edge>, relations: seq<string>, start: Node, depthLimit: nat, limit: nat, width: nat)
    requires NamedEdges(edges) && width > 0 && forall n, r, d :: |Neighbours(edges, n, r, d)| <= width
    requires forall i :: 0 <= i < |relations| ==> ':' !in relations[i]
    ensures var s := GraphSearch(edges, relations, start, depthLimit, limit); PlainNames(s) && Uncut(s, width)
  {
    hide Neighbours;
    var s := GraphSearch(edges, relations, start, depthLimit, limit);
    forall m, row | Neighbour(s, m, row) ensures ':' !in row.relation && ':' !in row.kind {
      var most :| Answers(s, m, row, most);
      GraphNeighbour(edges, relations, start, depthLimit, limit, m, row);
      FoundAreNamed(edges, m, row.relation, row.direction, RowHit(row));
    }
    forall m, row, most, other | Answers(s, m, row, most) && width <= other ensures Answers(s, m, row, other) {
      var hits := Neighbours(edges, m, row.relation, row.direction);
      GraphAnswers(edges, relations, start, depthLimit, limit, m, row.relation, row.direction, most);
      GraphAnswers(edges, relations, start, depthLimit, limit, m, row.relation, row.direction, other);
      assert Cut(hits, other) == hits;
    }
  }

  // ------------------------------------------------------------------- lists of edges

  lemma {:induction false} NeighboursConcat(a: seq<Edge>, b: seq<Edge>, n: Node, r: string, d: string)
    ensures Neighbours(a + b, n, r, d) == Neighbours(a, n, r, d) + Neighbours(b, n, r, d)
    decreases |a|
  {
    if a == [] {
      assert a + b == b;
    } else {
      assert (a + b)[1..] == a[1..] + b;
      NeighboursConcat(a[1..], b, n, r, d);
    }
  }

  function EdgeHits(e: Edge, n: Node, r: string, d: string): seq<Hit> {
    if e.relation == r && d == "outgoing" && e.source == n then [HitOf(e.target)]
    else if e.relation == r && d == "incoming" && e.target == n then [HitOf(e.source)]
    else []
  }

  lemma OneEdge(e: Edge, n: Node, r: string, d: string)
    ensures Neighbours([e], n, r, d) == EdgeHits(e, n, r, d)
  {
    assert [e][1..] == [];
  }

  function Copies<T>(k: nat, x: T): (c: seq<T>)
    ensures |c| == k && forall i :: 0 <= i < k ==> c[i] == x
  {
    seq(k, _ => x)
  }

  lemma {:induction false} CopiedEdges(k: nat, e: Edge, n: Node, r: string, d: string)
    ensures Neighbours(Copies(k, e), n, r, d) == if EdgeHits(e, n, r, d) == [] then [] else Copies(k, EdgeHits(e, n, r, d)[0])
    decreases k
  {
    if k > 0 {
      CopiedEdges(k - 1, e, n, r, d);
      assert Copies(k, e) == Copies(k - 1, e) + [e];
      NeighboursConcat(Copies(k - 1, e), [e], n, r, d);
      OneEdge(e, n, r, d);
      if EdgeHits(e, n, r, d) != [] {
        var h := EdgeHits(e, n, r, d)[0];
        assert Copies(k, h) == Copies(k - 1, h) + [h];
      }
    }
  }

  /** No edge has the relation. */
  lemma {:induction false} NoEdgeOfRelation(edges: seq<Edge>, n: Node, r: string, d: string)
    requires forall i :: 0 <= i < |edges| ==> edges[i].relation != r
    ensures Neighbours(edges, n, r, d) == []
    decreases |edges|
  {
    if edges != [] { NoEdgeOfRelation(edges[1..], n, r, d); }
  }

  function Rel(j: nat): (r: string)
    ensures |r| == j + 1 && ':' !in r
  {
    Copies(j + 1, 'r')
  }

  function Relations(n: nat): (rs: seq<string>)
    ensures |rs| == n && forall j :: 0 <= j < n ==> rs[j] == Rel(j)
  {
    seq(n, j requires 0 <= j < n => Rel(j))
  }

  /** One edge over each of `n` relations. */
  function PadEdges(a: Node, b: Node, n: nat): (es: seq<Edge>)
    ensures |es| == n && forall j :: 0 <= j < n ==> es[j] == Edge(a, Rel(j), b)
  {
    seq(n, j requires 0 <= j < n => Edge(a, Rel(j), b))
  }

  lemma {:induction false} PadNeighbours(a: Node, b: Node, n: nat, x: Node, j: nat, d: string)
    ensures Neighbours(PadEdges(a, b, n), x, Rel(j), d) == if j < n then EdgeHits(Edge(a, Rel(j), b), x, Rel(j), d) else []
    decreases n
  {
    hide Rel, Neighbours, EdgeHits;
    if n == 0 {
      NoEdgeOfRelation(PadEdges(a, b, n), x, Rel(j), d);
    } else {
      var last := Edge(a, Rel(n - 1), b);
      PadNeighbours(a, b, n - 1, x, j, d);
      assert PadEdges(a, b, n) == PadEdges(a, b, n - 1) + [last];
      NeighboursConcat(PadEdges(a, b, n - 1), [last], x, Rel(j), d);
      OneEdge(last, x, Rel(j), d);
      assert |Rel(j)| == j + 1 && |Rel(n - 1)| == n;
      if j != n - 1 { NoEdgeOfRelation([last], x, Rel(j), d); }
    }
  }

  // ---------------------------------------------------------------- rows and keys

  function NodeRow(direction: string, j: nat, x: Node): Row {
    Row(direction, Rel(j), x.kind, x.id, None, "")
  }

  lemma RowKeys(d: string, i: nat, x: Node, e: string, j: nat, y: Node)
    requires d in DIRECTIONS && e in DIRECTIONS && ':' !in x.kind && ':' !in y.kind
    ensures KeyOf(NodeRow(d, i, x)) == KeyOf(NodeRow(e, j, y)) <==> d == e && i == j && x == y
  {
    hide KeyOf, Rel;
    if KeyOf(NodeRow(d, i, x)) == KeyOf(NodeRow(e, j, y)) {
      KeyIsInjective(NodeRow(d, i, x), NodeRow(e, j, y));
      assert |Rel(i)| == i + 1 && |Rel(j)| == j + 1;
    }
  }

  lemma BothDirections()
    ensures "outgoing" in DIRECTIONS && "incoming" in DIRECTIONS && "outgoing" != "incoming"
    ensures forall d :: d in DIRECTIONS ==> d == "outgoing" || d == "incoming"
  {
    assert DIRECTIONS[0] == "outgoing" && DIRECTIONS[1] == "incoming" && "outgoing"[0] != "incoming"[0];
  }

  function PadRows(b: Node, n: nat): (rows: seq<Row>)
    ensures |rows| == n && forall j :: 0 <= j < n ==> rows[j] == NodeRow("outgoing", j, b)
  {
    seq(n, j requires 0 <= j < n => NodeRow("outgoing", j, b))
  }

  // ------------------------------------------------------------- steps of a run

  lemma AskBoth(s: Search, node: Node, depth: nat, relation: string, p: Progress)
    ensures Visited(s, node, depth, [relation], p)
         == match Asked(s, node, depth, relation, "outgoing", p)
            case None => None
            case Some(q) => Asked(s, node, depth, relation, "incoming", q)
  {
    hide Asked;
    assert DIRECTIONS[0] == "outgoing" && DIRECTIONS[1..] == ["incoming"] && [relation][1..] == [];
    var first := Asked(s, node, depth, relation, "outgoing", p);
    if first.Some? { AskOne(s, node, depth, relation, "incoming", first.value); }
    var both := AskedAll(s, node, depth, relation, DIRECTIONS, p);
    if both.Some? { NothingVisited(s, node, depth, both.value); }
  }

  lemma AskOne(s: Search, node: Node, depth: nat, relation: string, direction: string, p: Progress)
    ensures AskedAll(s, node, depth, relation, [direction], p) == Asked(s, node, depth, relation, direction, p)
  {
    hide Asked;
    assert [direction][1..] == [];
    var q := Asked(s, node, depth, relation, direction, p);
    if q.Some? { assert AskedAll(s, node, depth, relation, [], q.value) == Some(q.value); }
  }

  lemma {:induction false} VisitConcat(s: Search, node: Node, depth: nat, a: seq<string>, b: seq<string>, p: Progress)
    ensures Visited(s, node, depth, a + b, p)
         == match Visited(s, node, depth, a, p)
            case None => None
            case Some(q) => Visited(s, node, depth, b, q)
    decreases |a|
  {
    hide AskedAll;
    if a == [] {
      assert a + b == b;
    } else {
      assert (a + b)[1..] == a[1..] + b;
      var q := AskedAll(s, node, depth, a[0], DIRECTIONS, p);
      if q.Some? { VisitConcat(s, node, depth, a[1..], b, q.value); }
    }
  }

  lemma {:induction false} SeenChangesNothing(s: Search, depth: nat, relation: string, direction: string, hits: seq<Hit>, p: Progress)
    requires forall h :: h in hits ==> KeyOf(RowOf(direction, relation, h)) in p.seen
    ensures AbsorbedAll(s, depth, relation, direction, hits, p) == p
    decreases |hits|
  {
    hide KeyOf;
    if hits != [] {
      assert hits[0] in hits;
      SeenChangesNothing(s, depth, relation, direction, hits[1..], p);
    }
  }

  /** Answers that begin with one new neighbour and go on with ones that are then seen. */
  lemma AbsorbFirst(s: Search, depth: nat, relation: string, direction: string, hits: seq<Hit>, p: Progress)
    requires |p.context| < s.contextLimit && hits != []
    requires var q := Absorbed(s, depth, RowOf(direction, relation, hits[0]), p);
             forall h :: h in hits[1..] ==> KeyOf(RowOf(direction, relation, h)) in q.seen
    ensures AbsorbedAll(s, depth, relation, direction, hits, p) == Absorbed(s, depth, RowOf(direction, relation, hits[0]), p)
  {
    hide KeyOf, Absorbed;
    SeenChangesNothing(s, depth, relation, direction, hits[1..], Absorbed(s, depth, RowOf(direction, relation, hits[0]), p));
  }

  /** A query whose answers, up to the limit, were all seen. */
  ghost predicate Quiet(s: Search, node: Node, relation: string, direction: string, p: Progress) {
    && |p.context| < s.contextLimit
    && var hits := s.query(node, relation, direction, s.contextLimit - |p.context|);
       hits.Some? && forall h :: h in hits.value ==> KeyOf(RowOf(direction, relation, h)) in p.seen
  }

  lemma QuietAsk(s: Search, node: Node, depth: nat, relation: string, direction: string, p: Progress)
    requires Quiet(s, node, relation, direction, p)
    ensures Asked(s, node, depth, relation, direction, p) == Some(p)
  {
    hide KeyOf, AbsorbedAll;
    SeenChangesNothing(s, depth, relation, direction, s.query(node, relation, direction, s.contextLimit - |p.context|).value, p);
  }

  lemma {:induction false} QuietVisit(s: Search, node: Node, depth: nat, relations: seq<string>, p: Progress)
    requires forall r :: r in relations ==> Quiet(s, node, r, "outgoing", p) && Quiet(s, node, r, "incoming", p)
    ensures Visited(s, node, depth, relations, p) == Some(p)
    decreases |relations|
  {
    hide Quiet, Asked, AskedAll;
    if relations != [] {
      var r := relations[0];
      assert r in relations && relations == [r] + relations[1..];
      QuietAsk(s, node, depth, r, "outgoing", p);
      QuietAsk(s, node, depth, r, "incoming", p);
      AskBoth(s, node, depth, r, p);
      QuietVisit(s, node, depth, relations[1..], p);
      VisitConcat(s, node, depth, [r], relations[1..], p);
    }
  }

  /** The state with the rows of `n` padding relations found. */
  function Padded(p: Progress, b: Node, n: nat): Progress {
    Progress(p.context + PadRows(b, n), p.frontier, p.seen + KeySet(PadRows(b, n)))
  }

  ghost predicate PadsAnswer(s: Search, node: Node, b: Node, n: nat) {
    forall j, most :: 0 <= j < n && most > 0 ==>
      s.query(node, Rel(j), "outgoing", most) == Some([HitOf(b)]) && s.query(node, Rel(j), "incoming", most) == Some([])
  }

  lemma PadNext(p: Progress, b: Node, j: nat)
    requires ':' !in b.kind
    ensures KeyOf(NodeRow("outgoing", j, b)) !in KeySet(PadRows(b, j))
    ensures Padded(p, b, j + 1) == Progress(Padded(p, b, j).context + [NodeRow("outgoing", j, b)], p.frontier,
                                            Padded(p, b, j).seen + {KeyOf(NodeRow("outgoing", j, b))})
  {
    hide KeyOf, Rel;
    BothDirections();
    var rows, row := PadRows(b, j), NodeRow("outgoing", j, b);
    forall key | key in KeySet(rows) ensures key != KeyOf(row) {
      var i :| 0 <= i < |rows| && KeyOf(rows[i]) == key;
      RowKeys("outgoing", i, b, "outgoing", j, b);
    }
    assert PadRows(b, j + 1) == rows + [row];
    KeySetNext(rows, row);
    assert p.context + (rows + [row]) == (p.context + rows) + [row];
  }

  lemma KeySetNext(rows: seq<Row>, row: Row)
    ensures KeySet(rows + [row]) == KeySet(rows) + {KeyOf(row)}
  {
    hide KeyOf;
    var more := rows + [row];
    forall key ensures key in KeySet(more) <==> key in KeySet(rows) + {KeyOf(row)} {
      if key in KeySet(rows) {
        var i :| 0 <= i < |rows| && KeyOf(rows[i]) == key;
        assert more[i] == rows[i];
      }
      if key == KeyOf(row) { assert more[|rows|] == row; }
    }
  }

  lemma PadAsk(s: Search, node: Node, depth: nat, b: Node, n: nat, j: nat, p: Progress)
    requires PadsAnswer(s, node, b, n) && j < n && Named(b) && s.depthLimit <= depth + 1 && |p.context| + j < s.contextLimit
    requires KeyOf(NodeRow("outgoing", j, b)) !in p.seen
    ensures Visited(s, node, depth, [Rel(j)], Padded(p, b, j)) == Some(Padded(p, b, j + 1))
  {
    hide KeyOf, Rel, PadRows, KeySet;
    var q := Padded(p, b, j);
    PadNext(p, b, j);
    PadLength(p, b, j);
    PadLength(p, b, j + 1);
    AskBoth(s, node, depth, Rel(j), q);
    var most := s.contextLimit - |q.context|;
    assert s.query(node, Rel(j), "outgoing", most) == Some([HitOf(b)]);
    assert RowOf("outgoing", Rel(j), HitOf(b)) == NodeRow("outgoing", j, b);
    assert [HitOf(b)][1..] == [];
    AbsorbFirst(s, depth, Rel(j), "outgoing", [HitOf(b)], q);
    var next := Padded(p, b, j + 1);
    assert Asked(s, node, depth, Rel(j), "outgoing", q) == Some(next);
    if |next.context| < s.contextLimit {
      assert s.query(node, Rel(j), "incoming", s.contextLimit - |next.context|) == Some([]);
      QuietAsk(s, node, depth, Rel(j), "incoming", next);
    }
  }

  lemma PadLength(p: Progress, b: Node, j: nat)
    ensures |Padded(p, b, j).context| == |p.context| + j
  {}

  lemma {:induction false} PadVisit(s: Search, node: Node, depth: nat, b: Node, n: nat, j: nat, p: Progress)
    requires PadsAnswer(s, node, b, n) && j <= n && Named(b) && s.depthLimit <= depth + 1 && |p.context| + n <= s.contextLimit
    requires forall i :: 0 <= i < n ==> KeyOf(NodeRow("outgoing", i, b)) !in p.seen
    ensures Visited(s, node, depth, Relations(n)[..j], p) == Some(Padded(p, b, j))
    decreases j
  {
    hide KeyOf, Rel, Visited, PadsAnswer, Named;
    if j == 0 {
      NothingVisited(s, node, depth, p);
      assert Relations(n)[..0] == [];
      assert PadRows(b, 0) == [] && KeySet(PadRows(b, 0)) == {};
      assert Padded(p, b, 0) == p;
    } else {
      PadVisit(s, node, depth, b, n, j - 1, p);
      PadAsk(s, node, depth, b, n, j - 1, p);
      assert Relations(n)[..j] == Relations(n)[..j - 1] + [Rel(j - 1)];
      VisitConcat(s, node, depth, Relations(n)[..j - 1], [Rel(j - 1)], p);
    }
  }

  // -------------------------------------------------------------- queries never fail

  ghost predicate NeverFails(s: Search) {
    forall n, r, d, most :: s.query(n, r, d, most).Some?
  }

  lemma {:induction false} VisitSucceeds(s: Search, node: Node, depth: nat, relations: seq<string>, p: Progress)
    requires NeverFails(s)
    ensures Visited(s, node, depth, relations, p).Some?
    decreases |relations|
  {
    hide KeyOf, AbsorbedAll, AskedAll;
    if relations != [] {
      AskBoth(s, node, depth, relations[0], p);
      var q := Visited(s, node, depth, [relations[0]], p).value;
      VisitSucceeds(s, node, depth, relations[1..], q);
      assert relations == [relations[0]] + relations[1..];
      VisitConcat(s, node, depth, [relations[0]], relations[1..], p);
    }
  }

  lemma {:induction false} ExpansionSucceeds(s: Search, p: Progress)
    requires NeverFails(s) && |p.context| <= s.contextLimit
    ensures Expansion(s, p).Some?
    decreases |p.frontier| + s.contextLimit - |p.context|
  {
    hide Visited, NeverFails;
    if p.frontier != [] {
      var first := p.frontier[0];
      if first.depth >= s.depthLimit || |p.context| >= s.contextLimit {
        ExpansionSucceeds(s, Rest(p));
      } else {
        VisitSucceeds(s, first.node, first.depth, s.relations, Rest(p));
        ExpansionSucceeds(s, Visited(s, first.node, first.depth, s.relations, Rest(p)).value);
      }
    }
  }

  /** Rows within reach, of different keys and more than the limit, cannot all be listed. */
  lemma TooManyKeys(s: Search, rows: seq<Row>)
    requires NeverFails(s) && |rows| > s.contextLimit && DistinctKeys(rows) && s.depthLimit > 0
    requires forall i :: 0 <= i < |rows| ==> WithinReach(s, rows[i])
    ensures !Whole(s)
  {
    hide KeyOf, WithinReach, Expansion, NeverFails;
    ExpansionSucceeds(s, Start(s));
    var depths := ContextIsSound(s, 0);
    var r := ContextOf(s).value;
    if Whole(s) {
      forall key | key in KeySet(rows) ensures key in KeySet(r) {
        var i :| 0 <= i < |rows| && KeyOf(rows[i]) == key;
        assert Lists(r, KeyOf(rows[i]));
      }
      SubsetSize(KeySet(rows), KeySet(r));
      KeySetSize(rows);
      KeySetSize(r);
    }
  }
}
