/** A root and a hub with an edge from each to itself and several from the root to the hub,
    two steps deep. Expanded again, the root and the hub answer what was seen; in between
    they leave one row unfound. */
module ContextLoop {
  import opened Basics
  import opened ContextOrder
  import opened ContextExpansion
  import opened GraphContext
  import opened ContextRoom
  import opened ContextGraph
  import opened ContextRuns

  const ROOT := Node("T", "S")
  const HUB := Node("T", "A")
  const END := Node("T", "D")

  lemma NodesDiffer()
    ensures Named(ROOT) && Named(HUB) && Named(END) && ROOT != HUB && ROOT != END && HUB != END
  {
    assert "S"[0] != "A"[0] && "S"[0] != "D"[0] && "A"[0] != "D"[0];
  }

  /** Over each of `n` padding relations the hub has an edge to the end. */
  function LoopEdges(n: nat, copies: nat): seq<Edge> {
    PadEdges(HUB, END, n) + [Edge(ROOT, Rel(n), ROOT)] + Copies(copies, Edge(ROOT, Rel(n), HUB)) + [Edge(HUB, Rel(n), HUB)]
  }

  function Loop(n: nat, copies: nat, limit: nat): Search {
    GraphSearch(LoopEdges(n, copies), Relations(n + 1), ROOT, 2, limit)
  }

  lemma LoopNeighbours(n: nat, copies: nat, x: Node, j: nat, d: string)
    ensures Neighbours(LoopEdges(n, copies), x, Rel(j), d) ==
      if j < n then EdgeHits(Edge(HUB, Rel(j), END), x, Rel(j), d)
      else if j > n then []
      else if d == "outgoing" && x == ROOT then [HitOf(ROOT)] + Copies(copies, HitOf(HUB))
      else if d == "incoming" && x == ROOT then [HitOf(ROOT)]
      else if d == "outgoing" && x == HUB then [HitOf(HUB)]
      else if d == "incoming" && x == HUB then Copies(copies, HitOf(ROOT)) + [HitOf(HUB)]
      else []
  {
    hide Neighbours, Rel, PadEdges, Copies;
    NodesDiffer();
    BothDirections();
    var pads, hubs := PadEdges(HUB, END, n), Copies(copies, Edge(ROOT, Rel(n), HUB));
    var first, last := Edge(ROOT, Rel(n), ROOT), Edge(HUB, Rel(n), HUB);
    NeighboursConcat(pads + [first] + hubs, [last], x, Rel(j), d);
    NeighboursConcat(pads + [first], hubs, x, Rel(j), d);
    NeighboursConcat(pads, [first], x, Rel(j), d);
    PadNeighbours(HUB, END, n, x, j, d);
    CopiedEdges(copies, Edge(ROOT, Rel(n), HUB), x, Rel(j), d);
    OneEdge(first, x, Rel(j), d);
    OneEdge(last, x, Rel(j), d);
    assert |Rel(j)| == j + 1 && |Rel(n)| == n + 1;
  }

  lemma LoopIsNamed(n: nat, copies: nat)
    ensures NamedEdges(LoopEdges(n, copies))
  {
    hide Named, Rel;
    NodesDiffer();
    var es := LoopEdges(n, copies);
    forall i | 0 <= i < |es| ensures Named(es[i].source) && Named(es[i].target) && ':' !in es[i].relation {
      assert es[i] in PadEdges(HUB, END, n) || es[i] in Copies(copies, Edge(ROOT, Rel(n), HUB))
             || es[i] == Edge(ROOT, Rel(n), ROOT) || es[i] == Edge(HUB, Rel(n), HUB);
    }
  }

  lemma LoopWidth(n: nat, copies: nat, x: Node, r: string, d: string)
    ensures |Neighbours(LoopEdges(n, copies), x, r, d)| <= copies + 1
  {
    hide Neighbours, Rel;
    if j: nat :| r == Rel(j) { LoopNeighbours(n, copies, x, j, d); }
    else { NoEdgeOfRelation(LoopEdges(n, copies), x, r, d); }
  }

  // ------------------------------------------------------------------ what is in reach

  function RootRows(n: nat): seq<Row> {
    [NodeRow("outgoing", n, ROOT), NodeRow("outgoing", n, HUB), NodeRow("incoming", n, ROOT)]
  }

  function FoundRows(n: nat): seq<Row> { RootRows(n) + PadRows(END, n) }

  function MissingRow(n: nat): Row { NodeRow("incoming", n, HUB) }

  /** The root and the hub find these rows, and no others. */
  lemma NeighbourIsLoop(n: nat, copies: nat, limit: nat, m: Node, row: Row)
    requires Neighbour(Loop(n, copies, limit), m, row) && (m == ROOT || m == HUB)
    ensures row in FoundRows(n) || row == MissingRow(n)
    ensures m == ROOT ==> NodeOf(row) == ROOT || NodeOf(row) == HUB
  {
    hide Rel, Neighbours, LoopEdges, PadRows;
    NodesDiffer();
    BothDirections();
    NeighbourDirection(Loop(n, copies, limit), m, row);
    var most :| Answers(Loop(n, copies, limit), m, row, most);
    var j :| 0 <= j < n + 1 && Relations(n + 1)[j] == row.relation;
    GraphNeighbour(LoopEdges(n, copies), Relations(n + 1), ROOT, 2, limit, m, row);
    LoopNeighbours(n, copies, m, j, row.direction);
    HitRow(row, j);
    if j < n {
      assert row == PadRows(END, n)[j];
    } else {
      LoopRowAtMain(n, row);
    }
  }

  lemma HitRow(row: Row, j: nat)
    requires row.relation == Rel(j)
    ensures forall x: Node :: RowHit(row) == HitOf(x) ==> row == NodeRow(row.direction, j, x) && NodeOf(row) == x
  {}

  lemma LoopRowAtMain(n: nat, row: Row)
    requires row == NodeRow("outgoing", n, ROOT) || row == NodeRow("outgoing", n, HUB) || row == NodeRow("incoming", n, ROOT) || row == MissingRow(n)
    ensures row in FoundRows(n) || row == MissingRow(n)
  {
    hide Rel, PadRows;
    var rows := RootRows(n);
    assert rows[0] in rows && rows[1] in rows && rows[2] in rows;
  }

  lemma LoopReach(n: nat, copies: nat, limit: nat, row: Row)
    requires WithinReach(Loop(n, copies, limit), row)
    ensures row in FoundRows(n) || row == MissingRow(n)
  {
    hide Rel, Neighbours, LoopEdges, FoundRows, KeyOf;
    var s := Loop(n, copies, limit);
    var k: nat :| k <= s.depthLimit && RowReached(s, row, k);
    var m :| Reached(s, m, k - 1) && Neighbour(s, m, row);
    if k == 2 {
      var before, step := FoundBy(s, m, 1);
      assert before == ROOT;
      NeighbourIsLoop(n, copies, limit, ROOT, step);
    } else {
      assert m == ROOT;
    }
    NeighbourIsLoop(n, copies, limit, m, row);
  }

  lemma LoopIsSized(n: nat, copies: nat, limit: nat, keys: nat, width: nat)
    requires n + 4 <= keys && copies + 1 <= width
    ensures IsGraph(Loop(n, copies, limit)) && Sized(Loop(n, copies, limit), keys, width, limit)
  {
    hide KeyOf, Rel, Neighbours, LoopEdges, WithinReach, IsGraph, PlainNames, Uncut, FoundRows, MissingRow;
    var s := Loop(n, copies, limit);
    LoopIsNamed(n, copies);
    GraphSearchIsGraph(LoopEdges(n, copies), Relations(n + 1), ROOT, 2, limit);
    forall x, r, d ensures |Neighbours(LoopEdges(n, copies), x, r, d)| <= width { LoopWidth(n, copies, x, r, d); }
    GraphIsPlainAndUncut(LoopEdges(n, copies), Relations(n + 1), ROOT, 2, limit, width);
    var among := KeySet(FoundRows(n)) + {KeyOf(MissingRow(n))};
    KeySetSize(FoundRows(n));
    FoundLength(n);
    forall row | WithinReach(s, row) ensures KeyOf(row) in among { LoopReach(n, copies, limit, row); }
    assert KeysAmong(s, among);
  }

  lemma FoundLength(n: nat)
    ensures |FoundRows(n)| == n + 3
  {}

  /** From the hub, one step away, the missing row is in reach. */
  lemma MissingIsInReach(n: nat, copies: nat, limit: nat)
    requires copies > 0
    ensures WithinReach(Loop(n, copies, limit), MissingRow(n))
  {
    hide Rel, Neighbours, LoopEdges;
    var s, step := Loop(n, copies, limit), NodeRow("outgoing", n, HUB);
    NodesDiffer();
    BothDirections();
    assert Relations(n + 1)[n] == Rel(n);
    LoopNeighbours(n, copies, ROOT, n, "outgoing");
    LoopNeighbours(n, copies, HUB, n, "incoming");
    var out, back := [HitOf(ROOT)] + Copies(copies, HitOf(HUB)), Copies(copies, HitOf(ROOT)) + [HitOf(HUB)];
    assert out[1] == HitOf(HUB) && back[copies] == HitOf(HUB);
    GraphNeighbour(LoopEdges(n, copies), Relations(n + 1), ROOT, 2, limit, ROOT, step);
    GraphNeighbour(LoopEdges(n, copies), Relations(n + 1), ROOT, 2, limit, HUB, MissingRow(n));
    assert Reached(s, ROOT, 0);
    ReachedNext(s, ROOT, step, 0);
    ReachedRow(s, HUB, 1, MissingRow(n));
  }

  lemma MissingIsNotFound(n: nat)
    ensures !Lists(FoundRows(n), KeyOf(MissingRow(n)))
  {
    hide KeyOf, Rel;
    NodesDiffer();
    BothDirections();
    var rows := FoundRows(n);
    forall i | 0 <= i < |rows| ensures KeyOf(rows[i]) != KeyOf(MissingRow(n)) {
      RowKeys("outgoing", n, ROOT, "incoming", n, HUB);
      RowKeys("outgoing", n, HUB, "incoming", n, HUB);
      RowKeys("incoming", n, ROOT, "incoming", n, HUB);
      if i >= 3 { RowKeys("outgoing", i - 3, END, "incoming", n, HUB); }
    }
  }

  // ------------------------------------------------------------------------ the run

  lemma LoopAnswers(n: nat, copies: nat, limit: nat, x: Node, j: nat, d: string, most: nat)
    ensures Loop(n, copies, limit).query(x, Rel(j), d, most) == Some(Cut(Neighbours(LoopEdges(n, copies), x, Rel(j), d), most))
  {
    hide Rel, Neighbours, LoopEdges;
    GraphAnswers(LoopEdges(n, copies), Relations(n + 1), ROOT, 2, limit, x, Rel(j), d, most);
  }

  const EMPTY := Progress([], [], {})

  const QUEUE := [Queued(ROOT, 1), Queued(HUB, 1), Queued(ROOT, 1)]

  function AfterRoot(n: nat, queue: seq<Queued>): Progress { Progress(RootRows(n), queue, KeySet(RootRows(n))) }

  function AfterHub(n: nat, queue: seq<Queued>): Progress { Padded(AfterRoot(n, queue), END, n) }

  lemma RootKeys(n: nat)
    ensures KeySet(RootRows(n)) == {KeyOf(NodeRow("outgoing", n, ROOT)), KeyOf(NodeRow("outgoing", n, HUB)), KeyOf(NodeRow("incoming", n, ROOT))}
    ensures KeyOf(NodeRow("outgoing", n, ROOT)) != KeyOf(NodeRow("outgoing", n, HUB))
    ensures KeyOf(NodeRow("incoming", n, ROOT)) != KeyOf(NodeRow("outgoing", n, ROOT))
    ensures KeyOf(NodeRow("incoming", n, ROOT)) != KeyOf(NodeRow("outgoing", n, HUB))
  {
    hide KeyOf, Rel;
    NodesDiffer();
    BothDirections();
    var a, b, c := NodeRow("outgoing", n, ROOT), NodeRow("outgoing", n, HUB), NodeRow("incoming", n, ROOT);
    RowKeys("outgoing", n, ROOT, "outgoing", n, HUB);
    RowKeys("incoming", n, ROOT, "outgoing", n, ROOT);
    RowKeys("incoming", n, ROOT, "outgoing", n, HUB);
    var rows := RootRows(n);
    assert rows[0] == a && rows[1] == b && rows[2] == c;
    assert KeySet(rows) == {KeyOf(a), KeyOf(b), KeyOf(c)};
  }

  /** Over a padding relation the root has no neighbours. */
  lemma RootPadIsQuiet(n: nat, copies: nat, limit: nat, j: nat, d: string, p: Progress)
    requires j < n && |p.context| < limit
    ensures Quiet(Loop(n, copies, limit), ROOT, Rel(j), d, p)
  {
    hide Rel, Neighbours, LoopEdges, KeyOf;
    NodesDiffer();
    LoopAnswers(n, copies, limit, ROOT, j, d, limit - |p.context|);
    LoopNeighbours(n, copies, ROOT, j, d);
  }

  lemma RootPadsVisit(n: nat, copies: nat, limit: nat, depth: nat, p: Progress)
    requires |p.context| < limit
    ensures Visited(Loop(n, copies, limit), ROOT, depth, Relations(n), p) == Some(p)
  {
    hide Rel, Loop, Quiet, KeyOf;
    forall r | r in Relations(n)
      ensures Quiet(Loop(n, copies, limit), ROOT, r, "outgoing", p) && Quiet(Loop(n, copies, limit), ROOT, r, "incoming", p) {
      var j :| 0 <= j < n && Relations(n)[j] == r;
      RootPadIsQuiet(n, copies, limit, j, "outgoing", p);
      RootPadIsQuiet(n, copies, limit, j, "incoming", p);
    }
    QuietVisit(Loop(n, copies, limit), ROOT, depth, Relations(n), p);
  }

  /** The first expansion of the root, over the main relation. */
  lemma RootAsks(n: nat, copies: nat, limit: nat)
    requires limit >= 4 && copies > 0
    ensures Visited(Loop(n, copies, limit), ROOT, 0, [Rel(n)], EMPTY) == Some(AfterRoot(n, QUEUE))
  {
    hide Rel, Neighbours, LoopEdges, KeyOf, KeySet, Visited, AbsorbedAll;
    var s := Loop(n, copies, limit);
    NodesDiffer();
    BothDirections();
    RootKeys(n);
    AskBoth(s, ROOT, 0, Rel(n), EMPTY);
    LoopAnswers(n, copies, limit, ROOT, n, "outgoing", limit);
    LoopNeighbours(n, copies, ROOT, n, "outgoing");
    RootOutgoing(n, copies, limit);
    var q := AfterOutgoing(n);
    assert Asked(s, ROOT, 0, Rel(n), "outgoing", EMPTY) == Some(q);
    LoopAnswers(n, copies, limit, ROOT, n, "incoming", limit - 2);
    LoopNeighbours(n, copies, ROOT, n, "incoming");
    assert RowOf("incoming", Rel(n), HitOf(ROOT)) == NodeRow("incoming", n, ROOT);
    AbsorbFirst(s, 0, Rel(n), "incoming", [HitOf(ROOT)], q);
    assert [NodeRow("outgoing", n, ROOT), NodeRow("outgoing", n, HUB)] + [NodeRow("incoming", n, ROOT)] == RootRows(n);
    assert [Queued(ROOT, 1), Queued(HUB, 1)] + [Queued(ROOT, 1)] == QUEUE;
    assert Absorbed(s, 0, NodeRow("incoming", n, ROOT), q) == AfterRoot(n, QUEUE);
  }

  function AfterOutgoing(n: nat): Progress {
    Progress([NodeRow("outgoing", n, ROOT), NodeRow("outgoing", n, HUB)], [Queued(ROOT, 1), Queued(HUB, 1)],
             {KeyOf(NodeRow("outgoing", n, ROOT)), KeyOf(NodeRow("outgoing", n, HUB))})
  }

  lemma RootOutgoing(n: nat, copies: nat, limit: nat)
    requires limit >= 4 && copies > 0
    ensures AbsorbedAll(Loop(n, copies, limit), 0, Rel(n), "outgoing", Cut([HitOf(ROOT)] + Copies(copies, HitOf(HUB)), limit), EMPTY)
         == AfterOutgoing(n)
  {
    hide Rel, Neighbours, LoopEdges, KeyOf, KeySet;
    var s, hits := Loop(n, copies, limit), Cut([HitOf(ROOT)] + Copies(copies, HitOf(HUB)), limit);
    NodesDiffer();
    RootKeys(n);
    var a, b := NodeRow("outgoing", n, ROOT), NodeRow("outgoing", n, HUB);
    assert hits[0] == HitOf(ROOT) && forall h :: h in hits[1..] ==> h == HitOf(HUB);
    assert RowOf("outgoing", Rel(n), HitOf(ROOT)) == a && RowOf("outgoing", Rel(n), HitOf(HUB)) == b;
    var p := Absorbed(s, 0, a, EMPTY);
    assert p == Progress([a], [Queued(ROOT, 1)], {KeyOf(a)});
    assert Absorbed(s, 0, b, p) == AfterOutgoing(n);
    AbsorbFirst(s, 0, Rel(n), "outgoing", hits[1..], p);
  }

  /** Later on, the root answers only what was seen. */
  lemma RootIsQuiet(n: nat, copies: nat, limit: nat, p: Progress)
    requires KeySet(RootRows(n)) <= p.seen && |p.context| < limit
    ensures Visited(Loop(n, copies, limit), ROOT, 1, Relations(n + 1), p) == Some(p)
  {
    hide Rel, Neighbours, LoopEdges, KeyOf, KeySet, Visited;
    var s := Loop(n, copies, limit);
    NodesDiffer();
    BothDirections();
    RootKeys(n);
    RootPadsVisit(n, copies, limit, 1, p);
    LoopAnswers(n, copies, limit, ROOT, n, "outgoing", limit - |p.context|);
    LoopAnswers(n, copies, limit, ROOT, n, "incoming", limit - |p.context|);
    LoopNeighbours(n, copies, ROOT, n, "outgoing");
    LoopNeighbours(n, copies, ROOT, n, "incoming");
    QuietMain(s, ROOT, 1, n, p);
    assert Relations(n + 1) == Relations(n) + [Rel(n)];
    VisitConcat(s, ROOT, 1, Relations(n), [Rel(n)], p);
  }

  lemma QuietMain(s: Search, node: Node, depth: nat, n: nat, p: Progress)
    requires Quiet(s, node, Rel(n), "outgoing", p) && Quiet(s, node, Rel(n), "incoming", p)
    ensures Visited(s, node, depth, [Rel(n)], p) == Some(p)
  {
    hide Rel, Quiet;
    forall r | r in [Rel(n)] ensures r == Rel(n) {}
    QuietVisit(s, node, depth, [Rel(n)], p);
  }

  lemma HubPads(n: nat, copies: nat, limit: nat)
    ensures PadsAnswer(Loop(n, copies, limit), HUB, END, n)
  {
    hide Rel, Neighbours, LoopEdges, Loop;
    NodesDiffer();
    BothDirections();
    forall j, most | 0 <= j < n && most > 0
      ensures var s := Loop(n, copies, limit);
              s.query(HUB, Rel(j), "outgoing", most) == Some([HitOf(END)]) && s.query(HUB, Rel(j), "incoming", most) == Some([]) {
      LoopAnswers(n, copies, limit, HUB, j, "outgoing", most);
      LoopAnswers(n, copies, limit, HUB, j, "incoming", most);
      LoopNeighbours(n, copies, HUB, j, "outgoing");
      LoopNeighbours(n, copies, HUB, j, "incoming");
    }
  }

  /** Cut before its end, the hub's incoming query answers the root only. */
  lemma HubIsQuiet(n: nat, copies: nat, limit: nat, p: Progress)
    requires KeySet(RootRows(n)) <= p.seen && |p.context| < limit <= |p.context| + copies
    ensures Visited(Loop(n, copies, limit), HUB, 1, [Rel(n)], p) == Some(p)
  {
    hide Rel, Neighbours, LoopEdges, KeyOf, KeySet, Visited;
    var s, most := Loop(n, copies, limit), limit - |p.context|;
    NodesDiffer();
    BothDirections();
    RootKeys(n);
    LoopAnswers(n, copies, limit, HUB, n, "outgoing", most);
    LoopAnswers(n, copies, limit, HUB, n, "incoming", most);
    LoopNeighbours(n, copies, HUB, n, "outgoing");
    LoopNeighbours(n, copies, HUB, n, "incoming");
    assert Cut(Copies(copies, HitOf(ROOT)) + [HitOf(HUB)], most) == Copies(most, HitOf(ROOT));
    QuietMain(s, HUB, 1, n, p);
  }

  lemma HubVisit(n: nat, copies: nat, limit: nat, queue: seq<Queued>)
    requires n + 3 < limit <= n + 3 + copies
    ensures Visited(Loop(n, copies, limit), HUB, 1, Relations(n + 1), AfterRoot(n, queue)) == Some(AfterHub(n, queue))
  {
    hide Rel, Neighbours, LoopEdges, KeyOf, KeySet, Visited;
    var s, p, q := Loop(n, copies, limit), AfterRoot(n, queue), AfterHub(n, queue);
    NodesDiffer();
    BothDirections();
    RootKeys(n);
    HubPads(n, copies, limit);
    forall i | 0 <= i < n ensures KeyOf(NodeRow("outgoing", i, END)) !in p.seen {
      RowKeys("outgoing", i, END, "outgoing", n, ROOT);
      RowKeys("outgoing", i, END, "outgoing", n, HUB);
      RowKeys("outgoing", i, END, "incoming", n, ROOT);
    }
    assert Relations(n)[..n] == Relations(n);
    PadVisit(s, HUB, 1, END, n, n, p);
    PadLength(p, END, n);
    HubIsQuiet(n, copies, limit, q);
    assert Relations(n + 1) == Relations(n) + [Rel(n)];
    VisitConcat(s, HUB, 1, Relations(n), [Rel(n)], p);
  }

  /** The run ends with every row but one; the limit is not reached. */
  lemma LoopLosesOne(n: nat, copies: nat, limit: nat)
    requires n + 3 < limit <= n + 3 + copies
    ensures ContextOf(Loop(n, copies, limit)) == Some(FoundRows(n)) && |FoundRows(n)| < limit
    ensures WithinReach(Loop(n, copies, limit), MissingRow(n)) && !Lists(FoundRows(n), KeyOf(MissingRow(n)))
    ensures !Whole(Loop(n, copies, limit))
  {
    hide Rel, KeyOf, Loop, FoundRows, WithinReach, Lists, MissingRow;
    LoopRun(n, copies, limit);
    FoundLength(n);
    MissingIsInReach(n, copies, limit);
    MissingIsNotFound(n);
  }

  lemma LoopRun(n: nat, copies: nat, limit: nat)
    requires n + 3 < limit <= n + 3 + copies
    ensures ContextOf(Loop(n, copies, limit)) == Some(FoundRows(n))
  {
    hide Rel, Neighbours, LoopEdges, KeyOf, KeySet, Visited, PadRows;
    var s := Loop(n, copies, limit);
    assert Rest(Start(s)) == EMPTY && s.relations == Relations(n) + [Rel(n)];
    RootPadsVisit(n, copies, limit, 0, EMPTY);
    RootAsks(n, copies, limit);
    VisitConcat(s, ROOT, 0, Relations(n), [Rel(n)], EMPTY);
    LoopRest(n, copies, limit);
  }

  lemma LoopRest(n: nat, copies: nat, limit: nat)
    requires n + 3 < limit <= n + 3 + copies
    ensures Expansion(Loop(n, copies, limit), AfterRoot(n, QUEUE)) == Some(FoundRows(n))
  {
    hide Rel, Neighbours, LoopEdges, KeyOf, KeySet, Visited, PadRows;
    var s := Loop(n, copies, limit);
    var two, one, none: seq<Queued> := [Queued(HUB, 1), Queued(ROOT, 1)], [Queued(ROOT, 1)], [];
    var p3, p2, q1, q0 := AfterRoot(n, QUEUE), AfterRoot(n, two), AfterHub(n, one), AfterHub(n, none);
    PadLength(AfterRoot(n, one), END, n);
    PadLength(AfterRoot(n, none), END, n);
    assert QUEUE[1..] == two && two[1..] == one && one[1..] == none;
    assert Rest(p3) == p2 && Rest(p2) == AfterRoot(n, one) && Rest(q1) == q0;
    RootIsQuiet(n, copies, limit, p2);
    HubVisit(n, copies, limit, one);
    RootIsQuiet(n, copies, limit, q0);
    assert Expansion(s, q0) == Some(q0.context);
    assert Expansion(s, q1) == Expansion(s, q0);
    assert Expansion(s, p2) == Expansion(s, q1);
    assert Expansion(s, p3) == Expansion(s, p2);
  }
}
