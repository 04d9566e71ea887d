/** A root with one step of depth: one edge over each of several relations, and over one more
    relation several edges to one node and a last one to another. */
module ContextFan {
  import opened Basics
  import opened ContextOrder
  import opened ContextExpansion
  import opened GraphContext
  import opened ContextRoom
  import opened ContextGraph
  import opened ContextRuns

  const ROOT := Node("T", "S")
  const HUB := Node("T", "A")
  const END := Node("T", "B")

  lemma NodesDiffer()
    ensures Named(ROOT) && Named(HUB) && Named(END) && ROOT != HUB && ROOT != END && HUB != END
  {
    assert "S"[0] != "A"[0] && "S"[0] != "B"[0] && "A"[0] != "B"[0];
  }

  function FanEdges(n: nat, copies: nat): seq<Edge> {
    PadEdges(ROOT, HUB, n) + Copies(copies, Edge(ROOT, Rel(n), HUB)) + [Edge(ROOT, Rel(n), END)]
  }

  function Fan(n: nat, copies: nat, limit: nat): Search {
    GraphSearch(FanEdges(n, copies), Relations(n + 1), ROOT, 1, limit)
  }

  lemma FanNeighbours(n: nat, copies: nat, x: Node, j: nat, d: string)
    ensures Neighbours(FanEdges(n, copies), x, Rel(j), d) ==
      if j < n then EdgeHits(Edge(ROOT, Rel(j), HUB), x, Rel(j), d)
      else if j > n then []
      else if d == "outgoing" && x == ROOT then Copies(copies, HitOf(HUB)) + [HitOf(END)]
      else if d == "incoming" && x == HUB then Copies(copies, HitOf(ROOT))
      else if d == "incoming" && x == END then [HitOf(ROOT)]
      else []
  {
    hide Neighbours, Rel, PadEdges, Copies;
    NodesDiffer();
    BothDirections();
    var pads, hubs, end := PadEdges(ROOT, HUB, n), Copies(copies, Edge(ROOT, Rel(n), HUB)), [Edge(ROOT, Rel(n), END)];
    NeighboursConcat(pads + hubs, end, x, Rel(j), d);
    NeighboursConcat(pads, hubs, x, Rel(j), d);
    PadNeighbours(ROOT, HUB, n, x, j, d);
    CopiedEdges(copies, Edge(ROOT, Rel(n), HUB), x, Rel(j), d);
    OneEdge(Edge(ROOT, Rel(n), END), x, Rel(j), d);
    assert |Rel(j)| == j + 1 && |Rel(n)| == n + 1;
  }

  lemma FanIsNamed(n: nat, copies: nat)
    ensures NamedEdges(FanEdges(n, copies))
  {
    hide Named, Rel;
    NodesDiffer();
    var es := FanEdges(n, copies);
    forall i | 0 <= i < |es| ensures Named(es[i].source) && Named(es[i].target) && ':' !in es[i].relation {
      assert es[i] in PadEdges(ROOT, HUB, n) || es[i] in Copies(copies, Edge(ROOT, Rel(n), HUB)) || es[i] == Edge(ROOT, Rel(n), END);
    }
  }

  lemma FanWidth(n: nat, copies: nat, x: Node, r: string, d: string)
    ensures |Neighbours(FanEdges(n, copies), x, r, d)| <= copies + 1
  {
    hide Neighbours, Rel;
    if j: nat :| r == Rel(j) { FanNeighbours(n, copies, x, j, d); }
    else { NoEdgeOfRelation(FanEdges(n, copies), x, r, d); }
  }

  /** The rows within reach: one for each padding relation, one more if there are copies,
      and the last. */
  function FanRows(n: nat, copies: nat): seq<Row> {
    PadRows(HUB, if copies == 0 then n else n + 1) + [NodeRow("outgoing", n, END)]
  }

  lemma FanLength(n: nat, copies: nat)
    ensures |FanRows(n, copies)| == if copies == 0 then n + 1 else n + 2
  {}

  lemma FanRowsAre(n: nat, copies: nat, limit: nat, row: Row)
    ensures WithinReach(Fan(n, copies, limit), row) <==> row in FanRows(n, copies)
  {
    hide Rel, Neighbours, FanEdges, KeyOf;
    var s := Fan(n, copies, limit);
    NodesDiffer();
    BothDirections();
    if WithinReach(s, row) {
      var k: nat :| k <= s.depthLimit && RowReached(s, row, k);
      var m :| Reached(s, m, k - 1) && Neighbour(s, m, row);
      assert m == ROOT;
      var j := RelationOf(s, n, row, m);
      NeighbourIsFan(n, copies, limit, j, row);
    }
    if row in FanRows(n, copies) {
      FanNeighbour(n, copies, limit, row);
      assert Reached(s, ROOT, 0);
      ReachedRow(s, ROOT, 0, row);
    }
  }

  lemma RelationOf(s: Search, n: nat, row: Row, m: Node) returns (j: nat)
    requires s.relations == Relations(n + 1) && Neighbour(s, m, row)
    ensures j <= n && row.relation == Rel(j)
  {
    hide Rel;
    var most :| Answers(s, m, row, most);
    j :| 0 <= j < |s.relations| && s.relations[j] == row.relation;
  }

  lemma NeighbourIsFan(n: nat, copies: nat, limit: nat, j: nat, row: Row)
    requires Neighbour(Fan(n, copies, limit), ROOT, row) && j <= n && row.relation == Rel(j)
    ensures row in FanRows(n, copies)
  {
    hide Rel, Neighbours, FanEdges;
    NodesDiffer();
    BothDirections();
    NeighbourDirection(Fan(n, copies, limit), ROOT, row);
    var most :| Answers(Fan(n, copies, limit), ROOT, row, most);
    GraphNeighbour(FanEdges(n, copies), Relations(n + 1), ROOT, 1, limit, ROOT, row);
    FanNeighbours(n, copies, ROOT, j, row.direction);
    var pads := PadRows(HUB, if copies == 0 then n else n + 1);
    if RowHit(row) == HitOf(HUB) && (j < n || copies > 0) {
      assert row == NodeRow("outgoing", j, HUB) == pads[j];
    } else {
      assert row == NodeRow("outgoing", n, END);
    }
  }

  lemma FanNeighbour(n: nat, copies: nat, limit: nat, row: Row)
    requires row in FanRows(n, copies)
    ensures Neighbour(Fan(n, copies, limit), ROOT, row)
  {
    hide Rel, Neighbours, FanEdges;
    NodesDiffer();
    BothDirections();
    var pads := PadRows(HUB, if copies == 0 then n else n + 1);
    var j := n;
    if row in pads { j :| 0 <= j < |pads| && pads[j] == row; }
    assert Relations(n + 1)[j] == Rel(j);
    FanNeighbours(n, copies, ROOT, j, "outgoing");
    GraphNeighbour(FanEdges(n, copies), Relations(n + 1), ROOT, 1, limit, ROOT, row);
    if j == n {
      var hits := Copies(copies, HitOf(HUB)) + [HitOf(END)];
      assert hits[copies] == HitOf(END) && (copies > 0 ==> hits[0] == HitOf(HUB));
    }
  }

  lemma FanKeysDiffer(n: nat, copies: nat)
    ensures DistinctKeys(FanRows(n, copies))
  {
    hide KeyOf, Rel;
    NodesDiffer();
    BothDirections();
    var rows := FanRows(n, copies);
    var last := |rows| - 1;
    forall i, j | 0 <= i < j < |rows| ensures KeyOf(rows[i]) != KeyOf(rows[j]) {
      if j < last { RowKeys("outgoing", i, HUB, "outgoing", j, HUB); }
      else { RowKeys("outgoing", i, HUB, "outgoing", n, END); }
    }
  }

  lemma FanIsSized(n: nat, copies: nat, limit: nat, keys: nat, width: nat)
    requires |FanRows(n, copies)| <= keys && copies + 1 <= width
    ensures IsGraph(Fan(n, copies, limit)) && Sized(Fan(n, copies, limit), keys, width, limit)
  {
    hide KeyOf, Rel, Neighbours, FanEdges, WithinReach, IsGraph, PlainNames, Uncut, FanRows;
    var s := Fan(n, copies, limit);
    FanIsNamed(n, copies);
    GraphSearchIsGraph(FanEdges(n, copies), Relations(n + 1), ROOT, 1, limit);
    forall x, r, d ensures |Neighbours(FanEdges(n, copies), x, r, d)| <= width { FanWidth(n, copies, x, r, d); }
    GraphIsPlainAndUncut(FanEdges(n, copies), Relations(n + 1), ROOT, 1, limit, width);
    var among := KeySet(FanRows(n, copies));
    KeySetSize(FanRows(n, copies));
    forall row | WithinReach(s, row) ensures KeyOf(row) in among { FanRowsAre(n, copies, limit, row); }
    assert KeysAmong(s, among);
  }

  /** More rows than the limit. */
  lemma FanIsTooWide(n: nat, limit: nat)
    requires limit <= n
    ensures !Whole(Fan(n, 0, limit))
  {
    hide KeyOf, Rel, Neighbours, FanEdges, WithinReach, Whole;
    var s, rows := Fan(n, 0, limit), FanRows(n, 0);
    forall i | 0 <= i < |rows| ensures WithinReach(s, rows[i]) { FanRowsAre(n, 0, limit, rows[i]); }
    FanKeysDiffer(n, 0);
    FanNeverFails(n, 0, limit);
    TooManyKeys(s, rows);
  }

  lemma FanNeverFails(n: nat, copies: nat, limit: nat)
    ensures NeverFails(Fan(n, copies, limit))
  {
    hide Rel, Neighbours, FanEdges;
    forall x, r, d, most ensures Fan(n, copies, limit).query(x, r, d, most).Some? {
      GraphAnswers(FanEdges(n, copies), Relations(n + 1), ROOT, 1, limit, x, r, d, most);
    }
  }

  // ------------------------------------------------------------------------ the run

  lemma FanAnswers(n: nat, copies: nat, limit: nat, x: Node, j: nat, d: string, most: nat)
    ensures Fan(n, copies, limit).query(x, Rel(j), d, most) == Some(Cut(Neighbours(FanEdges(n, copies), x, Rel(j), d), most))
  {
    hide Rel, Neighbours, FanEdges;
    GraphAnswers(FanEdges(n, copies), Relations(n + 1), ROOT, 1, limit, x, Rel(j), d, most);
  }

  lemma FanPads(n: nat, copies: nat, limit: nat)
    ensures PadsAnswer(Fan(n, copies, limit), ROOT, HUB, n)
  {
    hide Rel, Neighbours, FanEdges, Fan;
    NodesDiffer();
    BothDirections();
    forall j, most | 0 <= j < n && most > 0
      ensures var s := Fan(n, copies, limit);
              s.query(ROOT, Rel(j), "outgoing", most) == Some([HitOf(HUB)]) && s.query(ROOT, Rel(j), "incoming", most) == Some([]) {
      FanAnswers(n, copies, limit, ROOT, j, "outgoing", most);
      FanAnswers(n, copies, limit, ROOT, j, "incoming", most);
      FanNeighbours(n, copies, ROOT, j, "outgoing");
      FanNeighbours(n, copies, ROOT, j, "incoming");
    }
  }

  const EMPTY := Progress([], [], {})

  /** Cut before its end, the last query answers copies only. */
  lemma FanLastAsk(n: nat, copies: nat, limit: nat)
    requires n < limit <= n + copies
    ensures Visited(Fan(n, copies, limit), ROOT, 0, [Rel(n)], Padded(EMPTY, HUB, n)) == Some(Padded(EMPTY, HUB, n + 1))
  {
    hide KeyOf, Rel, Neighbours, FanEdges, PadRows, KeySet, Visited, AbsorbedAll;
    var s, p, next := Fan(n, copies, limit), Padded(EMPTY, HUB, n), Padded(EMPTY, HUB, n + 1);
    NodesDiffer();
    BothDirections();
    PadNext(EMPTY, HUB, n);
    PadLength(EMPTY, HUB, n);
    PadLength(EMPTY, HUB, n + 1);
    AskBoth(s, ROOT, 0, Rel(n), p);
    var most := limit - n;
    FanAnswers(n, copies, limit, ROOT, n, "outgoing", most);
    FanNeighbours(n, copies, ROOT, n, "outgoing");
    var hits := Cut(Copies(copies, HitOf(HUB)) + [HitOf(END)], most);
    assert hits == Copies(most, HitOf(HUB));
    assert RowOf("outgoing", Rel(n), HitOf(HUB)) == NodeRow("outgoing", n, HUB);
    assert Absorbed(s, 0, NodeRow("outgoing", n, HUB), p) == next;
    AbsorbFirst(s, 0, Rel(n), "outgoing", hits, p);
    assert Asked(s, ROOT, 0, Rel(n), "outgoing", p) == Some(next);
    if |next.context| < limit {
      FanAnswers(n, copies, limit, ROOT, n, "incoming", limit - |next.context|);
      FanNeighbours(n, copies, ROOT, n, "incoming");
      QuietAsk(s, ROOT, 0, Rel(n), "incoming", next);
    }
  }

  /** The rows end before the last one, whether or not the limit is reached. */
  lemma FanLosesLast(n: nat, copies: nat, limit: nat)
    requires n < limit <= n + copies
    ensures ContextOf(Fan(n, copies, limit)) == Some(PadRows(HUB, n + 1))
    ensures !Whole(Fan(n, copies, limit))
  {
    hide KeyOf, Rel, Neighbours, FanEdges, Visited, Padded, WithinReach, KeySet;
    var s := Fan(n, copies, limit);
    FanPads(n, copies, limit);
    NodesDiffer();
    assert Relations(n) == Relations(n)[..n];
    PadVisit(s, ROOT, 0, HUB, n, n, EMPTY);
    FanLastAsk(n, copies, limit);
    assert s.relations == Relations(n) + [Rel(n)];
    VisitConcat(s, ROOT, 0, Relations(n), [Rel(n)], EMPTY);
    assert Rest(Start(s)) == EMPTY;
    PadLength(EMPTY, HUB, n + 1);
    FanEnds(n, copies, limit);
    var rows, last := PadRows(HUB, n + 1), NodeRow("outgoing", n, END);
    FanRowsAre(n, copies, limit, last);
    BothDirections();
    forall i | 0 <= i < |rows| ensures KeyOf(rows[i]) != KeyOf(last) { RowKeys("outgoing", i, HUB, "outgoing", n, END); }
  }

  lemma FanEnds(n: nat, copies: nat, limit: nat)
    requires n < limit
    ensures var p := Padded(EMPTY, HUB, n + 1);
            |p.context| <= limit && Expansion(Fan(n, copies, limit), p) == Some(PadRows(HUB, n + 1))
  {
    hide KeyOf, Rel, KeySet, PadRows;
    PadLength(EMPTY, HUB, n + 1);
    assert [] + PadRows(HUB, n + 1) == PadRows(HUB, n + 1);
  }
}
