/** With at most three keys within reach, a graph gives whole contexts already when queries
    stay uncut while two keys or more are missing. */
module ContextFewKeys {
  import opened Basics
  import opened ContextOrder
  import opened ContextExpansion
  import opened GraphContext
  import opened ContextRoom
  import opened ContextGraph

  datatype Query = Query(node: Node, relation: string, direction: string)

  // ------------------------------------------------------- where the rows come from

  ghost predicate Expanded(s: Search, n: Node) {
    exists k: nat :: k < s.depthLimit && Reached(s, n, k)
  }

  ghost predicate FoundFrom(s: Search, row: Row, m: Node, asked: set<Query>) {
    Query(m, row.relation, row.direction) in asked && Neighbour(s, m, row)
  }

  ghost predicate HasOrigin(s: Search, row: Row, asked: set<Query>) {
    exists m :: FoundFrom(s, row, m, asked)
  }

  ghost predicate Origins(s: Search, context: seq<Row>, asked: set<Query>) {
    forall i :: 0 <= i < |context| ==> HasOrigin(s, context[i], asked)
  }

  ghost predicate AnswersSeen(s: Search, q: Query, seen: set<string>) {
    forall row :: Neighbour(s, q.node, row) && row.relation == q.relation && row.direction == q.direction ==> KeyOf(row) in seen
  }

  /** Every row was found by a query that was asked, of an expanded node, and no such query
      has answers that were missed. */
  ghost predicate Tracked(s: Search, p: Progress, asked: set<Query>) {
    Origins(s, p.context, asked) && forall q :: q in asked ==> Expanded(s, q.node) && AnswersSeen(s, q, p.seen)
  }

  lemma OriginsGrow(s: Search, context: seq<Row>, asked: set<Query>, more: set<Query>)
    requires Origins(s, context, asked) && asked <= more
    ensures Origins(s, context, more)
  {
    hide Neighbour;
    forall i | 0 <= i < |context| ensures HasOrigin(s, context[i], more) {
      assert HasOrigin(s, context[i], asked);
      var m :| FoundFrom(s, context[i], m, asked);
      assert FoundFrom(s, context[i], m, more);
    }
  }

  lemma {:induction false} AbsorbedFrom(s: Search, q: Query, depth: nat, hits: seq<Hit>, p: Progress, asked: set<Query>)
    requires Origins(s, p.context, asked) && q in asked
    requires forall h :: h in hits ==> Neighbour(s, q.node, RowOf(q.direction, q.relation, h))
    ensures Origins(s, AbsorbedAll(s, depth, q.relation, q.direction, hits, p).context, asked)
    decreases |hits|
  {
    hide Neighbour, KeyOf;
    if hits != [] && |p.context| < s.contextLimit {
      var row := RowOf(q.direction, q.relation, hits[0]);
      assert hits[0] in hits && FoundFrom(s, row, q.node, asked);
      assert HasOrigin(s, row, asked);
      var next := Absorbed(s, depth, row, p);
      assert Origins(s, next.context, asked);
      AbsorbedFrom(s, q, depth, hits[1..], next, asked);
    }
  }

  lemma SeenIsAmong(s: Search, among: set<string>, p: Progress, depths: seq<nat>, depth: nat)
    requires Sound(s, p, depths, depth) && KeysAmong(s, among)
    ensures p.seen <= among && |p.seen| == |p.context|
  {
    hide KeyOf, FrontierSound;
    forall key | key in p.seen ensures key in among {
      var i :| 0 <= i < |p.context| && KeyOf(p.context[i]) == key;
      assert WithinReach(s, p.context[i]);
    }
  }

  // -------------------------------------------------------------- what is enough

  /** Room for every key, and for the widest query while two keys are missing. */
  predicate RoomForFew(keys: nat, width: nat, limit: nat) {
    keys <= limit && (keys >= 2 ==> keys + width <= limit + 2)
  }

  /** The setting of this module. */
  ghost predicate Few(s: Search, among: set<string>, width: nat) {
    && IsGraph(s) && PlainNames(s) && Uncut(s, width) && KeysAmong(s, among)
    && |among| <= 3 && RoomForFew(|among|, width, s.contextLimit)
  }

  lemma AllKeysSeen(s: Search, among: set<string>, p: Progress, depths: seq<nat>, depth: nat, q: Query)
    requires Sound(s, p, depths, depth) && KeysAmong(s, among) && |p.context| >= |among| && Expanded(s, q.node)
    ensures AnswersSeen(s, q, p.seen)
  {
    hide KeyOf, Sound, Reached, Neighbour;
    SeenIsAmong(s, among, p, depths, depth);
    SubsetSize(p.seen, among);
    var k: nat :| k < s.depthLimit && Reached(s, q.node, k);
    forall row | Neighbour(s, q.node, row) ensures KeyOf(row) in p.seen { ReachedRow(s, q.node, k, row); }
  }

  /** An expansion is under way, and has missed nothing. */
  ghost predicate OnTrack(s: Search, among: set<string>, width: nat, p: Progress, depths: seq<nat>, depth: nat, asked: set<Query>) {
    Few(s, among, width) && Sound(s, p, depths, depth) && Tracked(s, p, asked)
  }

  /** A query that was cut, when one key is missing, is not the one that would find it. */
  lemma CutMissesNothing(s: Search, among: set<string>, width: nat, q: Query, limit: nat, hits: seq<Hit>, p: Progress,
                         depths: seq<nat>, depth: nat, asked: set<Query>)
    requires q !in asked && q.relation in s.relations && q.direction in DIRECTIONS && limit > 0 && |p.context| + 1 == |among|
    requires s.query(q.node, q.relation, q.direction, limit) == Some(hits) && HitsSeen(q.direction, q.relation, hits, p.seen)
    ensures OnTrack(s, among, width, p, depths, depth, asked) && Expanded(s, q.node) ==> AnswersSeen(s, q, p.seen)
  {
    hide KeyOf, Neighbour, IsGraph, PlainNames, Uncut, KeysAmong, Sound, Reached;
    if !(OnTrack(s, among, width, p, depths, depth, asked) && Expanded(s, q.node)) { return; }
    if hits == [] {
      NoAnswerNoNeighbour(s, q.node, q.relation, q.direction, limit);
    } else {
      var first := RowOf(q.direction, q.relation, hits[0]);
      HitsAreUsable(s, q.node, q.relation, q.direction, limit, hits[0]);
      NeighbourIsUsable(s, q.node, first);
      var m, same := OriginOf(s, p, depths, depth, asked, q.node, first);
      forall row | Neighbour(s, q.node, row) && row.relation == q.relation && row.direction == q.direction ensures KeyOf(row) in p.seen {
        if NodeOf(row) != NodeOf(first) {
          var a: nat :| a < s.depthLimit && Reached(s, q.node, a);
          var b: nat :| b < s.depthLimit && Reached(s, m, b);
          SharedNeighbourCosts(s, among, q.node, a, m, b, first, same, row);
        } else {
          SameKey(row, first);
        }
      }
    }
  }

  lemma SameKey(p: Row, q: Row)
    requires p.direction == q.direction && p.relation == q.relation && NodeOf(p) == NodeOf(q)
    ensures KeyOf(p) == KeyOf(q)
  {}

  lemma NeighbourIsUsable(s: Search, n: Node, row: Row)
    requires Neighbour(s, n, row)
    ensures Usable(row)
  {}

  /** A key that was seen was found by a query of its relation and direction. */
  lemma OriginOf(s: Search, p: Progress, depths: seq<nat>, depth: nat, asked: set<Query>, n: Node, row: Row) returns (m: Node, same: Row)
    requires Neighbour(s, n, row) && KeyOf(row) in p.seen
    ensures PlainNames(s) && Sound(s, p, depths, depth) && Tracked(s, p, asked) ==>
              && Query(m, row.relation, row.direction) in asked && Expanded(s, m) && Neighbour(s, m, same)
              && same.direction == row.direction && same.relation == row.relation && NodeOf(same) == NodeOf(row)
  {
    hide KeyOf, Neighbour, Reached, FrontierSound, RowReached;
    m, same := n, row;
    if !(PlainNames(s) && Sound(s, p, depths, depth) && Tracked(s, p, asked)) { return; }
    var i :| 0 <= i < |p.context| && KeyOf(p.context[i]) == KeyOf(row);
    same := p.context[i];
    assert HasOrigin(s, same, asked);
    m :| FoundFrom(s, same, m, asked);
    NeighbourDirection(s, m, same);
    NeighbourDirection(s, n, row);
    KeyIsInjective(same, row);
  }

  // ------------------------------------------------------------------ the queries

  lemma AskMissesNothing(s: Search, among: set<string>, width: nat, depth: nat, q: Query, p: Progress, depths: seq<nat>, asked: set<Query>)
    returns (e: seq<nat>)
    requires depth < s.depthLimit && q.relation in s.relations && q.direction in DIRECTIONS
    requires Asked(s, q.node, depth, q.relation, q.direction, p).Some?
    ensures OnTrack(s, among, width, p, depths, depth, asked) && Reached(s, q.node, depth) ==>
              var next := Asked(s, q.node, depth, q.relation, q.direction, p).value;
              Sound(s, next, e, depth) && Grows(s, p, depths, next, e, depth) && Tracked(s, next, asked + {q})
  {
    hide KeyOf, Neighbour, Sound, Grows, Reached, AbsorbedAll, HitsSeen, DIRECTIONS, IsGraph, PlainNames, KeysAmong, AnswersSeen, Origins;
    e := depths;
    if !(OnTrack(s, among, width, p, depths, depth, asked) && Reached(s, q.node, depth)) { return; }
    assert Expanded(s, q.node);
    SoundLength(s, p, depths, depth);
    var next := Asked(s, q.node, depth, q.relation, q.direction, p).value;
    if |p.context| >= s.contextLimit {
      e := depths;
      GrowsNot(s, p, depths, depth);
      OriginsGrow(s, p.context, asked, asked + {q});
      AllKeysSeen(s, among, p, depths, depth, q);
    } else {
      var limit := s.contextLimit - |p.context|;
      var hits := s.query(q.node, q.relation, q.direction, limit).value;
      e := AbsorbAllIsSound(s, q.node, depth, q.relation, q.direction, hits, limit, p, depths);
      SoundLength(s, next, e, depth);
      SeenGrows(s, p, depths, next, e, depth);
      OriginsGrow(s, p.context, asked, asked + {q});
      forall h | h in hits ensures Neighbour(s, q.node, RowOf(q.direction, q.relation, h)) {
        HitsAreUsable(s, q.node, q.relation, q.direction, limit, h);
      }
      AbsorbedFrom(s, q, depth, hits, p, asked + {q});
      forall o | o in asked ensures AnswersSeen(s, o, next.seen) { AnswersStaySeen(s, o, p.seen, next.seen); }
      if |next.context| >= |among| {
        AllKeysSeen(s, among, next, e, depth, q);
      } else if q !in asked {
        if width <= limit {
          UncutAnswersSeen(s, width, q, limit, hits, next);
        } else {
          NothingNew(s, p, depths, next, e, depth);
          CutMissesNothing(s, among, width, q, limit, hits, p, depths, depth, asked);
        }
      }
    }
  }

  lemma AnswersStaySeen(s: Search, q: Query, seen: set<string>, more: set<string>)
    requires AnswersSeen(s, q, seen) && seen <= more
    ensures AnswersSeen(s, q, more)
  {
    hide KeyOf, Neighbour;
  }

  lemma UncutAnswersSeen(s: Search, width: nat, q: Query, limit: nat, hits: seq<Hit>, p: Progress)
    requires Uncut(s, width) && width <= limit && s.query(q.node, q.relation, q.direction, limit) == Some(hits)
    requires HitsSeen(q.direction, q.relation, hits, p.seen)
    ensures AnswersSeen(s, q, p.seen)
  {
    hide KeyOf;
    forall row | Neighbour(s, q.node, row) && row.relation == q.relation && row.direction == q.direction ensures KeyOf(row) in p.seen {
      var l :| Answers(s, q.node, row, l);
      assert Answers(s, q.node, row, limit);
      assert RowOf(q.direction, q.relation, RowHit(row)) == row;
      var i :| 0 <= i < |hits| && hits[i] == RowHit(row);
    }
  }

  lemma NothingNew(s: Search, p: Progress, d: seq<nat>, q: Progress, e: seq<nat>, depth: nat)
    requires Sound(s, p, d, depth) && Sound(s, q, e, depth) && Grows(s, p, d, q, e, depth) && |p.context| == |q.context|
    ensures p.seen == q.seen
  {
    hide KeyOf, RowReached, FrontierSound;
    SubsetSize(p.seen, q.seen);
  }

  function Queries(node: Node, relation: string, directions: seq<string>): set<Query> {
    set d | d in directions :: Query(node, relation, d)
  }

  lemma {:induction false} AskAllMissesNothing(s: Search, among: set<string>, width: nat, node: Node, depth: nat, relation: string,
                                               directions: seq<string>, p: Progress, depths: seq<nat>, asked: set<Query>)
    returns (e: seq<nat>)
    requires depth < s.depthLimit && relation in s.relations && (forall d :: d in directions ==> d in DIRECTIONS)
    requires AskedAll(s, node, depth, relation, directions, p).Some?
    ensures OnTrack(s, among, width, p, depths, depth, asked) && Reached(s, node, depth) ==>
              var next := AskedAll(s, node, depth, relation, directions, p).value;
              && Sound(s, next, e, depth) && Grows(s, p, depths, next, e, depth)
              && Tracked(s, next, asked + Queries(node, relation, directions))
    decreases |directions|
  {
    hide Few, Sound, Grows, Reached, Asked, DIRECTIONS, Tracked;
    e := depths;
    if !(OnTrack(s, among, width, p, depths, depth, asked) && Reached(s, node, depth)) { return; }
    GrowsNot(s, p, depths, depth);
    if directions == [] {
      assert asked + Queries(node, relation, directions) == asked;
    } else {
      var q := Query(node, relation, directions[0]);
      var middle := Asked(s, node, depth, relation, directions[0], p).value;
      assert directions[0] in directions && directions == [directions[0]] + directions[1..];
      var d := AskMissesNothing(s, among, width, depth, q, p, depths, asked);
      e := AskAllMissesNothing(s, among, width, node, depth, relation, directions[1..], middle, d, asked + {q});
      GrowsTwice(s, p, depths, middle, d, AskedAll(s, node, depth, relation, directions, p).value, e, depth);
      assert asked + {q} + Queries(node, relation, directions[1..]) == asked + Queries(node, relation, directions);
    }
  }

  function AllQueries(node: Node, relations: seq<string>): set<Query> {
    set r, d | r in relations && d in DIRECTIONS :: Query(node, r, d)
  }

  lemma {:induction false} VisitMissesNothing(s: Search, among: set<string>, width: nat, node: Node, depth: nat,
                                              relations: seq<string>, p: Progress, depths: seq<nat>, asked: set<Query>)
    returns (e: seq<nat>)
    requires depth < s.depthLimit && (forall r :: r in relations ==> r in s.relations)
    requires Visited(s, node, depth, relations, p).Some?
    ensures OnTrack(s, among, width, p, depths, depth, asked) && Reached(s, node, depth) ==>
              var next := Visited(s, node, depth, relations, p).value;
              && Sound(s, next, e, depth) && Grows(s, p, depths, next, e, depth)
              && Tracked(s, next, asked + AllQueries(node, relations))
    decreases |relations|
  {
    hide Few, Sound, Grows, Reached, AskedAll, DIRECTIONS, Tracked;
    e := depths;
    if !(OnTrack(s, among, width, p, depths, depth, asked) && Reached(s, node, depth)) { return; }
    GrowsNot(s, p, depths, depth);
    if relations == [] {
      assert asked + AllQueries(node, relations) == asked;
    } else {
      var r := relations[0];
      var middle := AskedAll(s, node, depth, r, DIRECTIONS, p).value;
      assert r in relations && relations == [r] + relations[1..];
      var d := AskAllMissesNothing(s, among, width, node, depth, r, DIRECTIONS, p, depths, asked);
      e := VisitMissesNothing(s, among, width, node, depth, relations[1..], middle, d, asked + Queries(node, r, DIRECTIONS));
      GrowsTwice(s, p, depths, middle, d, Visited(s, node, depth, relations, p).value, e, depth);
      assert asked + Queries(node, r, DIRECTIONS) + AllQueries(node, relations[1..]) == asked + AllQueries(node, relations);
    }
  }

  // ------------------------------------------------------------------ the expansion

  lemma VisitedIsSettled(s: Search, p: Progress, depths: seq<nat>, depth: nat, node: Node, asked: set<Query>)
    requires Sound(s, p, depths, depth) && Tracked(s, p, asked) && AllQueries(node, s.relations) <= asked
    ensures |p.context| == |depths| && Settled(s, p.context, depths, node, depth)
  {
    hide KeyOf, Sound, Listed, DIRECTIONS, Reached;
    SoundLength(s, p, depths, depth);
    forall row | Neighbour(s, node, row) ensures Listed(p.context, depths, KeyOf(row), depth + 1) {
      var l :| Answers(s, node, row, l);
      assert Query(node, row.relation, row.direction) in asked;
      SeenIsListed(s, p, depths, depth, KeyOf(row));
    }
  }

  lemma {:induction false} ExpansionMissesNothing(s: Search, among: set<string>, width: nat, p: Progress, depths: seq<nat>, depth: nat, asked: set<Query>)
    requires Few(s, among, width) && Sound(s, p, depths, depth) && Tracked(s, p, asked) && Accounted(s, p, depths)
    requires |p.context| <= s.contextLimit && Expansion(s, p).Some?
    ensures forall row :: WithinReach(s, row) ==> Lists(Expansion(s, p).value, KeyOf(row))
    decreases |p.frontier| + s.contextLimit - |p.context|
  {
    hide KeyOf, Reached, Sound, Grows, Accounted, Settled, PlainNames, Visited, Uncut, IsGraph, Tracked, WithinReach, Lists;
    if p.frontier == [] {
      SoundRows(s, p, depths, depth);
      AllIsListed(s, p, depths);
      forall row | WithinReach(s, row) ensures Lists(p.context, KeyOf(row)) { CompleteLists(s, p.context, depths, row); }
    } else if |p.context| >= s.contextLimit {
      FullExpandsNothing(s, p);
      FullListsAll(s, among, p, depths, depth);
    } else {
      var first := p.frontier[0];
      SoundAdvances(s, p, depths, depth);
      var q := Visited(s, first.node, first.depth, s.relations, Rest(p)).value;
      TrackedRest(s, p, asked);
      var d := VisitMissesNothing(s, among, width, first.node, first.depth, s.relations, Rest(p), depths, asked);
      var more := asked + AllQueries(first.node, s.relations);
      VisitedIsSettled(s, q, d, first.depth, first.node, more);
      AccountedStep(s, p, depths, q, d);
      SoundLength(s, q, d, first.depth);
      ExpansionMissesNothing(s, among, width, q, d, first.depth, more);
    }
  }

  lemma TrackedRest(s: Search, p: Progress, asked: set<Query>)
    requires Tracked(s, p, asked) && p.frontier != []
    ensures Tracked(s, Rest(p), asked)
  {
    hide Origins, AnswersSeen, Expanded;
  }

  lemma FullListsAll(s: Search, among: set<string>, p: Progress, depths: seq<nat>, depth: nat)
    requires Sound(s, p, depths, depth) && KeysAmong(s, among) && |p.context| >= |among|
    ensures forall row :: WithinReach(s, row) ==> Lists(p.context, KeyOf(row))
  {
    hide KeyOf, RowReached, FrontierSound;
    SeenIsAmong(s, among, p, depths, depth);
    SubsetSize(p.seen, among);
  }

  /** Room for every key, and for the widest query while two keys are missing, makes the
      context of a graph with at most three keys whole. */
  lemma RoomForFewKeys(s: Search, among: set<string>, width: nat)
    requires Few(s, among, width) && s.depthLimit > 0
    ensures Whole(s)
  {
    hide KeyOf, Reached, Sound, Accounted, Few, WithinReach, Lists, Expansion;
    if ContextOf(s).Some? {
      StartIsSound(s, Start(s));
      assert Tracked(s, Start(s), {});
      ExpansionMissesNothing(s, among, width, Start(s), [], 0, {});
    }
  }
}
