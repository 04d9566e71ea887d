/** What the expansion finds: which rows, how far away, and when none is missing. */
module GraphContext {
  import opened Basics
  import opened ContextOrder
  import opened ContextExpansion

  // ---------------------------------------------------------------- the graph searched

  /** The query lists `row` as a neighbour of `from` under some limit. */
  ghost predicate Answers(s: Search, from: Node, row: Row, limit: nat) {
    && row.relation in s.relations && row.direction in DIRECTIONS && Usable(row)
    && var hits := s.query(from, row.relation, row.direction, limit);
       hits.Some? && Hit(row.kind, row.id, row.childIndex, row.columns) in hits.value
  }

  ghost predicate Neighbour(s: Search, from: Node, row: Row) {
    exists limit :: Answers(s, from, row, limit)
  }

  /** `node` is at the end of a walk of `steps` edges from the start. */
  ghost predicate Reached(s: Search, node: Node, steps: nat)
    decreases steps
  {
    if steps == 0 then node == s.start
    else exists m, row :: Reached(s, m, steps - 1) && Neighbour(s, m, row) && NodeOf(row) == node
  }

  ghost predicate RowReached(s: Search, row: Row, steps: nat) {
    steps > 0 && exists m :: Reached(s, m, steps - 1) && Neighbour(s, m, row)
  }

  // ---------------------------------------------------------------------- invariants

  predicate DistinctKeys(rows: seq<Row>) {
    forall i, j :: 0 <= i < j < |rows| ==> KeyOf(rows[i]) != KeyOf(rows[j])
  }

  ghost predicate Rising(depths: seq<nat>) {
    forall i, j :: 0 <= i < j < |depths| ==> depths[i] <= depths[j]
  }

  ghost predicate RowsReached(s: Search, context: seq<Row>, depths: seq<nat>) {
    |depths| == |context|
    && forall i :: 0 <= i < |depths| ==> depths[i] <= s.depthLimit && RowReached(s, context[i], depths[i])
  }

  ghost predicate KeysSeen(context: seq<Row>, seen: set<string>) {
    (forall i :: 0 <= i < |context| ==> KeyOf(context[i]) in seen)
    && (forall k :: k in seen ==> exists i :: 0 <= i < |context| && KeyOf(context[i]) == k)
    && |seen| == |context|
  }

  ghost predicate FrontierSound(s: Search, frontier: seq<Queued>, depth: nat) {
    (forall i :: 0 <= i < |frontier| ==>
       depth <= frontier[i].depth <= depth + 1 && frontier[i].depth < s.depthLimit && Reached(s, frontier[i].node, frontier[i].depth))
    && forall i, j :: 0 <= i < j < |frontier| ==> frontier[i].depth <= frontier[j].depth
  }

  /** What holds while nodes of depth `depth` are expanded. `depths` records at which
      depth each row was found. */
  ghost predicate Sound(s: Search, p: Progress, depths: seq<nat>, depth: nat) {
    && |p.context| <= s.contextLimit
    && DistinctKeys(p.context)
    && KeysSeen(p.context, p.seen)
    && RowsReached(s, p.context, depths)
    && Rising(depths)
    && (forall i :: 0 <= i < |depths| ==> depths[i] <= depth + 1)
    && FrontierSound(s, p.frontier, depth)
  }

  /** `q` is `p` with more rows, all found at `depth + 1`, and their nodes queued. */
  ghost predicate Grows(s: Search, p: Progress, d: seq<nat>, q: Progress, e: seq<nat>, depth: nat) {
    && |d| == |p.context| <= |q.context| == |e|
    && p.context == q.context[..|p.context|] && d == e[..|d|]
    && |p.frontier| <= |q.frontier| && p.frontier == q.frontier[..|p.frontier|]
    && |q.frontier| - |p.frontier| <= |q.context| - |p.context|
    && p.seen <= q.seen
    && forall i :: |d| <= i < |e| ==>
         e[i] == depth + 1 && (depth + 1 < s.depthLimit ==> Queued(NodeOf(q.context[i]), depth + 1) in q.frontier)
  }

  lemma GrowsTwice(s: Search, p: Progress, d: seq<nat>, q: Progress, e: seq<nat>, r: Progress, f: seq<nat>, depth: nat)
    requires Grows(s, p, d, q, e, depth) && Grows(s, q, e, r, f, depth)
    ensures Grows(s, p, d, r, f, depth)
  {
    forall i | |d| <= i < |f|
      ensures f[i] == depth + 1 && (depth + 1 < s.depthLimit ==> Queued(NodeOf(r.context[i]), depth + 1) in r.frontier) {
      if i < |e| {
        assert f[i] == e[i] && r.context[i] == q.context[i];
        assert forall x :: x in q.frontier ==> x in r.frontier;
      }
    }
  }

  // ------------------------------------------------------------------ one neighbour

  lemma AbsorbIsSound(s: Search, from: Node, depth: nat, row: Row, p: Progress, depths: seq<nat>) returns (e: seq<nat>)
    requires Sound(s, p, depths, depth) && depth < s.depthLimit && |p.context| < s.contextLimit
    requires Reached(s, from, depth) && (Usable(row) ==> Neighbour(s, from, row))
    ensures var q := Absorbed(s, depth, row, p);
            Sound(s, q, e, depth) && Grows(s, p, depths, q, e, depth) && (Usable(row) ==> KeyOf(row) in q.seen)
  {
    hide KeyOf, Reached, Neighbour, FrontierSound, KeysSeen, RowReached;
    e := depths;
    if !Usable(row) || KeyOf(row) in p.seen { return; }
    if depth + 1 < s.depthLimit {
      var frontier := p.frontier + [Queued(NodeOf(row), depth + 1)];
      assert frontier[|frontier| - 1] == Queued(NodeOf(row), depth + 1);
      ReachedNext(s, from, row, depth);
      FrontierNext(s, p.frontier, NodeOf(row), depth);
    }
    e := depths + [depth + 1];
    RowReachedNext(s, from, row, depth);
    KeysSeenNext(p.context, p.seen, row);
  }

  lemma FrontierNext(s: Search, frontier: seq<Queued>, node: Node, depth: nat)
    requires FrontierSound(s, frontier, depth) && depth + 1 < s.depthLimit && Reached(s, node, depth + 1)
    ensures FrontierSound(s, frontier + [Queued(node, depth + 1)], depth)
  {
    hide Reached;
  }

  lemma RowReachedNext(s: Search, from: Node, row: Row, depth: nat)
    requires Reached(s, from, depth) && Neighbour(s, from, row)
    ensures RowReached(s, row, depth + 1)
  {
    hide Reached, Neighbour;
    assert Reached(s, from, depth + 1 - 1);
  }

  lemma KeysSeenNext(context: seq<Row>, seen: set<string>, row: Row)
    requires KeysSeen(context, seen) && KeyOf(row) !in seen
    ensures KeysSeen(context + [row], seen + {KeyOf(row)})
    ensures forall i :: 0 <= i < |context| ==> KeyOf(context[i]) != KeyOf(row)
  {
    hide KeyOf;
    var more := context + [row];
    forall k | k in seen + {KeyOf(row)} ensures exists i :: 0 <= i < |more| && KeyOf(more[i]) == k {
      if k in seen {
        var i :| 0 <= i < |context| && KeyOf(context[i]) == k;
        assert more[i] == context[i];
      } else {
        assert more[|context|] == row;
      }
    }
  }

  lemma ReachedNext(s: Search, from: Node, row: Row, depth: nat)
    requires Reached(s, from, depth) && Neighbour(s, from, row)
    ensures Reached(s, NodeOf(row), depth + 1)
  {
    hide Neighbour;
  }

  // -------------------------------------------------------------- one query's answer

  ghost predicate HitsSeen(direction: string, relation: string, hits: seq<Hit>, seen: set<string>) {
    forall i :: 0 <= i < |hits| && Usable(RowOf(direction, relation, hits[i])) ==> KeyOf(RowOf(direction, relation, hits[i])) in seen
  }

  lemma GrowsNot(s: Search, p: Progress, depths: seq<nat>, depth: nat)
    requires Sound(s, p, depths, depth)
    ensures Grows(s, p, depths, p, depths, depth)
  {
    hide KeysSeen, RowReached, FrontierSound;
  }

  lemma {:induction false} AbsorbAllIsSound(s: Search, from: Node, depth: nat, relation: string, direction: string, hits: seq<Hit>,
                                            limit: nat, p: Progress, depths: seq<nat>)
    returns (e: seq<nat>)
    requires Sound(s, p, depths, depth) && depth < s.depthLimit
    requires Reached(s, from, depth) && relation in s.relations && direction in DIRECTIONS
    requires s.query(from, relation, direction, limit).Some?
    requires forall h :: h in hits ==> h in s.query(from, relation, direction, limit).value
    ensures var q := AbsorbedAll(s, depth, relation, direction, hits, p);
            && Sound(s, q, e, depth) && Grows(s, p, depths, q, e, depth)
            && (|q.context| < s.contextLimit ==> HitsSeen(direction, relation, hits, q.seen))
    decreases |hits|
  {
    hide KeyOf, Reached, Sound, Grows, Absorbed, DIRECTIONS;
    e := depths;
    GrowsNot(s, p, depths, depth);
    if hits != [] && |p.context| < s.contextLimit {
      var row := RowOf(direction, relation, hits[0]);
      assert hits[0] in hits;
      if Usable(row) { assert Answers(s, from, row, limit); }
      var middle := Absorbed(s, depth, row, p);
      var d := AbsorbIsSound(s, from, depth, row, p, depths);
      e := AbsorbAllIsSound(s, from, depth, relation, direction, hits[1..], limit, middle, d);
      var q := AbsorbedAll(s, depth, relation, direction, hits, p);
      GrowsTwice(s, p, depths, middle, d, q, e, depth);
      SeenGrows(s, middle, d, q, e, depth);
      assert hits == [hits[0]] + hits[1..];
    }
  }

  lemma SeenGrows(s: Search, p: Progress, d: seq<nat>, q: Progress, e: seq<nat>, depth: nat)
    requires Grows(s, p, d, q, e, depth)
    ensures p.seen <= q.seen
  {}

  // ---------------------------------------------------------------- completeness

  /** No query has more than `width` answers: a limit of that size or more never cuts one
      short. */
  ghost predicate Uncut(s: Search, width: nat) {
    0 < width && forall m, row, limit, other :: Answers(s, m, row, limit) && width <= other ==> Answers(s, m, row, other)
  }

  /** So many rows leave every query before them uncut. */
  ghost predicate Spare(s: Search, width: nat, rows: nat) {
    Uncut(s, width) && rows + width <= s.contextLimit
  }

  /** A row with this key was found at `depth` or before. */
  ghost predicate Listed(context: seq<Row>, depths: seq<nat>, key: string, depth: nat)
    requires |context| == |depths|
  {
    exists i :: 0 <= i < |context| && KeyOf(context[i]) == key && depths[i] <= depth
  }

  /** Every neighbour of `node` over one relation and direction is listed. */
  ghost predicate Covered(s: Search, context: seq<Row>, depths: seq<nat>, node: Node, depth: nat, relation: string, direction: string)
    requires |context| == |depths|
  {
    forall row :: Neighbour(s, node, row) && row.relation == relation && row.direction == direction ==>
      Listed(context, depths, KeyOf(row), depth + 1)
  }

  ghost predicate Settled(s: Search, context: seq<Row>, depths: seq<nat>, node: Node, depth: nat)
    requires |context| == |depths|
  {
    forall row :: Neighbour(s, node, row) ==> Listed(context, depths, KeyOf(row), depth + 1)
  }

  lemma ListedStays(s: Search, p: Progress, d: seq<nat>, q: Progress, e: seq<nat>, at: nat, key: string, depth: nat)
    requires Grows(s, p, d, q, e, at) && Listed(p.context, d, key, depth)
    ensures Listed(q.context, e, key, depth)
  {
    hide KeyOf;
    var i :| 0 <= i < |p.context| && KeyOf(p.context[i]) == key && d[i] <= depth;
    assert q.context[i] == p.context[i] && e[i] == d[i];
  }

  lemma SeenIsListed(s: Search, p: Progress, d: seq<nat>, depth: nat, key: string)
    requires Sound(s, p, d, depth) && key in p.seen
    ensures |p.context| == |d| && Listed(p.context, d, key, depth + 1)
  {
    hide KeyOf, RowReached, FrontierSound;
    var i :| 0 <= i < |p.context| && KeyOf(p.context[i]) == key;
  }

  /** One query that was not cut short covers its relation and direction. */
  lemma AnsweredIsCovered(s: Search, width: nat, node: Node, depth: nat, relation: string, direction: string,
                          limit: nat, hits: seq<Hit>, q: Progress, e: seq<nat>)
    requires Uncut(s, width) && width <= limit
    requires s.query(node, relation, direction, limit) == Some(hits)
    requires Sound(s, q, e, depth) && HitsSeen(direction, relation, hits, q.seen)
    ensures |q.context| == |e| && Covered(s, q.context, e, node, depth, relation, direction)
  {
    hide KeyOf, Sound, Listed;
    SoundLength(s, q, e, depth);
    forall row | Neighbour(s, node, row) && row.relation == relation && row.direction == direction
      ensures Listed(q.context, e, KeyOf(row), depth + 1) {
      var l :| Answers(s, node, row, l);
      assert Answers(s, node, row, limit);
      var hit := Hit(row.kind, row.id, row.childIndex, row.columns);
      assert RowOf(direction, relation, hit) == row;
      var i :| 0 <= i < |hits| && hits[i] == hit;
      SeenIsListed(s, q, e, depth, KeyOf(row));
    }
  }

  lemma SoundLength(s: Search, p: Progress, d: seq<nat>, depth: nat)
    requires Sound(s, p, d, depth)
    ensures |p.context| == |d| <= s.contextLimit && |p.seen| == |p.context|
  {
    hide KeyOf, RowReached, FrontierSound;
  }

  lemma CoveredStays(s: Search, p: Progress, d: seq<nat>, q: Progress, e: seq<nat>, at: nat, node: Node, depth: nat, relation: string, direction: string)
    requires Grows(s, p, d, q, e, at) && Covered(s, p.context, d, node, depth, relation, direction)
    ensures Covered(s, q.context, e, node, depth, relation, direction)
  {
    hide KeyOf, Listed, Neighbour;
    forall row | Neighbour(s, node, row) && row.relation == relation && row.direction == direction
      ensures Listed(q.context, e, KeyOf(row), depth + 1) {
      ListedStays(s, p, d, q, e, at, KeyOf(row), depth + 1);
    }
  }

  lemma SettledStays(s: Search, p: Progress, d: seq<nat>, q: Progress, e: seq<nat>, at: nat, node: Node, depth: nat)
    requires Grows(s, p, d, q, e, at) && Settled(s, p.context, d, node, depth)
    ensures Settled(s, q.context, e, node, depth)
  {
    hide KeyOf, Listed, Neighbour;
    forall row | Neighbour(s, node, row) ensures Listed(q.context, e, KeyOf(row), depth + 1) {
      ListedStays(s, p, d, q, e, at, KeyOf(row), depth + 1);
    }
  }

  lemma CoveredStaysIn(s: Search, p: Progress, d: seq<nat>, q: Progress, e: seq<nat>, at: nat, node: Node, relation: string, direction: string)
    requires Grows(s, p, d, q, e, at) && Covered(s, p.context, d, node, at, relation, direction)
    ensures |q.context| == |e| && Covered(s, q.context, e, node, at, relation, direction)
  {
    hide Covered;
    CoveredStays(s, p, d, q, e, at, node, at, relation, direction);
  }

  // ------------------------------------------------------------------- one node

  lemma AskIsSound(s: Search, node: Node, depth: nat, relation: string, direction: string, p: Progress, depths: seq<nat>, width: nat)
    returns (e: seq<nat>)
    requires Sound(s, p, depths, depth) && depth < s.depthLimit && Reached(s, node, depth)
    requires relation in s.relations && direction in DIRECTIONS
    requires Asked(s, node, depth, relation, direction, p).Some?
    ensures var q := Asked(s, node, depth, relation, direction, p).value;
            && Sound(s, q, e, depth) && Grows(s, p, depths, q, e, depth) && |q.context| == |e|
            && (Spare(s, width, |q.context|) ==> Covered(s, q.context, e, node, depth, relation, direction))
  {
    hide KeyOf, Reached, Sound, Grows, Covered, HitsSeen, DIRECTIONS, AbsorbedAll;
    SoundLength(s, p, depths, depth);
    GrowsNot(s, p, depths, depth);
    e := depths;
    if |p.context| < s.contextLimit {
      var limit := s.contextLimit - |p.context|;
      var hits := s.query(node, relation, direction, limit).value;
      e := AbsorbAllIsSound(s, node, depth, relation, direction, hits, limit, p, depths);
      var q := AbsorbedAll(s, depth, relation, direction, hits, p);
      SoundLength(s, q, e, depth);
      if Spare(s, width, |q.context|) {
        AnsweredIsCovered(s, width, node, depth, relation, direction, limit, hits, q, e);
      }
    }
  }

  lemma {:induction false} AskAllIsSound(s: Search, node: Node, depth: nat, relation: string, directions: seq<string>, p: Progress,
                                         depths: seq<nat>, width: nat)
    returns (e: seq<nat>)
    requires Sound(s, p, depths, depth) && depth < s.depthLimit && Reached(s, node, depth) && relation in s.relations
    requires (forall d :: d in directions ==> d in DIRECTIONS) && AskedAll(s, node, depth, relation, directions, p).Some?
    ensures var q := AskedAll(s, node, depth, relation, directions, p).value;
            && Sound(s, q, e, depth) && Grows(s, p, depths, q, e, depth) && |q.context| == |e|
            && (Spare(s, width, |q.context|) ==> forall d :: d in directions ==> Covered(s, q.context, e, node, depth, relation, d))
    decreases |directions|
  {
    hide KeyOf, Reached, Sound, Grows, Covered, Uncut, Asked, DIRECTIONS;
    SoundLength(s, p, depths, depth);
    GrowsNot(s, p, depths, depth);
    e := depths;
    if directions != [] {
      var middle := Asked(s, node, depth, relation, directions[0], p).value;
      assert directions[0] in directions && directions == [directions[0]] + directions[1..];
      var d := AskIsSound(s, node, depth, relation, directions[0], p, depths, width);
      e := AskAllIsSound(s, node, depth, relation, directions[1..], middle, d, width);
      var q := AskedAll(s, node, depth, relation, directions, p).value;
      GrowsTwice(s, p, depths, middle, d, q, e, depth);
      if Spare(s, width, |q.context|) { CoveredStaysIn(s, middle, d, q, e, depth, node, relation, directions[0]); }
    }
  }

  ghost predicate CoveredRelation(s: Search, context: seq<Row>, depths: seq<nat>, node: Node, depth: nat, relation: string)
    requires |context| == |depths|
  {
    forall d :: d in DIRECTIONS ==> Covered(s, context, depths, node, depth, relation, d)
  }

  lemma {:induction false} VisitIsSound(s: Search, node: Node, depth: nat, relations: seq<string>, p: Progress, depths: seq<nat>, width: nat)
    returns (e: seq<nat>)
    requires Sound(s, p, depths, depth) && depth < s.depthLimit && Reached(s, node, depth)
    requires (forall r :: r in relations ==> r in s.relations) && Visited(s, node, depth, relations, p).Some?
    ensures var q := Visited(s, node, depth, relations, p).value;
            && Sound(s, q, e, depth) && Grows(s, p, depths, q, e, depth) && |q.context| == |e|
            && (Spare(s, width, |q.context|) ==> forall r :: r in relations ==> CoveredRelation(s, q.context, e, node, depth, r))
    decreases |relations|
  {
    hide KeyOf, Reached, Sound, Grows, Covered, Uncut, AskedAll, DIRECTIONS;
    SoundLength(s, p, depths, depth);
    GrowsNot(s, p, depths, depth);
    e := depths;
    if relations != [] {
      var r := relations[0];
      var middle := AskedAll(s, node, depth, r, DIRECTIONS, p).value;
      assert r in relations && relations == [r] + relations[1..];
      var d := AskAllIsSound(s, node, depth, r, DIRECTIONS, p, depths, width);
      e := VisitIsSound(s, node, depth, relations[1..], middle, d, width);
      var q := Visited(s, node, depth, relations, p).value;
      GrowsTwice(s, p, depths, middle, d, q, e, depth);
      if Spare(s, width, |q.context|) {
        forall way | way in DIRECTIONS ensures Covered(s, q.context, e, node, depth, r, way) {
          CoveredStaysIn(s, middle, d, q, e, depth, node, r, way);
        }
      }
    }
  }

  lemma AllRelationsSettle(s: Search, context: seq<Row>, depths: seq<nat>, node: Node, depth: nat)
    requires |context| == |depths|
    requires forall r :: r in s.relations ==> CoveredRelation(s, context, depths, node, depth, r)
    ensures Settled(s, context, depths, node, depth)
  {
    hide KeyOf, Listed, DIRECTIONS;
    forall row | Neighbour(s, node, row) ensures Listed(context, depths, KeyOf(row), depth + 1) {
      var limit :| Answers(s, node, row, limit);
      assert CoveredRelation(s, context, depths, node, depth, row.relation);
      assert Covered(s, context, depths, node, depth, row.relation, row.direction);
    }
  }

  // -------------------------------------------------------------- the whole expansion

  /** Every row below the depth limit is waiting to be expanded, or its node was. */
  ghost predicate Accounted(s: Search, p: Progress, depths: seq<nat>) {
    && |p.context| == |depths|
    && (forall i :: 0 <= i < |depths| && depths[i] < s.depthLimit ==> Waiting(s, p, depths, NodeOf(p.context[i]), depths[i]))
    && Waiting(s, p, depths, s.start, 0)
  }

  ghost predicate Waiting(s: Search, p: Progress, depths: seq<nat>, node: Node, depth: nat)
    requires |p.context| == |depths|
  {
    Queued(node, depth) in p.frontier || Settled(s, p.context, depths, node, depth)
  }

  /** The rows are all there is: every neighbour of every node reached in fewer than
      `depthLimit` steps is listed, no later than along the shortest walk to it. */
  ghost predicate Complete(s: Search, context: seq<Row>, depths: seq<nat>)
    requires |context| == |depths|
  {
    forall m, row, k :: 0 <= k < s.depthLimit && Reached(s, m, k) && Neighbour(s, m, row) ==> Listed(context, depths, KeyOf(row), k + 1)
  }

  ghost predicate PlainNames(s: Search) {
    forall m, row :: Neighbour(s, m, row) ==> ':' !in row.relation && ':' !in row.kind
  }

  lemma WaitingStep(s: Search, p: Progress, d: seq<nat>, q: Progress, e: seq<nat>, node: Node, depth: nat)
    requires p.frontier != [] && |p.context| == |d| && Waiting(s, p, d, node, depth)
    requires Grows(s, p.(frontier := p.frontier[1..]), d, q, e, p.frontier[0].depth)
    requires Settled(s, q.context, e, p.frontier[0].node, p.frontier[0].depth)
    ensures Waiting(s, q, e, node, depth)
  {
    hide Settled;
    var rest := p.(frontier := p.frontier[1..]);
    if Queued(node, depth) in p.frontier {
      if Queued(node, depth) != p.frontier[0] {
        assert Queued(node, depth) in rest.frontier;
        assert forall x :: x in rest.frontier ==> x in q.frontier;
      }
    } else {
      SettledStays(s, rest, d, q, e, p.frontier[0].depth, node, depth);
    }
  }

  lemma AccountedStep(s: Search, p: Progress, d: seq<nat>, q: Progress, e: seq<nat>)
    requires p.frontier != [] && Accounted(s, p, d)
    requires Grows(s, p.(frontier := p.frontier[1..]), d, q, e, p.frontier[0].depth)
    requires Settled(s, q.context, e, p.frontier[0].node, p.frontier[0].depth)
    ensures Accounted(s, q, e)
  {
    hide Settled;
    forall i | 0 <= i < |e| && e[i] < s.depthLimit ensures Waiting(s, q, e, NodeOf(q.context[i]), e[i]) {
      if i < |d| {
        assert e[i] == d[i] && q.context[i] == p.context[i];
        WaitingStep(s, p, d, q, e, NodeOf(p.context[i]), d[i]);
      }
    }
    WaitingStep(s, p, d, q, e, s.start, 0);
  }

  /** Taking the first node moves the expansion on to its depth. */
  lemma SoundAdvances(s: Search, p: Progress, d: seq<nat>, depth: nat)
    requires Sound(s, p, d, depth) && p.frontier != []
    ensures Sound(s, p.(frontier := p.frontier[1..]), d, p.frontier[0].depth)
    ensures p.frontier[0].depth < s.depthLimit && Reached(s, p.frontier[0].node, p.frontier[0].depth)
  {
    hide Reached, RowReached, KeysSeen, DistinctKeys;
  }

  lemma StartIsSound(s: Search, p: Progress)
    requires p == Progress([], [Queued(s.start, 0)], {}) && s.depthLimit > 0
    ensures Sound(s, p, [], 0) && Accounted(s, p, [])
  {
    hide Settled, KeyOf;
    assert Reached(s, s.start, 0);
    assert p.frontier[0] == Queued(s.start, 0);
  }

  lemma SoundRows(s: Search, p: Progress, d: seq<nat>, depth: nat)
    requires Sound(s, p, d, depth)
    ensures DistinctKeys(p.context) && RowsReached(s, p.context, d) && Rising(d)
  {
    hide KeyOf, RowReached, KeysSeen, FrontierSound;
  }

  /** What holds of the rows, from any state of the expansion on. */
  lemma {:induction false} ExpansionIsSound(s: Search, p: Progress, depths: seq<nat>, depth: nat, width: nat) returns (e: seq<nat>)
    requires Sound(s, p, depths, depth) && |p.context| <= s.contextLimit && Expansion(s, p).Some?
    requires Spare(s, width, |p.context|) ==> Accounted(s, p, depths)
    ensures var r := Expansion(s, p).value;
            && |p.context| <= |r| <= s.contextLimit && DistinctKeys(r) && RowsReached(s, r, e) && Rising(e)
            && (Spare(s, width, |r|) && PlainNames(s) ==> Complete(s, r, e))
    decreases |p.frontier| + s.contextLimit - |p.context|
  {
    hide KeyOf, Reached, Sound, Grows, Accounted, Complete, Settled, PlainNames, DistinctKeys, RowsReached, Rising, Visited, Uncut;
    SoundRows(s, p, depths, depth);
    if p.frontier == [] {
      e := depths;
      if Spare(s, width, |p.context|) && PlainNames(s) { AllIsListed(s, p, depths); }
    } else {
      var first := p.frontier[0];
      SoundAdvances(s, p, depths, depth);
      if |p.context| >= s.contextLimit {
        NoSpare(s, width, |p.context|);
        e := ExpansionIsSound(s, Rest(p), depths, first.depth, width);
      } else {
        var q := Visited(s, first.node, first.depth, s.relations, Rest(p)).value;
        var d := VisitIsSound(s, first.node, first.depth, s.relations, Rest(p), depths, width);
        if Spare(s, width, |q.context|) {
          AllRelationsSettle(s, q.context, d, first.node, first.depth);
          AccountedStep(s, p, depths, q, d);
        }
        e := ExpansionIsSound(s, q, d, first.depth, width);
      }
    }
  }

  lemma NoSpare(s: Search, width: nat, rows: nat)
    requires rows >= s.contextLimit
    ensures !Spare(s, width, rows)
  {}

  /** On every graph: the rows have distinct keys, fit the limit, and are reached by walks
      no longer than the depth limit, in nondecreasing depth. A result that leaves room
      for the widest query lists everything, at its shortest depth. */
  lemma ContextIsSound(s: Search, width: nat) returns (depths: seq<nat>)
    requires s.depthLimit > 0 && ContextOf(s).Some?
    ensures var r := ContextOf(s).value;
            && |r| <= s.contextLimit && DistinctKeys(r) && RowsReached(s, r, depths) && Rising(depths)
            && (Spare(s, width, |r|) && PlainNames(s) ==> Complete(s, r, depths))
  {
    hide KeyOf, Reached, Sound, Accounted, Complete, Settled, PlainNames, DistinctKeys, RowsReached, Rising, Expansion, Uncut;
    StartIsSound(s, Start(s));
    depths := ExpansionIsSound(s, Start(s), [], 0, width);
  }

  /** Every row names a node, by one of the relations asked for and one direction. */
  lemma RowsAreNamed(s: Search, i: nat)
    requires s.depthLimit > 0 && ContextOf(s).Some? && i < |ContextOf(s).value|
    ensures var row := ContextOf(s).value[i];
            row.id != "" && row.kind != "" && row.relation in s.relations && row.direction in ["outgoing", "incoming"]
  {
    hide Reached, Expansion, DistinctKeys, Rising, Spare, PlainNames, Complete;
    var depths := ContextIsSound(s, 0);
    assert RowReached(s, ContextOf(s).value[i], depths[i]);
  }

  // ------------------------------------------------------------ nothing is missing

  lemma SplitAtColon(a: string, x: string, b: string, y: string)
    requires a + ":" + x == b + ":" + y && ':' !in a && ':' !in b
    ensures a == b && x == y
  {
    var t := a + ":" + x;
    assert forall i :: 0 <= i < |a| ==> t[i] == a[i] != ':';
    assert forall i :: 0 <= i < |b| ==> t[i] == b[i] != ':';
    assert t[|a|] == ':' && t[|b|] == ':';
    assert |a| == |b|;
    assert a == t[..|a|] && b == t[..|b|] && x == t[|a| + 1..] && y == t[|b| + 1..];
  }

  /** A key names one direction, relation, type and id, since only ids may hold a colon. */
  lemma KeyIsInjective(p: Row, q: Row)
    requires p.direction in DIRECTIONS && q.direction in DIRECTIONS && KeyOf(p) == KeyOf(q)
    requires ':' !in p.relation && ':' !in q.relation && ':' !in p.kind && ':' !in q.kind
    ensures p.direction == q.direction && p.relation == q.relation && NodeOf(p) == NodeOf(q)
  {
    DirectionIsPlain(p.direction);
    DirectionIsPlain(q.direction);
    hide DIRECTIONS;
    var x, y := p.kind + ":" + p.id, q.kind + ":" + q.id;
    assert KeyOf(p) == p.direction + ":" + (p.relation + ":" + x);
    assert KeyOf(q) == q.direction + ":" + (q.relation + ":" + y);
    SplitAtColon(p.direction, p.relation + ":" + x, q.direction, q.relation + ":" + y);
    SplitAtColon(p.relation, x, q.relation, y);
    SplitAtColon(p.kind, p.id, q.kind, q.id);
  }

  lemma DirectionIsPlain(direction: string)
    requires direction in DIRECTIONS
    ensures ':' !in direction
  {}

  lemma {:induction false} WalkSettles(s: Search, context: seq<Row>, depths: seq<nat>, node: Node, k: nat)
    returns (e: nat)
    requires |context| == |depths| && k < s.depthLimit && Reached(s, node, k) && PlainNames(s)
    requires RowsReached(s, context, depths) && Settled(s, context, depths, s.start, 0)
    requires forall i :: 0 <= i < |depths| && depths[i] < s.depthLimit ==> Settled(s, context, depths, NodeOf(context[i]), depths[i])
    ensures e <= k && Settled(s, context, depths, node, e)
    decreases k
  {
    hide KeyOf, Settled, Neighbour;
    if k == 0 { return 0; }
    var m, row :| Reached(s, m, k - 1) && Neighbour(s, m, row) && NodeOf(row) == node;
    var d := WalkSettles(s, context, depths, m, k - 1);
    var i := SettledLists(s, context, depths, m, d, row);
    var source :| Reached(s, source, depths[i] - 1) && Neighbour(s, source, context[i]);
    NeighbourDirection(s, m, row);
    NeighbourDirection(s, source, context[i]);
    KeyIsInjective(context[i], row);
    e := depths[i];
  }

  lemma SettledLists(s: Search, context: seq<Row>, depths: seq<nat>, node: Node, d: nat, row: Row) returns (i: nat)
    requires |context| == |depths| && Settled(s, context, depths, node, d) && Neighbour(s, node, row)
    ensures i < |context| && KeyOf(context[i]) == KeyOf(row) && depths[i] <= d + 1
  {
    hide KeyOf, Neighbour;
    assert Listed(context, depths, KeyOf(row), d + 1);
    i :| 0 <= i < |context| && KeyOf(context[i]) == KeyOf(row) && depths[i] <= d + 1;
  }

  lemma NeighbourDirection(s: Search, m: Node, row: Row)
    requires Neighbour(s, m, row)
    ensures row.direction in DIRECTIONS
  {}

  lemma AllIsListed(s: Search, p: Progress, depths: seq<nat>)
    requires Accounted(s, p, depths) && p.frontier == [] && PlainNames(s) && RowsReached(s, p.context, depths)
    ensures Complete(s, p.context, depths)
  {
    hide KeyOf, Settled, Neighbour, Reached;
    forall m, row, k | 0 <= k < s.depthLimit && Reached(s, m, k) && Neighbour(s, m, row)
      ensures Listed(p.context, depths, KeyOf(row), k + 1) {
      var e := WalkSettles(s, p.context, depths, m, k);
      var i := SettledLists(s, p.context, depths, m, e, row);
      assert KeyOf(p.context[i]) == KeyOf(row) && depths[i] <= k + 1;
    }
  }
}
