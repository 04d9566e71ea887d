/** Breadth-first expansion of the context around a node, bounded in depth and rows: as a
    function of the request, and as the loops that compute it. */
module ContextExpansion {
  import opened Basics
  import opened ContextOrder

  datatype Node = Node(kind: string, id: string)

  /** What the neighbour query knows about one neighbour. */
  datatype Hit = Hit(kind: string, id: string, childIndex: Option<int>, columns: string)

  datatype Queued = Queued(node: Node, depth: nat)

  /** A request. The query gets the node, relation, direction and row limit; it may fail. */
  datatype Search = Search(
    query: (Node, string, string, nat) -> Option<seq<Hit>>,
    relations: seq<string>,
    start: Node,
    depthLimit: nat,
    contextLimit: nat)

  /** The mutable state of the expansion. */
  datatype Progress = Progress(context: seq<Row>, frontier: seq<Queued>, seen: set<string>)

  const DIRECTIONS: seq<string> := ["outgoing", "incoming"]

  function RowOf(direction: string, relation: string, hit: Hit): Row {
    Row(direction, relation, hit.kind, hit.id, hit.childIndex, hit.columns)
  }

  function NodeOf(row: Row): Node { Node(row.kind, row.id) }

  function KeyOf(row: Row): string {
    row.direction + ":" + row.relation + ":" + row.kind + ":" + row.id
  }

  // ------------------------------------------------------------- the expansion as a function

  predicate Usable(row: Row) { row.id != "" && row.kind != "" }

  /** A neighbour that was not seen becomes a row, and is queued while depth remains. */
  function Absorbed(s: Search, depth: nat, row: Row, p: Progress): (q: Progress)
    ensures |p.context| <= |q.context| <= |p.context| + 1
    ensures |q.frontier| + |p.context| <= |p.frontier| + |q.context|
  {
    if !Usable(row) || KeyOf(row) in p.seen then p
    else
      Progress(
        p.context + [row],
        if depth + 1 < s.depthLimit then p.frontier + [Queued(NodeOf(row), depth + 1)] else p.frontier,
        p.seen + {KeyOf(row)})
  }

  /** The answers of one query, up to the row limit. */
  function AbsorbedAll(s: Search, depth: nat, relation: string, direction: string, hits: seq<Hit>, p: Progress): (q: Progress)
    ensures |p.context| <= |q.context|
    ensures |p.context| <= s.contextLimit ==> |q.context| <= s.contextLimit
    ensures |q.frontier| + |p.context| <= |p.frontier| + |q.context|
  {
    if hits == [] || |p.context| >= s.contextLimit then p
    else AbsorbedAll(s, depth, relation, direction, hits[1..], Absorbed(s, depth, RowOf(direction, relation, hits[0]), p))
  }

  /** One query, for as many rows as there is room; none is asked when there is no room. */
  function Asked(s: Search, node: Node, depth: nat, relation: string, direction: string, p: Progress): (q: Option<Progress>)
    ensures q.Some? ==> |p.context| <= |q.value.context| && (|p.context| <= s.contextLimit ==> |q.value.context| <= s.contextLimit)
    ensures q.Some? ==> |q.value.frontier| + |p.context| <= |p.frontier| + |q.value.context|
  {
    if |p.context| >= s.contextLimit then Some(p)
    else
      match s.query(node, relation, direction, s.contextLimit - |p.context|)
      case None => None
      case Some(hits) => Some(AbsorbedAll(s, depth, relation, direction, hits, p))
  }

  function AskedAll(s: Search, node: Node, depth: nat, relation: string, directions: seq<string>, p: Progress): (q: Option<Progress>)
    ensures q.Some? ==> |p.context| <= |q.value.context| && (|p.context| <= s.contextLimit ==> |q.value.context| <= s.contextLimit)
    ensures q.Some? ==> |q.value.frontier| + |p.context| <= |p.frontier| + |q.value.context|
  {
    if directions == [] then Some(p)
    else
      match Asked(s, node, depth, relation, directions[0], p)
      case None => None
      case Some(q) => AskedAll(s, node, depth, relation, directions[1..], q)
  }

  /** All relations of one node, each in both directions. */
  function Visited(s: Search, node: Node, depth: nat, relations: seq<string>, p: Progress): (q: Option<Progress>)
    ensures q.Some? ==> |p.context| <= |q.value.context| && (|p.context| <= s.contextLimit ==> |q.value.context| <= s.contextLimit)
    ensures q.Some? ==> |q.value.frontier| + |p.context| <= |p.frontier| + |q.value.context|
  {
    if relations == [] then Some(p)
    else
      match AskedAll(s, node, depth, relations[0], DIRECTIONS, p)
      case None => None
      case Some(q) => Visited(s, node, depth, relations[1..], q)
  }

  function Rest(p: Progress): Progress
    requires p.frontier != []
  {
    p.(frontier := p.frontier[1..])
  }

  /** First in, first out, until nothing is queued. */
  function Expansion(s: Search, p: Progress): Option<seq<Row>>
    requires |p.context| <= s.contextLimit
    decreases |p.frontier| + s.contextLimit - |p.context|
  {
    if p.frontier == [] then Some(p.context)
    else
      var first := p.frontier[0];
      if first.depth >= s.depthLimit || |p.context| >= s.contextLimit then Expansion(s, Rest(p))
      else
        match Visited(s, first.node, first.depth, s.relations, Rest(p))
        case None => None
        case Some(q) => Expansion(s, q)
  }

  function Start(s: Search): Progress { Progress([], [Queued(s.start, 0)], {}) }

  /** The rows of a request before their final ordering. */
  function ContextOf(s: Search): Option<seq<Row>> { Expansion(s, Start(s)) }

  // ------------------------------------------------------------------- the loops

  method AbsorbHits(s: Search, depth: nat, relation: string, direction: string, hits: seq<Hit>, p: Progress) returns (q: Progress)
    requires |p.context| < s.contextLimit
    ensures q == AbsorbedAll(s, depth, relation, direction, hits, p)
  {
    hide KeyOf, Absorbed;
    q := p;
    for i := 0 to |hits|
      invariant |q.context| < s.contextLimit
      invariant AbsorbedAll(s, depth, relation, direction, hits, p) == AbsorbedAll(s, depth, relation, direction, hits[i..], q)
    {
      assert hits[i..][1..] == hits[i + 1..];
      q := AbsorbHit(s, depth, RowOf(direction, relation, hits[i]), q);
      if |q.context| >= s.contextLimit { return; }
    }
  }

  method AbsorbHit(s: Search, depth: nat, neighbor: Row, p: Progress) returns (q: Progress)
    ensures q == Absorbed(s, depth, neighbor, p)
  {
    hide KeyOf;
    q := p;
    if neighbor.id == "" || neighbor.kind == "" { return; }
    var key := KeyOf(neighbor);
    if key in q.seen { return; }
    q := q.(seen := q.seen + {key});
    if depth + 1 < s.depthLimit {
      q := q.(frontier := q.frontier + [Queued(NodeOf(neighbor), depth + 1)]);
    }
    q := q.(context := q.context + [neighbor]);
  }

  datatype Outcome = Failed | Full | More

  /** What is left to do from the middle of the two loops. */
  function Remaining(s: Search, node: Node, depth: nat, i: nat, j: nat, p: Progress): Option<Progress>
    requires i < |s.relations| && j <= |DIRECTIONS|
  {
    match AskedAll(s, node, depth, s.relations[i], DIRECTIONS[j..], p)
    case None => None
    case Some(q) => Visited(s, node, depth, s.relations[i + 1..], q)
  }

  lemma {:induction false} FullAsksNothing(s: Search, node: Node, depth: nat, relation: string, directions: seq<string>, p: Progress)
    requires |p.context| >= s.contextLimit
    ensures AskedAll(s, node, depth, relation, directions, p) == Some(p)
    decreases |directions|
  {
    if directions != [] { FullAsksNothing(s, node, depth, relation, directions[1..], p); }
  }

  lemma {:induction false} FullVisitsNothing(s: Search, node: Node, depth: nat, relations: seq<string>, p: Progress)
    requires |p.context| >= s.contextLimit
    ensures Visited(s, node, depth, relations, p) == Some(p)
    decreases |relations|
  {
    hide AskedAll;
    if relations != [] {
      FullAsksNothing(s, node, depth, relations[0], DIRECTIONS, p);
      FullVisitsNothing(s, node, depth, relations[1..], p);
    }
  }

  lemma {:induction false} FullExpandsNothing(s: Search, p: Progress)
    requires |p.context| == s.contextLimit
    ensures Expansion(s, p) == Some(p.context)
    decreases |p.frontier|
  {
    hide Visited;
    if p.frontier != [] { FullExpandsNothing(s, Rest(p)); }
  }

  lemma RemainingSteps(s: Search, node: Node, depth: nat, i: nat, j: nat, p: Progress)
    requires i < |s.relations|
    ensures Visited(s, node, depth, s.relations[i..], p) == Remaining(s, node, depth, i, 0, p)
    ensures Remaining(s, node, depth, i, |DIRECTIONS|, p) == Visited(s, node, depth, s.relations[i + 1..], p)
    ensures j < |DIRECTIONS| ==>
      Remaining(s, node, depth, i, j, p) == match Asked(s, node, depth, s.relations[i], DIRECTIONS[j], p)
                                            case None => None
                                            case Some(q) => Remaining(s, node, depth, i, j + 1, q)
  {
    hide Asked, DIRECTIONS;
    assert DIRECTIONS[0..] == DIRECTIONS && s.relations[i..][1..] == s.relations[i + 1..];
    if j < |DIRECTIONS| { assert DIRECTIONS[j..][1..] == DIRECTIONS[j + 1..]; }
  }

  /** The two loops over one node; `Full` is the early return with the context full. */
  method ExpandNode(s: Search, node: Node, depth: nat, p: Progress) returns (outcome: Outcome, q: Progress)
    requires |p.context| <= s.contextLimit
    ensures outcome.Failed? <==> Visited(s, node, depth, s.relations, p).None?
    ensures !outcome.Failed? ==> Visited(s, node, depth, s.relations, p) == Some(q)
    ensures outcome.Full? ==> |q.context| == s.contextLimit
  {
    hide AbsorbedAll, Visited, AskedAll, Remaining;
    q := p;
    assert s.relations[0..] == s.relations;
    for i := 0 to |s.relations|
      invariant |q.context| <= s.contextLimit
      invariant Visited(s, node, depth, s.relations, p) == Visited(s, node, depth, s.relations[i..], q)
    {
      RemainingSteps(s, node, depth, i, 0, q);
      for j := 0 to |DIRECTIONS|
        invariant |q.context| <= s.contextLimit
        invariant Visited(s, node, depth, s.relations, p) == Remaining(s, node, depth, i, j, q)
      {
        RemainingSteps(s, node, depth, i, j, q);
        var remaining := s.contextLimit - |q.context|;
        if remaining == 0 {
          FullRemains(s, node, depth, i, j, q);
          return Full, q;
        }
        var hits := s.query(node, s.relations[i], DIRECTIONS[j], remaining);
        if hits.None? { return Failed, q; }
        q := AbsorbHits(s, depth, s.relations[i], DIRECTIONS[j], hits.value, q);
        if |q.context| >= s.contextLimit {
          FullRemains(s, node, depth, i, j + 1, q);
          return Full, q;
        }
      }
      RemainingSteps(s, node, depth, i, 0, q);
    }
    assert s.relations[|s.relations|..] == [];
    NothingVisited(s, node, depth, q);
    outcome := More;
  }

  lemma NothingVisited(s: Search, node: Node, depth: nat, p: Progress)
    ensures Visited(s, node, depth, [], p) == Some(p)
  {}

  lemma FullRemains(s: Search, node: Node, depth: nat, i: nat, j: nat, p: Progress)
    requires i < |s.relations| && j <= |DIRECTIONS| && |p.context| >= s.contextLimit
    ensures Remaining(s, node, depth, i, j, p) == Some(p)
  {
    hide AskedAll, Visited, DIRECTIONS;
    FullAsksNothing(s, node, depth, s.relations[i], DIRECTIONS[j..], p);
    FullVisitsNothing(s, node, depth, s.relations[i + 1..], p);
  }

  /** The expansion loop, with the number of nodes it expands. */
  method ExpandContext(s: Search) returns (r: Option<seq<Row>>, ghost expansions: nat)
    ensures r == ContextOf(s)
    ensures expansions <= 1 + s.contextLimit
  {
    hide Visited;
    var p := Start(s);
    expansions := 0;
    while p.frontier != []
      invariant |p.context| <= s.contextLimit
      invariant Expansion(s, p) == ContextOf(s)
      invariant expansions + |p.frontier| <= 1 + |p.context|
      decreases |p.frontier| + s.contextLimit - |p.context|
    {
      var current := p.frontier[0];
      p := Rest(p);
      if current.depth >= s.depthLimit || |p.context| >= s.contextLimit {
        continue;
      }
      expansions := expansions + 1;
      var outcome, q := ExpandNode(s, current.node, current.depth, p);
      if outcome.Failed? { return None, expansions; }
      p := q;
      if outcome.Full? {
        FullExpandsNothing(s, p);
        return Some(p.context), expansions;
      }
    }
    r := Some(p.context);
  }

  /** A whole request: the rows of the expansion in their final order. */
  method ExecuteGraphContext(s: Search, layer: string, budget: nat) returns (r: Option<seq<Row>>)
    ensures budget == 0 || s.contextLimit == 0 || s.depthLimit == 0 ==> r == Some([])
    ensures budget > 0 && s.contextLimit > 0 && s.depthLimit > 0 ==>
              && (r.Some? <==> ContextOf(s).Some?)
              && (r.Some? ==> r.value == OrderContextRows(ContextOf(s).value, layer)
                              && multiset(r.value) == multiset(ContextOf(s).value))
  {
    hide ContextOf, OrderContextRows;
    if s.contextLimit == 0 || budget == 0 { return Some([]); }
    if s.depthLimit == 0 { return Some([]); }
    ghost var expansions;
    r, expansions := ExpandContext(s);
    if r.Some? {
      OrderingIsTheStableSort(r.value, layer, []);
      r := Some(OrderContextRows(r.value, layer));
    }
  }
}
