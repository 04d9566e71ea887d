/** What a whole context is, and a row limit that is always large enough for one. */
module ContextRoom {
  import opened Basics
  import opened ContextOrder
  import opened ContextExpansion
  import opened GraphContext

  /** The row is at the end of a walk within the depth limit. */
  ghost predicate WithinReach(s: Search, row: Row) {
    exists k: nat :: k <= s.depthLimit && RowReached(s, row, k)
  }

  ghost predicate Lists(rows: seq<Row>, key: string) {
    exists i :: 0 <= i < |rows| && KeyOf(rows[i]) == key
  }

  /** The request succeeds only with every row within reach. */
  ghost predicate Whole(s: Search) {
    ContextOf(s).Some? ==> forall row :: WithinReach(s, row) ==> Lists(ContextOf(s).value, KeyOf(row))
  }

  ghost predicate KeysAmong(s: Search, keys: set<string>) {
    forall row :: WithinReach(s, row) ==> KeyOf(row) in keys
  }

  /** What a caller knows of a graph: how many keys are within reach and how many answers
      the widest query has. */
  ghost predicate Sized(s: Search, keys: nat, width: nat, limit: nat) {
    && s.contextLimit == limit && s.depthLimit > 0 && Uncut(s, width) && PlainNames(s)
    && exists among: set<string> :: |among| <= keys && KeysAmong(s, among)
  }

  // -------------------------------------------------------------- a limit that suffices

  function KeySet(rows: seq<Row>): set<string> { set i | 0 <= i < |rows| :: KeyOf(rows[i]) }

  lemma {:induction false} KeySetSize(rows: seq<Row>)
    ensures |KeySet(rows)| <= |rows|
    ensures DistinctKeys(rows) ==> |KeySet(rows)| == |rows|
    decreases |rows|
  {
    hide KeyOf;
    if rows == [] {
      assert KeySet(rows) == {};
    } else {
      var n := |rows| - 1;
      KeySetSize(rows[..n]);
      assert forall i :: 0 <= i < n ==> rows[..n][i] == rows[i];
      forall key | key in KeySet(rows) ensures key in KeySet(rows[..n]) + {KeyOf(rows[n])} {
        var i :| 0 <= i < |rows| && KeyOf(rows[i]) == key;
        if i < n { assert rows[..n][i] == rows[i]; }
      }
      assert KeySet(rows) == KeySet(rows[..n]) + {KeyOf(rows[n])};
    }
  }

  lemma {:induction false} SubsetSize(a: set<string>, b: set<string>)
    requires a <= b
    ensures |a| <= |b| && (|a| == |b| ==> a == b)
    decreases |b|
  {
    if b != {} {
      var x :| x in b;
      SubsetSize(a - {x}, b - {x});
      if x in a { assert a == (a - {x}) + {x}; } else { assert a - {x} == a; }
    }
  }

  /** With room for all keys but one and the widest query on top, the context is whole. */
  lemma RoomForAll(s: Search, among: set<string>, width: nat)
    requires s.depthLimit > 0 && Uncut(s, width) && PlainNames(s) && KeysAmong(s, among)
    requires |among| + width <= s.contextLimit + 1
    ensures Whole(s)
  {
    hide KeyOf, Reached, Uncut, PlainNames, ContextOf;
    if ContextOf(s).Some? {
      var r := ContextOf(s).value;
      var depths := ContextIsSound(s, width);
      forall i | 0 <= i < |r| ensures KeyOf(r[i]) in among { assert WithinReach(s, r[i]); }
      KeySetSize(r);
      SubsetSize(KeySet(r), among);
      forall row | WithinReach(s, row) ensures Lists(r, KeyOf(row)) {
        if |r| < |among| {
          CompleteLists(s, r, depths, row);
        } else {
          assert KeyOf(row) in KeySet(r);
        }
      }
    }
  }

  lemma CompleteLists(s: Search, r: seq<Row>, depths: seq<nat>, row: Row)
    requires |r| == |depths| && Complete(s, r, depths) && WithinReach(s, row)
    ensures Lists(r, KeyOf(row))
  {
    hide KeyOf, Reached, Neighbour;
    var k: nat :| k <= s.depthLimit && RowReached(s, row, k);
    var m :| Reached(s, m, k - 1) && Neighbour(s, m, row);
    assert Listed(r, depths, KeyOf(row), k - 1 + 1);
  }
}
