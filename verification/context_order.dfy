/** The final ordering of context rows: syntax children by position, all others as found. */
module ContextOrder {
  import opened Basics
  import opened TextOrder

  /** One row of context: how the neighbour was reached, which node it is, its position
      among the children of a syntax node, and the columns that only ride along. */
  datatype Row = Row(direction: string, relation: string, kind: string, id: string, childIndex: Option<int>, columns: string)

  /** A missing index sorts before every index. */
  predicate IndexLess(a: Option<int>, b: Option<int>) {
    b.Some? && (a.None? || a.value < b.value)
  }

  predicate IsChild(r: Row) {
    r.relation == "SyntaxChild"
  }

  /** `left` may stand before `right`: the comparator answers Less or Equal. */
  predicate Leq(left: Row, right: Row) {
    !IsChild(right) || (IsChild(left)
      && (IndexLess(left.childIndex, right.childIndex)
          || (left.childIndex == right.childIndex && TextLeq(left.id, right.id))))
  }

  predicate SameRank(a: Row, b: Row) {
    Leq(a, b) && Leq(b, a)
  }

  /** The comparator is a total preorder, as a sort demands; rows of one rank are the
      same child position and id, or no children at all. */
  lemma RankOrder(a: Row, b: Row, c: Row)
    ensures Leq(a, a) && (Leq(a, b) || Leq(b, a))
    ensures Leq(a, b) && Leq(b, c) ==> Leq(a, c)
    ensures SameRank(a, b) <==> IsChild(a) == IsChild(b) && (IsChild(a) ==> a.childIndex == b.childIndex && a.id == b.id)
  {
    hide TextLeq;
    TextLeqOrders(a.id, b.id, c.id);
  }

  // ------------------------------------------------------------------ the stable sort

  predicate Ordered(rows: seq<Row>) {
    forall i, j :: 0 <= i < j < |rows| ==> Leq(rows[i], rows[j])
  }

  /** The rows of one rank, in order. */
  function OfRank(a: Row, rows: seq<Row>): seq<Row> {
    if rows == [] then []
    else
      var n := |rows| - 1;
      OfRank(a, rows[..n]) + (if SameRank(a, rows[n]) then [rows[n]] else [])
  }

  /** `after` is `before`, put in order and stable within each rank. */
  ghost predicate StablySorts(before: seq<Row>, after: seq<Row>) {
    Ordered(after) && forall a :: OfRank(a, after) == OfRank(a, before)
  }

  function Insert(row: Row, rows: seq<Row>): seq<Row> {
    if rows == [] || Leq(rows[|rows| - 1], row) then rows + [row]
    else Insert(row, rows[..|rows| - 1]) + [rows[|rows| - 1]]
  }

  function StableSort(rows: seq<Row>): seq<Row> {
    if rows == [] then [] else Insert(rows[|rows| - 1], StableSort(rows[..|rows| - 1]))
  }

  function OrderContextRows(context: seq<Row>, layer: string): seq<Row> {
    if layer == "semantic" then context else StableSort(context)
  }

  lemma {:induction false} InsertKeeps(row: Row, rows: seq<Row>)
    ensures multiset(Insert(row, rows)) == multiset(rows) + multiset{row}
    ensures |Insert(row, rows)| == |rows| + 1
    decreases |rows|
  {
    hide Leq;
    if rows != [] {
      var n := |rows| - 1;
      InsertKeeps(row, rows[..n]);
      assert rows == rows[..n] + [rows[n]];
    }
  }

  lemma {:induction false} InsertOrders(row: Row, rows: seq<Row>)
    requires Ordered(rows)
    ensures Ordered(Insert(row, rows))
    ensures forall r :: r in Insert(row, rows) ==> r == row || r in rows
    decreases |rows|
  {
    hide Leq;
    if rows != [] {
      var n := |rows| - 1;
      if Leq(rows[n], row) {
        forall i | 0 <= i < n ensures Leq(rows[i], row) { RankOrder(rows[i], rows[n], row); }
      } else {
        InsertOrders(row, rows[..n]);
        RankOrder(row, rows[n], row);
        forall r | r in Insert(row, rows[..n]) ensures Leq(r, rows[n]) {}
      }
    }
  }

  lemma {:induction false} InsertIsLast(a: Row, row: Row, rows: seq<Row>)
    requires Ordered(rows)
    ensures OfRank(a, Insert(row, rows)) == OfRank(a, rows) + (if SameRank(a, row) then [row] else [])
    decreases |rows|
  {
    hide Leq, IsChild;
    if rows == [] || Leq(rows[|rows| - 1], row) {
      assert (rows + [row])[..|rows|] == rows;
    } else {
      var n := |rows| - 1;
      InsertIsLast(a, row, rows[..n]);
      var inserted := Insert(row, rows[..n]);
      InsertKeeps(row, rows[..n]);
      assert (inserted + [rows[n]])[..|inserted|] == inserted;
      RankOrder(rows[n], a, row);
    }
  }

  lemma {:induction false} SortIsStable(rows: seq<Row>)
    ensures StablySorts(rows, StableSort(rows))
    ensures multiset(StableSort(rows)) == multiset(rows)
    decreases |rows|
  {
    hide Leq;
    if rows != [] {
      var n := |rows| - 1;
      SortIsStable(rows[..n]);
      InsertKeeps(rows[n], StableSort(rows[..n]));
      InsertOrders(rows[n], StableSort(rows[..n]));
      forall a ensures OfRank(a, StableSort(rows)) == OfRank(a, rows) {
        InsertIsLast(a, rows[n], StableSort(rows[..n]));
      }
      assert rows == rows[..n] + [rows[n]];
    }
  }

  // ------------------------------------------------- nothing else is a stable sort

  lemma {:induction false} LastOfRank(rows: seq<Row>, k: nat)
    requires k < |rows|
    requires forall i :: k < i < |rows| ==> !SameRank(rows[k], rows[i])
    ensures OfRank(rows[k], rows) != [] && OfRank(rows[k], rows)[|OfRank(rows[k], rows)| - 1] == rows[k]
    decreases |rows|
  {
    hide Leq;
    RankOrder(rows[k], rows[k], rows[k]);
    if k < |rows| - 1 { LastOfRank(rows[..|rows| - 1], k); }
  }

  lemma {:induction false} RankIndex(a: Row, rows: seq<Row>) returns (i: nat)
    requires OfRank(a, rows) != []
    ensures i < |rows| && SameRank(a, rows[i])
    decreases |rows|
  {
    hide SameRank;
    var n := |rows| - 1;
    if SameRank(a, rows[n]) { i := n; } else { i := RankIndex(a, rows[..n]); }
  }

  lemma BelowLast(rows: seq<Row>, i: nat)
    requires Ordered(rows) && i < |rows|
    ensures Leq(rows[i], rows[|rows| - 1])
  {
    hide Leq, IsChild;
    RankOrder(rows[i], rows[i], rows[i]);
  }

  lemma LastIsBelow(p: seq<Row>, q: seq<Row>)
    requires p != [] && Ordered(q) && OfRank(p[|p| - 1], p) == OfRank(p[|p| - 1], q)
    ensures q != [] && Leq(p[|p| - 1], q[|q| - 1])
  {
    hide Leq, OfRank, IsChild, Ordered;
    var x := p[|p| - 1];
    LastOfRank(p, |p| - 1);
    var i := RankIndex(x, q);
    BelowLast(q, i);
    RankOrder(x, q[i], q[|q| - 1]);
  }

  /** Two ordered lists with the same ranks end alike. */
  lemma LastIsDetermined(p: seq<Row>, q: seq<Row>)
    requires p != [] && Ordered(p) && Ordered(q) && forall a :: OfRank(a, p) == OfRank(a, q)
    ensures q != [] && p[|p| - 1] == q[|q| - 1]
  {
    hide Leq, OfRank, Ordered;
    LastIsBelow(p, q);
    LastIsBelow(q, p);
    LastOfRank(p, |p| - 1);
    LastOfRank(q, |q| - 1);
    SameRankSameRows(p[|p| - 1], q[|q| - 1], q);
  }

  lemma {:induction false} SameRankSameRows(a: Row, b: Row, rows: seq<Row>)
    requires SameRank(a, b)
    ensures OfRank(a, rows) == OfRank(b, rows)
    decreases |rows|
  {
    hide Leq;
    if rows != [] {
      var n := |rows| - 1;
      SameRankSameRows(a, b, rows[..n]);
      RankOrder(a, b, rows[n]);
      RankOrder(b, a, rows[n]);
      RankOrder(rows[n], a, b);
      RankOrder(rows[n], b, a);
    }
  }

  /** The ordering is determined by what it promises: any stable sort gives these rows. */
  lemma {:induction false} StableSortIsUnique(p: seq<Row>, q: seq<Row>)
    requires Ordered(p) && Ordered(q) && forall a :: OfRank(a, p) == OfRank(a, q)
    ensures p == q
    decreases |p|
  {
    hide Leq, SameRank;
    if p == [] {
      if q != [] { LastIsDetermined(q, p); }
    } else {
      LastIsDetermined(p, q);
      var m, n := |p| - 1, |q| - 1;
      forall a ensures OfRank(a, p[..m]) == OfRank(a, q[..n]) {
        var tail := if SameRank(a, p[m]) then [p[m]] else [];
        assert OfRank(a, p) == OfRank(a, p[..m]) + tail && OfRank(a, q) == OfRank(a, q[..n]) + tail;
        SameTail(OfRank(a, p[..m]), OfRank(a, q[..n]), tail);
      }
      StableSortIsUnique(p[..m], q[..n]);
      assert p == p[..m] + [p[m]] && q == q[..n] + [q[n]];
    }
  }

  lemma SameTail(a: seq<Row>, b: seq<Row>, tail: seq<Row>)
    requires a + tail == b + tail
    ensures a == b
  {
    assert |a| == |b|;
    assert a == (a + tail)[..|a|] && b == (b + tail)[..|b|];
  }

  /** The ordering loses and adds nothing; outside the semantic layer it is the one
      stable sort of the rows. */
  lemma OrderingIsTheStableSort(context: seq<Row>, layer: string, r: seq<Row>)
    ensures multiset(OrderContextRows(context, layer)) == multiset(context)
    ensures layer != "semantic" ==> (StablySorts(context, r) <==> r == OrderContextRows(context, layer))
  {
    hide OfRank, Ordered;
    SortIsStable(context);
    if StablySorts(context, r) { StableSortIsUnique(r, StableSort(context)); }
  }

  // ------------------------------------------------------ what the ordering looks like

  /** A child without an index comes first, then the smaller index; ids break ties. */
  predicate ChildBefore(a: Row, b: Row) {
    && (a.childIndex.None? || (b.childIndex.Some? && a.childIndex.value <= b.childIndex.value))
    && (a.childIndex == b.childIndex ==> TextLeq(a.id, b.id))
  }

  function Others(rows: seq<Row>): seq<Row> {
    if rows == [] then []
    else
      var n := |rows| - 1;
      Others(rows[..n]) + (if IsChild(rows[n]) then [] else [rows[n]])
  }

  lemma {:induction false} OthersAreOfRank(a: Row, rows: seq<Row>)
    requires !IsChild(a)
    ensures OfRank(a, rows) == Others(rows)
    decreases |rows|
  {
    hide TextLeq;
    if rows != [] {
      OthersAreOfRank(a, rows[..|rows| - 1]);
      RankOrder(a, rows[|rows| - 1], a);
    }
  }

  lemma ChildIsLed(rows: seq<Row>, m: nat)
    requires Ordered(rows) && rows != [] && IsChild(rows[|rows| - 1])
    ensures m < |rows| ==> IsChild(rows[m])
  {
    hide TextLeq;
    if m < |rows| - 1 { assert Leq(rows[m], rows[|rows| - 1]); }
  }

  lemma {:induction false} ChildrenLead(rows: seq<Row>) returns (m: nat)
    requires Ordered(rows)
    ensures m <= |rows| && (forall i :: 0 <= i < |rows| ==> (IsChild(rows[i]) <==> i < m)) && Others(rows) == rows[m..]
    decreases |rows|
  {
    hide TextLeq;
    if rows == [] {
      m := 0;
    } else {
      var n := |rows| - 1;
      m := ChildrenLead(rows[..n]);
      if IsChild(rows[n]) {
        ChildIsLed(rows, m);
        assert m == n && rows[..n][n..] == [];
        m := n + 1;
      } else {
        assert rows[m..] == rows[..n][m..] + [rows[n]];
      }
    }
  }

  /** Outside the semantic layer the syntax children come first, by index and id, and the
      other rows follow in the order in which they were found. */
  lemma ChildrenThenOthers(context: seq<Row>, layer: string) returns (m: nat)
    requires layer != "semantic"
    ensures var r := OrderContextRows(context, layer);
            && m <= |r| && (forall i :: 0 <= i < |r| ==> (IsChild(r[i]) <==> i < m))
            && (forall i, j :: 0 <= i < j < m ==> ChildBefore(r[i], r[j]))
            && r[m..] == Others(context)
  {
    SortIsStable(context);
    var r := StableSort(context);
    m := ChildrenLead(r);
    var plain := Row("", "", "", "", None, "");
    OthersAreOfRank(plain, r);
    OthersAreOfRank(plain, context);
    forall i, j | 0 <= i < j < m ensures ChildBefore(r[i], r[j]) { assert Leq(r[i], r[j]); }
  }

  /** The semantic layer keeps the order in which rows were found. */
  lemma SemanticKeepsOrder(context: seq<Row>)
    ensures OrderContextRows(context, "semantic") == context
  {}
}
