/** The order of strings that sorts and ordered maps use. */
module TextOrder {
  predicate TextLeq(a: string, b: string) {
    a == "" || (b != "" && (a[0] < b[0] || (a[0] == b[0] && TextLeq(a[1..], b[1..]))))
  }

  lemma {:induction false} TextLeqOrders(a: string, b: string, c: string)
    ensures TextLeq(a, a) && (TextLeq(a, b) || TextLeq(b, a))
    ensures TextLeq(a, b) && TextLeq(b, c) ==> TextLeq(a, c)
    ensures TextLeq(a, b) && TextLeq(b, a) ==> a == b
    decreases |a| + |b| + |c|
  {
    if a != "" {
      TextLeqOrders(a[1..], if b == "" then b else b[1..], if c == "" then c else c[1..]);
      if b != "" && TextLeq(a, b) && TextLeq(b, a) { assert a == [a[0]] + a[1..] && b == [b[0]] + b[1..]; }
    }
  }

  /** The order of dictionaries: one text begins the other, or the first characters in which
      they differ decide. */
  lemma {:induction false} TextLeqIsLexicographic(a: string, b: string)
    ensures TextLeq(a, b) <==> a <= b || exists k: nat :: FirstDiffer(a, b, k)
    decreases |a|
  {
    if a != "" && b != "" {
      assert a == [a[0]] + a[1..] && b == [b[0]] + b[1..];
      if a[0] == b[0] {
        TextLeqIsLexicographic(a[1..], b[1..]);
        forall k: nat ensures FirstDiffer(a[1..], b[1..], k) <==> FirstDiffer(a, b, k + 1) { DifferLater(a, b, k); }
        if k: nat :| FirstDiffer(a, b, k) { assert k > 0 && FirstDiffer(a[1..], b[1..], k - 1); }
      } else if a[0] < b[0] {
        assert FirstDiffer(a, b, 0);
      } else {
        assert forall k: nat :: k > 0 && k < |a| && k < |b| ==> a[..k][0] != b[..k][0];
      }
    }
  }

  /** The texts agree up to this position and the first is less there. */
  predicate FirstDiffer(a: string, b: string, k: nat) {
    k < |a| && k < |b| && a[..k] == b[..k] && a[k] < b[k]
  }

  lemma DifferLater(a: string, b: string, k: nat)
    requires a != "" && b != "" && a[0] == b[0]
    ensures FirstDiffer(a[1..], b[1..], k) <==> FirstDiffer(a, b, k + 1)
  {
    if k + 1 <= |a| && k + 1 <= |b| {
      assert a[..k + 1] == [a[0]] + a[1..][..k] && b[..k + 1] == [b[0]] + b[1..][..k];
      assert a[..k + 1][1..] == a[1..][..k] && b[..k + 1][1..] == b[1..][..k];
    }
  }

  predicate Before(a: string, b: string) {
    a != b && TextLeq(a, b)
  }

  predicate Increasing(paths: seq<string>) {
    forall i, j :: 0 <= i < j < |paths| ==> Before(paths[i], paths[j])
  }

  lemma BeforeOrders(a: string, b: string, c: string)
    ensures a != b && TextLeq(a, b) <==> Before(a, b)
    ensures TextLeq(a, b) || Before(b, a)
    ensures Before(a, b) && Before(b, c) ==> Before(a, c)
    ensures TextLeq(a, b) && a != b ==> Before(a, b)
  {
    hide TextLeq;
    TextLeqOrders(a, b, c);
    TextLeqOrders(b, a, c);
  }

  /** An increasing list is determined by its elements. */
  lemma {:induction false} IncreasingIsUnique(a: seq<string>, b: seq<string>)
    requires Increasing(a) && Increasing(b) && forall x :: x in a <==> x in b
    ensures a == b
    decreases |a|
  {
    hide Before;
    if a == [] {
      assert forall i :: 0 <= i < |b| ==> b[i] in b;
    } else {
      LastIsSame(a, b);
      var m, n := |a| - 1, |b| - 1;
      assert a == a[..m] + [a[m]] && b == b[..n] + [b[n]];
      LastIsNew(a);
      LastIsNew(b);
      forall x ensures x in a[..m] <==> x in b[..n] {
        assert x in a <==> x in a[..m] || x == a[m];
        assert x in b <==> x in b[..n] || x == b[n];
      }
      IncreasingIsUnique(a[..m], b[..n]);
    }
  }

  lemma LastIsNew(a: seq<string>)
    requires Increasing(a) && a != []
    ensures a[|a| - 1] !in a[..|a| - 1]
  {
    hide TextLeq;
    assert forall i :: 0 <= i < |a| - 1 ==> Before(a[i], a[|a| - 1]);
  }

  lemma LastIsSame(a: seq<string>, b: seq<string>)
    requires a != [] && Increasing(a) && Increasing(b) && forall x :: x in a <==> x in b
    ensures b != [] && a[|a| - 1] == b[|b| - 1]
  {
    hide Before;
    var x := a[|a| - 1];
    assert x in b;
    var y := b[|b| - 1];
    assert y in a;
    var i :| 0 <= i < |b| && b[i] == x;
    var j :| 0 <= j < |a| && a[j] == y;
    if x != y {
      assert Before(x, y) && Before(y, x);
      BeforeIsStrict(x, y);
    }
  }

  lemma BeforeIsStrict(a: string, b: string)
    ensures !(Before(a, b) && Before(b, a))
  {
    hide TextLeq;
    TextLeqOrders(a, b, a);
  }

  // ------------------------------------------------------------- sorting names

  function InsertName(name: string, sorted: seq<string>): seq<string> {
    if sorted == [] || Before(name, sorted[0]) then [name] + sorted
    else if name == sorted[0] then sorted
    else [sorted[0]] + InsertName(name, sorted[1..])
  }

  /** Sorting and then dropping adjacent duplicates. */
  function SortedDistinct(names: seq<string>): seq<string> {
    if names == [] then [] else InsertName(names[0], SortedDistinct(names[1..]))
  }

  lemma {:induction false} InsertedName(name: string, sorted: seq<string>)
    requires Increasing(sorted)
    ensures Increasing(InsertName(name, sorted)) && forall x :: x in InsertName(name, sorted) <==> x == name || x in sorted
    decreases |sorted|
  {
    hide Before;
    if sorted != [] {
      var first, rest := sorted[0], sorted[1..];
      assert sorted == [first] + rest && Increasing(rest);
      BeforeOrders(name, first, name);
      if Before(name, first) {
        forall k | 0 <= k < |sorted| ensures Before(name, sorted[k]) { BeforeOrders(name, first, sorted[k]); }
      } else if name != first {
        InsertedName(name, rest);
        var more := InsertName(name, rest);
        BeforeOrders(name, first, name);
        assert Before(first, name);
        forall k | 0 <= k < |more| ensures Before(first, more[k]) { assert more[k] == name || more[k] in rest; }
      }
    }
  }

  lemma {:induction false} SortedDistinctIs(names: seq<string>)
    ensures Increasing(SortedDistinct(names)) && forall x :: x in SortedDistinct(names) <==> x in names
    decreases |names|
  {
    hide Before, InsertName;
    if names != [] {
      assert names == [names[0]] + names[1..];
      SortedDistinctIs(names[1..]);
      InsertedName(names[0], SortedDistinct(names[1..]));
    }
  }
}
