/** How large a row limit must be for the contexts of graphs to be whole. */
module ContextThreshold {
  import opened Basics
  import opened ContextExpansion
  import opened GraphContext
  import opened ContextRoom
  import opened ContextGraph
  import opened ContextRuns
  import opened ContextFewKeys
  import F = ContextFan
  import L = ContextLoop

  /** The least limit for graphs with so many keys within reach and queries so wide. */
  function Needed(keys: nat, width: nat): nat
    requires width > 0
  {
    if keys <= 1 then keys
    else if keys <= 3 then if width >= 2 then keys + width - 2 else keys
    else keys + width - 1
  }

  lemma EnoughIsWhole(s: Search, keys: nat, width: nat, limit: nat)
    requires width > 0 && Needed(keys, width) <= limit && IsGraph(s) && Sized(s, keys, width, limit)
    ensures Whole(s)
  {
    hide IsGraph, Uncut, PlainNames, KeysAmong, Whole;
    var among: set<string> :| |among| <= keys && KeysAmong(s, among);
    if |among| <= 3 { RoomForFewKeys(s, among, width); } else { RoomForAll(s, among, width); }
  }

  /** A graph of the given size whose context lacks a row. */
  lemma LessLosesRows(keys: nat, width: nat, limit: nat) returns (s: Search)
    requires width > 0 && limit < Needed(keys, width)
    ensures IsGraph(s) && Sized(s, keys, width, limit) && !Whole(s)
  {
    hide IsGraph, Sized, Whole, ContextOf, WithinReach, Lists, F.Fan, F.FanRows, L.Loop, L.FoundRows, L.MissingRow;
    if limit < keys {
      F.FanLength(keys - 1, 0);
      s := F.Fan(keys - 1, 0, limit);
      F.FanIsSized(keys - 1, 0, limit, keys, width);
      F.FanIsTooWide(keys - 1, limit);
    } else if keys <= 3 {
      F.FanLength(keys - 2, width - 1);
      s := F.Fan(keys - 2, width - 1, limit);
      F.FanIsSized(keys - 2, width - 1, limit, keys, width);
      F.FanLosesLast(keys - 2, width - 1, limit);
    } else {
      s := L.Loop(keys - 4, width - 1, limit);
      L.LoopIsSized(keys - 4, width - 1, limit, keys, width);
      L.LoopLosesOne(keys - 4, width - 1, limit);
    }
  }

  /** Over all graphs with at most so many keys within reach and queries no wider, every
      context is whole exactly from this limit on. */
  lemma WholeExactlyFromNeeded(keys: nat, width: nat, limit: nat)
    requires width > 0
    ensures (forall s: Search :: IsGraph(s) && Sized(s, keys, width, limit) ==> Whole(s)) <==> Needed(keys, width) <= limit
  {
    hide IsGraph, Sized, Whole, Needed;
    if Needed(keys, width) <= limit {
      forall s: Search | IsGraph(s) && Sized(s, keys, width, limit) ensures Whole(s) { EnoughIsWhole(s, keys, width, limit); }
    } else {
      var s := LessLosesRows(keys, width, limit);
    }
  }

  lemma SmallLoop()
    ensures L.LoopEdges(0, 1) == [Edge(L.ROOT, "r", L.ROOT), Edge(L.ROOT, "r", L.HUB), Edge(L.HUB, "r", L.HUB)]
  {
    assert Rel(0) == "r";
    assert PadEdges(L.HUB, L.END, 0) == [];
    assert Copies(1, Edge(L.ROOT, "r", L.HUB)) == [Edge(L.ROOT, "r", L.HUB)];
  }

  /** Three edges, two steps, a limit of four: root to root, root to hub and hub to hub. The
      result has three rows and lacks the hub as a neighbour of itself. */
  lemma ThreeEdgesLackARow()
    ensures L.LoopEdges(0, 1) == [Edge(L.ROOT, "r", L.ROOT), Edge(L.ROOT, "r", L.HUB), Edge(L.HUB, "r", L.HUB)]
    ensures ContextOf(L.Loop(0, 1, 4)).Some? && |ContextOf(L.Loop(0, 1, 4)).value| == 3
    ensures WithinReach(L.Loop(0, 1, 4), L.MissingRow(0)) && !Lists(ContextOf(L.Loop(0, 1, 4)).value, KeyOf(L.MissingRow(0)))
  {
    hide ContextOf, WithinReach, Lists, KeyOf;
    SmallLoop();
    L.LoopLosesOne(0, 1, 4);
    L.FoundLength(0);
  }
}
