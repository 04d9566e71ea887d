/** The managed handlers in the hook files of agent clients: how they are recognised,
    installed, removed and counted. */
module AgentHooks {
  import opened Basics

  datatype Value =
    | Null
    | Bool(flag: bool)
    | Num(number: int)
    | Str(text: string)
    | Arr(items: seq<Value>)
    | Obj(fields: map<string, Value>)

  const MANAGED_ID := "codebase-graph-v1"
  const MANAGED_FLAG := "--managed-id"

  // ------------------------------------------------------- recognising a handler

  predicate OccursAt(text: string, part: string, i: int) {
    0 <= i <= |text| - |part| && text[i..i + |part|] == part
  }

  predicate Contains(text: string, part: string) {
    exists i :: 0 <= i <= |text| && OccursAt(text, part, i)
  }

  predicate ManagedText(v: Value) {
    v.Str? && Contains(v.text, MANAGED_FLAG) && Contains(v.text, MANAGED_ID)
  }

  predicate ManagedArguments(v: Value) {
    v.Arr? && exists i :: 0 <= i < |v.items| - 1 && v.items[i] == Str(MANAGED_FLAG) && v.items[i + 1] == Str(MANAGED_ID)
  }

  predicate HasField(v: Value, key: string) {
    v.Obj? && key in v.fields
  }

  predicate Managed(v: Value) {
    || (HasField(v, "command") && ManagedText(v.fields["command"]))
    || (HasField(v, "bash") && ManagedText(v.fields["bash"]))
    || (HasField(v, "powershell") && ManagedText(v.fields["powershell"]))
    || (HasField(v, "args") && ManagedArguments(v.fields["args"]))
  }

  // ----------------------------------------------------------------- wrappers

  /** An entry that groups handlers in a `hooks` array. */
  predicate IsWrapper(v: Value) {
    HasField(v, "hooks") && v.fields["hooks"].Arr?
  }

  function Children(v: Value): seq<Value>
    requires IsWrapper(v)
  {
    v.fields["hooks"].items
  }

  function WithChildren(v: Value, children: seq<Value>): (w: Value)
    requires IsWrapper(v)
    ensures IsWrapper(w) && Children(w) == children
  {
    Obj(v.fields["hooks" := Arr(children)])
  }

  predicate IsEmptyWrapper(v: Value) {
    IsWrapper(v) && Children(v) == []
  }

  /** What a wrapper says besides its handlers. */
  function Rest(v: Value): Value
    requires IsWrapper(v)
  {
    Obj(v.fields - {"hooks"})
  }

  lemma WrapperFacts(v: Value, children: seq<Value>)
    requires IsWrapper(v)
    ensures Managed(WithChildren(v, children)) == Managed(v) == Managed(Rest(v))
    ensures Rest(WithChildren(v, children)) == Rest(v)
    ensures WithChildren(v, Children(v)) == v
  {
    hide ManagedText, ManagedArguments;
    assert "hooks"[0] != "command"[0] && "hooks"[0] != "bash"[0];
    assert "hooks"[0] != "powershell"[0] && "hooks"[0] != "args"[0];
    assert v.fields["hooks" := Arr(children)] - {"hooks"} == v.fields - {"hooks"};
    assert v.fields["hooks" := v.fields["hooks"]] == v.fields;
  }

  // ------------------------------------------------------------- what cleaning means

  /** Drop managed values and the wrappers that hold nothing, `depth` wrappers deep:
      an event's entries are cleaned with depth 2, the handlers of an entry with depth 1. */
  function Clean(depth: nat, list: seq<Value>): seq<Value>
    decreases depth, |list|, 0
  {
    if list == [] then [] else CleanOne(depth, list[0]) + Clean(depth, list[1..])
  }

  function CleanOne(depth: nat, v: Value): (c: seq<Value>)
    ensures |c| <= 1
    decreases depth, 0, 1
  {
    if Managed(v) then []
    else if depth == 0 || !IsWrapper(v) then [v]
    else
      var children := Clean(depth - 1, Children(v));
      if children == [] then [] else [WithChildren(v, children)]
  }

  /** A handler together with what the wrappers around it say. */
  datatype Handler = Handler(around: seq<Value>, value: Value)

  predicate Unmanaged(h: Handler) {
    !Managed(h.value) && forall i :: 0 <= i < |h.around| ==> !Managed(h.around[i])
  }

  function Handlers(depth: nat, list: seq<Value>): seq<Handler>
    decreases depth, |list|, 0
  {
    if list == [] then [] else HandlersOf(depth, list[0]) + Handlers(depth, list[1..])
  }

  function HandlersOf(depth: nat, v: Value): seq<Handler>
    decreases depth, 0, 1
  {
    if depth == 0 || !IsWrapper(v) then [Handler([], v)]
    else Around(Rest(v), Handlers(depth - 1, Children(v)))
  }

  function Around(w: Value, handlers: seq<Handler>): (r: seq<Handler>)
    ensures |r| == |handlers|
  {
    if handlers == [] then []
    else [Handler([w] + handlers[0].around, handlers[0].value)] + Around(w, handlers[1..])
  }

  function IfUnmanaged(h: Handler): seq<Handler> {
    if Unmanaged(h) then [h] else []
  }

  function OnlyUnmanaged(handlers: seq<Handler>): seq<Handler> {
    if handlers == [] then []
    else IfUnmanaged(handlers[0]) + OnlyUnmanaged(handlers[1..])
  }

  /** Nothing to drop: no managed value and no empty wrapper where cleaning looks. */
  predicate Tidy(depth: nat, list: seq<Value>)
    decreases depth
  {
    forall i :: 0 <= i < |list| ==>
      !Managed(list[i]) && (depth > 0 && IsWrapper(list[i]) ==> Children(list[i]) != [] && Tidy(depth - 1, Children(list[i])))
  }

  // ------------------------------------------------------------- laws of cleaning

  lemma {:induction false} CleanConcat(depth: nat, a: seq<Value>, b: seq<Value>)
    ensures Clean(depth, a + b) == Clean(depth, a) + Clean(depth, b)
    decreases |a|
  {
    hide CleanOne;
    if a == [] {
      assert a + b == b;
    } else {
      assert (a + b)[1..] == a[1..] + b;
      CleanConcat(depth, a[1..], b);
    }
  }

  lemma {:induction false} HandlersConcat(depth: nat, a: seq<Value>, b: seq<Value>)
    ensures Handlers(depth, a + b) == Handlers(depth, a) + Handlers(depth, b)
    decreases |a|
  {
    hide HandlersOf;
    if a == [] {
      assert a + b == b;
    } else {
      assert (a + b)[1..] == a[1..] + b;
      HandlersConcat(depth, a[1..], b);
    }
  }

  lemma {:induction false} UnmanagedConcat(a: seq<Handler>, b: seq<Handler>)
    ensures OnlyUnmanaged(a + b) == OnlyUnmanaged(a) + OnlyUnmanaged(b)
    decreases |a|
  {
    hide IfUnmanaged;
    if a == [] {
      assert a + b == b;
    } else {
      assert (a + b)[1..] == a[1..] + b;
      UnmanagedConcat(a[1..], b);
    }
  }

  lemma {:induction false} UnmanagedAround(w: Value, handlers: seq<Handler>)
    ensures OnlyUnmanaged(Around(w, handlers)) == if Managed(w) then [] else Around(w, OnlyUnmanaged(handlers))
    decreases |handlers|
  {
    hide Managed;
    if handlers != [] {
      UnmanagedAround(w, handlers[1..]);
      var h := Handler([w] + handlers[0].around, handlers[0].value);
      assert Unmanaged(h) == (!Managed(w) && Unmanaged(handlers[0])) by {
        assert h.around[0] == w;
        assert forall i :: 0 <= i < |handlers[0].around| ==> h.around[i + 1] == handlers[0].around[i];
      }
      assert Around(w, handlers) == [h] + Around(w, handlers[1..]);
      assert Around(w, handlers)[1..] == Around(w, handlers[1..]);
      var kept := OnlyUnmanaged(handlers[1..]);
      if Unmanaged(handlers[0]) {
        assert OnlyUnmanaged(handlers) == [handlers[0]] + kept;
        assert ([handlers[0]] + kept)[1..] == kept;
        assert Around(w, [handlers[0]] + kept) == [h] + Around(w, kept);
      } else {
        assert OnlyUnmanaged(handlers) == kept;
      }
    }
  }

  /** Cleaning is filtering: the handlers of the result are the unmanaged handlers of
      the input, in the same order and in the same surroundings. */
  lemma {:induction false} CleanKeepsUnmanaged(depth: nat, list: seq<Value>)
    ensures Handlers(depth, Clean(depth, list)) == OnlyUnmanaged(Handlers(depth, list))
    decreases depth, |list|, 0
  {
    hide CleanOne, HandlersOf;
    if list != [] {
      CleanOneKeepsUnmanaged(depth, list[0]);
      CleanKeepsUnmanaged(depth, list[1..]);
      HandlersConcat(depth, CleanOne(depth, list[0]), Clean(depth, list[1..]));
      UnmanagedConcat(HandlersOf(depth, list[0]), Handlers(depth, list[1..]));
    }
  }

  lemma {:induction false} CleanOneKeepsUnmanaged(depth: nat, v: Value)
    ensures Handlers(depth, CleanOne(depth, v)) == OnlyUnmanaged(HandlersOf(depth, v))
    decreases depth, 0, 1
  {
    hide Managed, IsWrapper, Children, WithChildren, Rest;
    if depth == 0 || !IsWrapper(v) {
      assert Unmanaged(Handler([], v)) == !Managed(v);
      SingleHandlers(depth, v);
    } else {
      var children := Children(v);
      var cleaned := Clean(depth - 1, children);
      CleanKeepsUnmanaged(depth - 1, children);
      UnmanagedAround(Rest(v), Handlers(depth - 1, children));
      WrapperFacts(v, cleaned);
      SingleHandlers(depth, WithChildren(v, cleaned));
    }
  }

  lemma SingleHandlers(depth: nat, v: Value)
    ensures Handlers(depth, [v]) == HandlersOf(depth, v)
  {
    hide HandlersOf;
    assert Handlers(depth, [v][1..]) == [];
  }

  lemma {:induction false} CleanIsTidy(depth: nat, list: seq<Value>)
    ensures Tidy(depth, Clean(depth, list))
    decreases depth, |list|
  {
    hide Managed, IsWrapper, Children, WithChildren;
    if list != [] {
      CleanIsTidy(depth, list[1..]);
      if depth > 0 && IsWrapper(list[0]) {
        CleanIsTidy(depth - 1, Children(list[0]));
        WrapperFacts(list[0], Clean(depth - 1, Children(list[0])));
      }
    }
  }

  lemma {:induction false} TidyIsKept(depth: nat, list: seq<Value>)
    requires Tidy(depth, list)
    ensures Clean(depth, list) == list
    decreases depth, |list|
  {
    hide Managed, IsWrapper, Children, WithChildren;
    if list != [] {
      TidyIsKept(depth, list[1..]);
      if depth > 0 && IsWrapper(list[0]) {
        TidyIsKept(depth - 1, Children(list[0]));
        WrapperFacts(list[0], Children(list[0]));
      }
    }
  }

  /** Cleaning changes a list exactly when there is something to drop. */
  lemma CleanFixesTidy(depth: nat, list: seq<Value>)
    ensures Clean(depth, list) == list <==> Tidy(depth, list)
    ensures Clean(depth, Clean(depth, list)) == Clean(depth, list)
  {
    CleanIsTidy(depth, list);
    TidyIsKept(depth, Clean(depth, list));
    if Tidy(depth, list) { TidyIsKept(depth, list); }
  }

  // ------------------------------------------------- the passes over JSON arrays

  function RetainUnmanaged(list: seq<Value>): (r: seq<Value>)
    ensures |r| <= |list|
  {
    if list == [] then []
    else (if Managed(list[0]) then [] else [list[0]]) + RetainUnmanaged(list[1..])
  }

  function RetainFull(list: seq<Value>): (r: seq<Value>)
    ensures |r| <= |list|
  {
    if list == [] then []
    else (if IsEmptyWrapper(list[0]) then [] else [list[0]]) + RetainFull(list[1..])
  }

  /** One value after the handlers it wraps were cleaned. */
  function Inside(depth: nat, v: Value): Value {
    if IsWrapper(v) then WithChildren(v, Clean(depth, Children(v))) else v
  }

  function AllInside(depth: nat, list: seq<Value>): (r: seq<Value>)
    ensures |r| == |list|
    ensures forall i :: 0 <= i < |list| ==> r[i] == Inside(depth, list[i])
  {
    seq(|list|, i requires 0 <= i < |list| => Inside(depth, list[i]))
  }

  /** The three passes (retain, rewrite each, retain) are one cleaning. */
  lemma {:induction false} PassesClean(depth: nat, list: seq<Value>)
    ensures RetainFull(AllInside(depth, RetainUnmanaged(list))) == Clean(depth + 1, list)
    decreases |list|
  {
    hide Managed, IsWrapper, Children, WithChildren, Clean;
    if list == [] {
      CleanNone(depth + 1);
    } else {
      var v, rest := list[0], RetainUnmanaged(list[1..]);
      PassesClean(depth, list[1..]);
      CleanFirst(depth + 1, list);
      if !Managed(v) {
        assert RetainUnmanaged(list) == [v] + rest;
        assert AllInside(depth, [v] + rest) == [Inside(depth, v)] + AllInside(depth, rest);
        assert ([Inside(depth, v)] + AllInside(depth, rest))[1..] == AllInside(depth, rest);
        assert RetainFull([Inside(depth, v)] + AllInside(depth, rest)) == CleanOne(depth + 1, v) + RetainFull(AllInside(depth, rest));
      } else {
        assert RetainUnmanaged(list) == rest;
      }
    }
  }

  lemma CleanNone(depth: nat)
    ensures Clean(depth, []) == []
  {}

  lemma CleanFirst(depth: nat, list: seq<Value>)
    requires list != []
    ensures Clean(depth, list) == CleanOne(depth, list[0]) + Clean(depth, list[1..])
  {}

  lemma {:induction false} CleanAtZero(list: seq<Value>)
    ensures Clean(0, list) == RetainUnmanaged(list)
    decreases |list|
  {
    hide Managed;
    if list != [] { CleanAtZero(list[1..]); }
  }

  predicate NoManagedIn(list: seq<Value>) {
    forall i :: 0 <= i < |list| ==> !Managed(list[i])
  }

  lemma {:induction false} RetainsAllUnmanaged(list: seq<Value>)
    ensures |RetainUnmanaged(list)| == |list| <==> NoManagedIn(list)
    ensures NoManagedIn(list) ==> RetainUnmanaged(list) == list
    decreases |list|
  {
    hide Managed;
    if list != [] {
      RetainsAllUnmanaged(list[1..]);
      assert forall i :: 0 < i < |list| ==> list[i] == list[1..][i - 1];
    }
  }

  lemma {:induction false} RetainsAllFull(list: seq<Value>)
    ensures |RetainFull(list)| == |list| <==> forall i :: 0 <= i < |list| ==> !IsEmptyWrapper(list[i])
    decreases |list|
  {
    hide IsEmptyWrapper;
    if list != [] {
      RetainsAllFull(list[1..]);
      assert forall i :: 0 < i < |list| ==> list[i] == list[1..][i - 1];
    }
  }

  /** What the flag returned for one entry means: a managed handler, at either level
      inside it, or a group that was empty already. */
  predicate EntryReports(event: Value) {
    IsWrapper(event)
    && exists i :: 0 <= i < |Children(event)| && HandlerReports(Children(event)[i])
  }

  predicate HandlerReports(hook: Value) {
    Managed(hook) || IsEmptyWrapper(hook) || (IsWrapper(hook) && !NoManagedIn(Children(hook)))
  }

  method RemoveManagedFromEvent(event: Value) returns (result: Value, changed: bool)
    ensures result == Inside(1, event)
    ensures changed == EntryReports(event)
  {
    hide Managed, IsWrapper, Children, WithChildren, Clean, HandlerReports, RetainFull, RetainUnmanaged;
    changed := false;
    result := event;
    if IsWrapper(event) {
      ghost var original := Children(event);
      var before := |Children(event)|;
      var kept := RetainUnmanaged(Children(event));
      var hooks := kept;
      for i := 0 to |kept|
        invariant |hooks| == |kept|
        invariant hooks[..i] == AllInside(0, kept[..i])
        invariant hooks[i..] == kept[i..]
        invariant changed <==> exists k :: 0 <= k < i && IsWrapper(kept[k]) && !NoManagedIn(Children(kept[k]))
      {
        assert hooks[i] == kept[i];
        if IsWrapper(kept[i]) {
          var nested := Children(kept[i]);
          var left := RetainUnmanaged(nested);
          RetainsAllUnmanaged(nested);
          CleanAtZero(nested);
          if |left| != |nested| { changed := true; }
          hooks := hooks[i := WithChildren(kept[i], left)];
        }
        assert hooks[..i + 1] == hooks[..i] + [Inside(0, kept[i])];
        assert kept[..i + 1] == kept[..i] + [kept[i]];
      }
      assert hooks == AllInside(0, kept) by { assert kept[..|kept|] == kept && hooks[..|kept|] == hooks; }
      PassesClean(0, original);
      hooks := RetainFull(hooks);
      changed := changed || |hooks| != before;
      result := WithChildren(event, hooks);
      FlagMeaning(original);
    }
  }

  /** The flag of the loop, or a shorter list, is exactly a reporting handler. */
  lemma FlagMeaning(hooks: seq<Value>)
    ensures (exists i :: 0 <= i < |hooks| && HandlerReports(hooks[i]))
       <==> (|| (exists k :: 0 <= k < |RetainUnmanaged(hooks)| && IsWrapper(RetainUnmanaged(hooks)[k]) && !NoManagedIn(Children(RetainUnmanaged(hooks)[k])))
             || |RetainFull(AllInside(0, RetainUnmanaged(hooks)))| != |hooks|)
  {
    hide Managed, IsWrapper, Children, WithChildren, Clean, RetainFull, RetainUnmanaged;
    var kept := RetainUnmanaged(hooks);
    RetainsAllUnmanaged(hooks);
    RetainsAllFull(AllInside(0, kept));
    if NoManagedIn(hooks) {
      assert kept == hooks;
      forall i | 0 <= i < |hooks| ensures IsWrapper(hooks[i]) && NoManagedIn(Children(hooks[i])) ==> IsEmptyWrapper(Inside(0, hooks[i])) == IsEmptyWrapper(hooks[i]) {
        if IsWrapper(hooks[i]) {
          CleanAtZero(Children(hooks[i]));
          RetainsAllUnmanaged(Children(hooks[i]));
        }
      }
      assert forall i :: 0 <= i < |hooks| ==> AllInside(0, kept)[i] == Inside(0, hooks[i]);
    }
  }

  // --------------------------------------------------------- which handlers are managed

  /** The text has both marks somewhere. */
  ghost predicate HasMarks(text: string) {
    (exists x, y :: text == x + "--managed-id" + y) && (exists x, y :: text == x + "codebase-graph-v1" + y)
  }

  lemma ContainsExactly(text: string, part: string)
    ensures Contains(text, part) <==> exists x, y :: text == x + part + y
  {
    if Contains(text, part) {
      var i :| 0 <= i <= |text| && OccursAt(text, part, i);
      assert text == text[..i] + part + text[i + |part|..];
    }
    forall x, y | text == x + part + y ensures Contains(text, part) { assert OccursAt(text, part, |x|); }
  }

  ghost predicate MarkedField(v: Value, key: string) {
    v.Obj? && key in v.fields && v.fields[key].Str? && HasMarks(v.fields[key].text)
  }

  ghost predicate MarkedArguments(items: seq<Value>) {
    exists x, y :: items == x + [Str("--managed-id"), Str("codebase-graph-v1")] + y
  }

  /** A value is managed exactly when the text of one of three fields has both marks, or
      its arguments have them as neighbours. Nothing else is ever taken for managed. */
  lemma ManagedExactly(v: Value)
    ensures Managed(v) <==> || MarkedField(v, "command") || MarkedField(v, "bash") || MarkedField(v, "powershell")
                            || (v.Obj? && "args" in v.fields && v.fields["args"].Arr? && MarkedArguments(v.fields["args"].items))
  {
    hide HasMarks, ManagedText, MarkedArguments, ManagedArguments;
    if v.Obj? {
      if "command" in v.fields { MarkedText(v.fields["command"]); }
      if "bash" in v.fields { MarkedText(v.fields["bash"]); }
      if "powershell" in v.fields { MarkedText(v.fields["powershell"]); }
      if "args" in v.fields { ArgumentsExactly(v.fields["args"]); }
    }
  }

  lemma MarkedText(v: Value)
    ensures ManagedText(v) <==> v.Str? && HasMarks(v.text)
  {
    hide Contains;
    if v.Str? {
      ContainsExactly(v.text, MANAGED_FLAG);
      ContainsExactly(v.text, MANAGED_ID);
    }
  }

  lemma ArgumentsExactly(v: Value)
    ensures ManagedArguments(v) <==> v.Arr? && MarkedArguments(v.items)
  {
    if v.Arr? {
      var items := v.items;
      forall i | 0 <= i < |items| - 1 && items[i] == Str(MANAGED_FLAG) && items[i + 1] == Str(MANAGED_ID) ensures MarkedArguments(items) {
        assert items == items[..i] + [Str("--managed-id"), Str("codebase-graph-v1")] + items[i + 2..];
      }
      forall x, y | items == x + [Str("--managed-id"), Str("codebase-graph-v1")] + y ensures ManagedArguments(v) {
        assert items[|x|] == Str(MANAGED_FLAG) && items[|x| + 1] == Str(MANAGED_ID);
      }
    }
  }
}
