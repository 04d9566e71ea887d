/** Installing, removing and counting the managed handlers of a client's hook file. */
module HookMerge {
  import opened Basics
  import opened AgentHooks

  datatype Client = Codex | Claude | GithubCopilot

  /** What only shapes the generated command: the setup file, the server and the platform. */
  datatype Setup = Setup(config: string, server: string, windows: bool)

  datatype MergeError = RootNotObject | EventNotArray(name: string)

  datatype MergeResult = Ok(root: Value) | Err(error: MergeError)

  // ------------------------------------------------------------ the generated handler

  function ClientId(client: Client): string {
    match client
    case Codex => "codex"
    case Claude => "claude"
    case GithubCopilot => "github-copilot"
  }

  function Replaced(text: string, c: char, with: string): string {
    if text == "" then "" else (if text[0] == c then with else [text[0]]) + Replaced(text[1..], c, with)
  }

  function ShellQuote(text: string, windows: bool): string {
    if windows then "\"" + Replaced(text, '\"', "\\\"") + "\"" else "'" + Replaced(text, '\'', "'\\''") + "'"
  }

  function PowershellQuote(text: string): string {
    "'" + Replaced(text, '\'', "''") + "'"
  }

  function Marked(command: string): string {
    command + " " + MANAGED_FLAG + " " + MANAGED_ID
  }

  function HookCommand(client: Client, setup: Setup): string {
    Marked(ShellQuote(setup.server, setup.windows) + " agent-hooks run --client " + ClientId(client)
           + " --config " + ShellQuote(setup.config, setup.windows))
  }

  function WindowsHookCommand(client: Client, setup: Setup): string {
    Marked("& " + PowershellQuote(setup.server) + " agent-hooks run --client " + ClientId(client)
           + " --config " + PowershellQuote(setup.config))
  }

  function BashGuard(executable: string): string {
    "if [ -n \"${COPILOT_AGENT_PROMPT:-}\" ] || ! command -v " + executable + " >/dev/null 2>&1; then exit 0; fi; "
  }

  function PowershellGuard(executable: string): string {
    "if ($env:COPILOT_AGENT_PROMPT -or -not (Get-Command " + executable + " -ErrorAction SilentlyContinue)) { exit 0 }; "
  }

  function ManagedHook(client: Client, setup: Setup): Value {
    match client
    case Codex => Obj(map[
      "type" := Str("command"), "command" := Str(HookCommand(client, setup)),
      "commandWindows" := Str(WindowsHookCommand(client, setup)), "timeout" := Num(3)])
    case Claude => Obj(map[
      "type" := Str("command"), "command" := Str(setup.server), "args" := ClaudeArguments(setup), "timeout" := Num(3)])
    case GithubCopilot => Obj(map[
      "type" := Str("command"),
      "bash" := Str(BashGuard(ShellQuote(setup.server, setup.windows)) + HookCommand(client, setup)),
      "powershell" := Str(PowershellGuard(PowershellQuote(setup.server)) + WindowsHookCommand(client, setup)),
      "timeout" := Num(3)])
  }

  function ClaudeArguments(setup: Setup): Value {
    Arr([Str("agent-hooks"), Str("run"), Str("--client"), Str(ClientId(Claude)),
         Str("--config"), Str(setup.config), Str(MANAGED_FLAG), Str(MANAGED_ID)])
  }

  predicate NeedsMatcher(name: string) {
    name == "PreToolUse" || name == "PostToolUse" || name == "preToolUse" || name == "postToolUse"
  }

  function WithMatcher(name: string, fields: map<string, Value>): Value {
    Obj(if NeedsMatcher(name) then fields["matcher" := Str(".*")] else fields)
  }

  function Generated(client: Client, name: string, setup: Setup): Value {
    var hook := ManagedHook(client, setup);
    WithMatcher(name, if client.GithubCopilot? then (if hook.Obj? then hook.fields else map[]) else map["hooks" := Arr([hook])])
  }

  function EventNames(client: Client): seq<string> {
    if client.GithubCopilot?
    then ["sessionStart", "userPromptSubmitted", "preToolUse", "postToolUse", "subagentStart"]
    else ["SessionStart", "UserPromptSubmit", "PreToolUse", "SubagentStart"]
  }

  // ----------------------------------------------- the generated handler is managed

  lemma MarkedTextIsManaged(before: string, command: string)
    ensures ManagedText(Str(before + Marked(command)))
  {
    hide Contains;
    var text := before + Marked(command);
    var head := before + command + " ";
    assert text == head + MANAGED_FLAG + (" " + MANAGED_ID);
    PartIsContained(head, MANAGED_FLAG, " " + MANAGED_ID);
    assert text == (head + MANAGED_FLAG + " ") + MANAGED_ID + "";
    PartIsContained(head + MANAGED_FLAG + " ", MANAGED_ID, "");
  }

  lemma PartIsContained(before: string, part: string, after: string)
    ensures Contains(before + part + after, part)
  {
    assert OccursAt(before + part + after, part, |before|);
  }

  lemma HookIsManaged(client: Client, setup: Setup)
    ensures Managed(ManagedHook(client, setup))
    ensures !IsWrapper(ManagedHook(client, setup))
  {
    hide Contains, HookCommand, WindowsHookCommand, ShellQuote, PowershellQuote, BashGuard, PowershellGuard, ManagedText, ClaudeArguments;
    CommandIsManaged(client, setup, "");
    CommandIsManaged(client, setup, BashGuard(ShellQuote(setup.server, setup.windows)));
    ArgumentsAreManaged(setup);
    assert "" + HookCommand(client, setup) == HookCommand(client, setup);
    assert |"hooks"| == 5 && |"type"| == 4 && |"command"| == 7 && |"commandWindows"| == 14;
    assert |"timeout"| == 7 && |"args"| == 4 && |"bash"| == 4 && |"powershell"| == 10;
    assert "bash"[0] == 'b' && "type"[0] == 't' && "args"[0] == 'a' && "command"[0] == 'c' && "timeout"[0] == 't';
  }

  lemma CommandIsManaged(client: Client, setup: Setup, before: string)
    ensures ManagedText(Str(before + HookCommand(client, setup)))
  {
    hide ManagedText, Marked, ShellQuote;
    MarkedTextIsManaged(before, ShellQuote(setup.server, setup.windows) + " agent-hooks run --client " + ClientId(client)
                                + " --config " + ShellQuote(setup.config, setup.windows));
  }

  lemma ArgumentsAreManaged(setup: Setup)
    ensures ManagedArguments(ClaudeArguments(setup))
  {
    var v := ClaudeArguments(setup);
    var i := 6;
    assert 0 <= i < |v.items| - 1 && v.items[i] == Str(MANAGED_FLAG) && v.items[i + 1] == Str(MANAGED_ID);
  }

  /** The generated entry is one managed handler and nothing else. */
  lemma GeneratedIsOneHandler(client: Client, name: string, setup: Setup)
    ensures Clean(2, [Generated(client, name, setup)]) == []
    ensures CountManaged([Generated(client, name, setup)]) == 1
    ensures EventReports([Generated(client, name, setup)])
    ensures var hs := Handlers(2, [Generated(client, name, setup)]); |hs| == 1 && Managed(hs[0].value)
  {
    hide Managed, ManagedHook, NeedsMatcher;
    var g := Generated(client, name, setup);
    HookIsManaged(client, setup);
    SingleHandlers(2, g);
    if client.GithubCopilot? {
      ManagedWithMatcher(name, ManagedHook(client, setup));
      assert [g][0] == g;
    } else {
      GroupOfOne(name, ManagedHook(client, setup));
    }
  }

  lemma ManagedWithMatcher(name: string, hook: Value)
    requires Managed(hook) && !IsWrapper(hook)
    ensures hook.Obj? && Managed(WithMatcher(name, hook.fields)) && !IsWrapper(WithMatcher(name, hook.fields))
  {
    hide ManagedText, ManagedArguments, NeedsMatcher;
    assert "matcher"[0] != "hooks"[0] && "matcher"[0] != "command"[0] && "matcher"[0] != "bash"[0];
    assert "matcher"[0] != "powershell"[0] && "matcher"[0] != "args"[0];
  }

  lemma GroupFacts(name: string, hook: Value)
    ensures var g := WithMatcher(name, map["hooks" := Arr([hook])]);
            IsWrapper(g) && Children(g) == [hook] && !Managed(g)
  {
    hide ManagedText, ManagedArguments, NeedsMatcher;
    assert "matcher"[0] != "hooks"[0] && "matcher"[0] != "command"[0] && "matcher"[0] != "bash"[0];
    assert "matcher"[0] != "powershell"[0] && "matcher"[0] != "args"[0];
    assert "hooks"[0] != "powershell"[0] && "hooks"[0] != "args"[0] && "hooks"[0] != "command"[0] && "hooks"[0] != "bash"[0];
  }

  lemma GroupOfOne(name: string, hook: Value)
    requires Managed(hook) && !IsWrapper(hook)
    ensures var g := WithMatcher(name, map["hooks" := Arr([hook])]);
            Clean(2, [g]) == [] && CountManaged([g]) == 1 && EventReports([g])
    ensures var hs := HandlersOf(2, WithMatcher(name, map["hooks" := Arr([hook])])); |hs| == 1 && Managed(hs[0].value)
  {
    hide Managed, IsWrapper, Children, WithMatcher;
    var g := WithMatcher(name, map["hooks" := Arr([hook])]);
    GroupFacts(name, hook);
    CleanFirst(1, [hook]);
    CleanFirst(2, [g]);
    assert Clean(1, [hook]) == [];
    SingleHandlers(1, hook);
    assert CountIn([hook]) == 1;
    assert HandlerReports(Children(g)[0]);
    assert [g][0] == g;
  }

  // ------------------------------------------------------------------- counting

  function CountIn(list: seq<Value>): nat {
    if list == [] then 0 else (if Managed(list[0]) then 1 else 0) + CountIn(list[1..])
  }

  function CountManaged(entries: seq<Value>): nat {
    if entries == [] then 0
    else
      (if Managed(entries[0]) then 1 else 0)
      + (if IsWrapper(entries[0]) then CountIn(Children(entries[0])) else 0)
      + CountManaged(entries[1..])
  }

  lemma {:induction false} CountIsZero(list: seq<Value>)
    requires NoManagedIn(list)
    ensures CountIn(list) == 0
    decreases |list|
  {
    hide Managed;
    if list != [] { CountIsZero(list[1..]); }
  }

  lemma {:induction false} TidyCountsZero(entries: seq<Value>)
    requires Tidy(2, entries)
    ensures CountManaged(entries) == 0
    decreases |entries|
  {
    hide Managed, IsWrapper, Children;
    if entries != [] {
      assert Tidy(2, entries[1..]);
      TidyCountsZero(entries[1..]);
      if IsWrapper(entries[0]) {
        assert Tidy(1, Children(entries[0]));
        CountIsZero(Children(entries[0]));
      }
    }
  }

  lemma {:induction false} CountConcat(a: seq<Value>, b: seq<Value>)
    ensures CountManaged(a + b) == CountManaged(a) + CountManaged(b)
    decreases |a|
  {
    hide Managed, IsWrapper, Children, CountIn;
    if a == [] {
      assert a + b == b;
    } else {
      assert (a + b)[1..] == a[1..] + b;
      CountConcat(a[1..], b);
    }
  }

  // ---------------------------------------------------------- cleaning one event

  predicate EventReports(entries: seq<Value>) {
    exists i :: 0 <= i < |entries| && (Managed(entries[i]) || EntryReports(entries[i]))
  }

  /** The passes that installation and removal both make over an event's entries. */
  method CleanEntries(entries: seq<Value>) returns (result: seq<Value>, changed: bool)
    ensures result == Clean(2, entries)
    ensures changed == EventReports(entries)
  {
    hide Managed, Clean, EntryReports, RetainFull, RetainUnmanaged, Inside;
    var kept := RetainUnmanaged(entries);
    changed := |kept| != |entries|;
    RetainsAllUnmanaged(entries);
    result := kept;
    for i := 0 to |kept|
      invariant |result| == |kept|
      invariant result[..i] == AllInside(1, kept[..i])
      invariant result[i..] == kept[i..]
      invariant changed <==> |kept| != |entries| || exists k :: 0 <= k < i && EntryReports(kept[k])
    {
      assert result[i] == kept[i];
      var entry, reported := RemoveManagedFromEvent(result[i]);
      result := result[i := entry];
      changed := changed || reported;
      assert result[..i + 1] == result[..i] + [Inside(1, kept[i])];
      assert kept[..i + 1] == kept[..i] + [kept[i]];
    }
    assert result == AllInside(1, kept) by { assert kept[..|kept|] == kept && result[..|kept|] == result; }
    PassesClean(1, entries);
    result := RetainFull(result);
  }

  // ------------------------------------------------------------- installation

  function HooksOf(root: Value): map<string, Value> {
    if HasField(root, "hooks") && root.fields["hooks"].Obj? then root.fields["hooks"].fields else map[]
  }

  predicate BadEvent(hooks: map<string, Value>, name: string) {
    name in hooks && !hooks[name].Arr?
  }

  function Entries(hooks: map<string, Value>, name: string): seq<Value> {
    if name in hooks && hooks[name].Arr? then hooks[name].items else []
  }

  predicate Mergeable(client: Client, root: Value) {
    root.Obj? && forall i :: 0 <= i < |EventNames(client)| ==> !BadEvent(HooksOf(root), EventNames(client)[i])
  }

  function Versioned(client: Client, fields: map<string, Value>): map<string, Value> {
    if client.GithubCopilot? && "version" !in fields then fields["version" := Num(1)] else fields
  }

  function MergedEvent(client: Client, setup: Setup, hooks: map<string, Value>, name: string): Value {
    Arr(Clean(2, Entries(hooks, name)) + [Generated(client, name, setup)])
  }

  function MergedHooks(client: Client, setup: Setup, hooks: map<string, Value>, names: seq<string>): map<string, Value> {
    map n | n in hooks.Keys + (set x | x in names) :: if n in names then MergedEvent(client, setup, hooks, n) else hooks[n]
  }

  function WithHooks(fields: map<string, Value>, hooks: map<string, Value>): (v: Value)
    ensures HooksOf(v) == hooks
  {
    Obj(fields["hooks" := Obj(hooks)])
  }

  function MergedRoot(client: Client, setup: Setup, root: Value): Value
    requires root.Obj?
  {
    WithHooks(Versioned(client, root.fields), MergedHooks(client, setup, HooksOf(root), EventNames(client)))
  }

  lemma NamesAreDistinct(client: Client, i: nat, j: nat)
    requires i < j < |EventNames(client)|
    ensures EventNames(client)[i] != EventNames(client)[j]
  {
    hide MANAGED_ID;
    var names := EventNames(client);
    assert |names[0]| == 12 && |names[1]| >= 16 && |names[2]| == 10;
  }

  lemma MergedSoFar(client: Client, setup: Setup, hooks: map<string, Value>, names: seq<string>, name: string)
    requires name !in names
    ensures var merged := MergedHooks(client, setup, hooks, names);
            && (name in merged <==> name in hooks)
            && (name in merged ==> merged[name] == hooks[name])
            && MergedHooks(client, setup, hooks, names + [name]) == merged[name := MergedEvent(client, setup, hooks, name)]
  {
    hide MergedEvent;
  }

  /** The loop over the supported events; `bad` is the first event that is no array. */
  method MergeEvents(client: Client, setup: Setup, original: map<string, Value>)
    returns (hooks: map<string, Value>, bad: Option<nat>)
    ensures bad.None? ==> hooks == MergedHooks(client, setup, original, EventNames(client))
    ensures forall j :: 0 <= j < (if bad.None? then |EventNames(client)| else bad.value) ==>
      j < |EventNames(client)| && !BadEvent(original, EventNames(client)[j])
    ensures bad.Some? ==> bad.value < |EventNames(client)| && BadEvent(original, EventNames(client)[bad.value])
  {
    hide Generated, EventNames, Clean, MergedHooks;
    var names := EventNames(client);
    hooks := original;
    assert hooks == MergedHooks(client, setup, original, names[..0]) by { MergedNone(client, setup, original); }
    for i := 0 to |names|
      invariant hooks == MergedHooks(client, setup, original, names[..i])
      invariant forall j :: 0 <= j < i ==> !BadEvent(original, names[j])
    {
      var name := names[i];
      forall j | 0 <= j < i ensures names[j] != name { NamesAreDistinct(client, j, i); }
      MergedSoFar(client, setup, original, names[..i], name);
      assert names[..i + 1] == names[..i] + [name];
      if name !in hooks { hooks := hooks[name := Arr([])]; }
      if !hooks[name].Arr? { return hooks, Some(i); }
      var entries, _ := CleanEntries(hooks[name].items);
      hooks := hooks[name := Arr(entries + [Generated(client, name, setup)])];
    }
    assert names[..|names|] == names;
    bad := None;
  }

  lemma MergedNone(client: Client, setup: Setup, hooks: map<string, Value>)
    ensures MergedHooks(client, setup, hooks, []) == hooks
  {
    hide MergedEvent;
  }

  method MergeHooks(client: Client, root: Value, setup: Setup) returns (r: MergeResult)
    ensures r.Ok? <==> Mergeable(client, root)
    ensures r.Ok? ==> r.root == MergedRoot(client, setup, root)
    ensures r.Err? ==> (r.error.RootNotObject? <==> !root.Obj?)
    ensures r.Err? && root.Obj? ==>
      exists k :: 0 <= k < |EventNames(client)| && r.error.name == EventNames(client)[k]
                  && BadEvent(HooksOf(root), EventNames(client)[k])
                  && forall j :: 0 <= j < k ==> !BadEvent(HooksOf(root), EventNames(client)[j])
  {
    hide EventNames, MergedHooks, BadEvent;
    if !root.Obj? { return Err(RootNotObject); }
    var fields := Versioned(client, root.fields);
    if !("hooks" in fields && fields["hooks"].Obj?) {
      fields := fields["hooks" := Obj(map[])];
    }
    VersionKeepsHooks(client, root.fields, Null);
    var hooks, bad := MergeEvents(client, setup, fields["hooks"].fields);
    if bad.Some? { return Err(EventNotArray(EventNames(client)[bad.value])); }
    r := Ok(Obj(fields["hooks" := Obj(hooks)]));
    assert fields["hooks" := Obj(hooks)] == Versioned(client, root.fields)["hooks" := Obj(hooks)];
  }

  lemma VersionKeepsHooks(client: Client, fields: map<string, Value>, h: Value)
    ensures HooksOf(Obj(Versioned(client, fields))) == HooksOf(Obj(fields))
    ensures Versioned(client, Versioned(client, fields)["hooks" := h]) == Versioned(client, fields)["hooks" := h]
  {
    assert "version"[0] != "hooks"[0];
  }

  /** The last installation wins: what an earlier one left is replaced, so a repeated
      installation changes nothing. */
  lemma MergeOverwrites(client: Client, first: Setup, second: Setup, root: Value)
    requires Mergeable(client, root)
    ensures Mergeable(client, MergedRoot(client, first, root))
    ensures MergedRoot(client, second, MergedRoot(client, first, root)) == MergedRoot(client, second, root)
  {
    hide EventNames, MergedHooks, Versioned;
    var names, hooks := EventNames(client), HooksOf(root);
    var merged := MergedHooks(client, first, hooks, names);
    HooksAreOverwritten(client, first, second, hooks, names);
    var fields := Versioned(client, root.fields);
    VersionKeepsHooks(client, root.fields, Obj(merged));
    var last := Obj(MergedHooks(client, second, hooks, names));
    assert fields["hooks" := Obj(merged)]["hooks" := last] == fields["hooks" := last];
  }

  lemma HooksAreOverwritten(client: Client, first: Setup, second: Setup, hooks: map<string, Value>, names: seq<string>)
    ensures var merged := MergedHooks(client, first, hooks, names);
            && (forall i :: 0 <= i < |names| ==> !BadEvent(merged, names[i]))
            && MergedHooks(client, second, merged, names) == MergedHooks(client, second, hooks, names)
  {
    hide MergedEvent;
    var merged := MergedHooks(client, first, hooks, names);
    forall n | n in names ensures !BadEvent(merged, n) && MergedEvent(client, second, merged, n) == MergedEvent(client, second, hooks, n) {
      MergedEventIsOverwritten(client, first, second, hooks, merged, n);
    }
  }

  lemma MergedEventIsOverwritten(client: Client, first: Setup, second: Setup, hooks: map<string, Value>, merged: map<string, Value>, name: string)
    requires name in merged && merged[name] == MergedEvent(client, first, hooks, name)
    ensures !BadEvent(merged, name)
    ensures MergedEvent(client, second, merged, name) == MergedEvent(client, second, hooks, name)
  {
    hide Generated, Clean;
    EventIsOverwritten(client, first, hooks, name);
  }

  lemma EventIsOverwritten(client: Client, setup: Setup, hooks: map<string, Value>, name: string)
    ensures Clean(2, MergedEvent(client, setup, hooks, name).items) == Clean(2, Entries(hooks, name))
  {
    hide Generated, Clean;
    var cleaned := Clean(2, Entries(hooks, name));
    CleanConcat(2, cleaned, [Generated(client, name, setup)]);
    GeneratedIsOneHandler(client, name, setup);
    CleanFixesTidy(2, Entries(hooks, name));
  }

  /** Every supported event of an installed file has exactly one managed handler, the
      generated one; before it stand the unmanaged handlers of the original event, in
      order. Every other event is as it was. */
  lemma MergedEvents(client: Client, setup: Setup, root: Value, name: string)
    requires Mergeable(client, root)
    ensures var hooks := HooksOf(MergedRoot(client, setup, root));
            if name in EventNames(client) then
              && name in hooks && hooks[name].Arr?
              && CountManaged(hooks[name].items) == 1
              && CountManaged([Generated(client, name, setup)]) == 1
              && Handlers(2, hooks[name].items)
                 == OnlyUnmanaged(Handlers(2, Entries(HooksOf(root), name))) + Handlers(2, [Generated(client, name, setup)])
            else (name in hooks <==> name in HooksOf(root)) && (name in hooks ==> hooks[name] == HooksOf(root)[name])
  {
    hide Generated, EventNames, Clean, CountManaged, Handlers, Tidy;
    var entries := Entries(HooksOf(root), name);
    var g := Generated(client, name, setup);
    CleanKeepsUnmanaged(2, entries);
    HandlersConcat(2, Clean(2, entries), [g]);
    CountConcat(Clean(2, entries), [g]);
    CleanIsTidy(2, entries);
    TidyCountsZero(Clean(2, entries));
    GeneratedIsOneHandler(client, name, setup);
  }

  /** Installation leaves every field of the root but `hooks` (and a Copilot file's
      missing `version`) alone. */
  lemma OtherFieldsAreKept(client: Client, setup: Setup, root: Value, key: string)
    requires root.Obj? && key != "hooks" && (key in root.fields || key != "version" || !client.GithubCopilot?)
    ensures var merged := MergedRoot(client, setup, root);
            merged.Obj? && (key in merged.fields <==> key in root.fields) && (key in root.fields ==> merged.fields[key] == root.fields[key])
  {
    hide MergedHooks;
  }

  /** A Copilot file always has a version afterwards, 1 if it had none. */
  lemma CopilotHasVersion(setup: Setup, root: Value)
    requires root.Obj?
    ensures var merged := MergedRoot(GithubCopilot, setup, root);
            merged.Obj? && "version" in merged.fields
            && merged.fields["version"] == if "version" in root.fields then root.fields["version"] else Num(1)
  {
    hide MergedHooks;
    assert "version"[0] != "hooks"[0];
  }

  // ------------------------------------------------------------------ removal

  function CleanValue(event: Value): Value {
    if event.Arr? then Arr(Clean(2, event.items)) else event
  }

  function CleanHooks(hooks: map<string, Value>): map<string, Value> {
    map n | n in hooks :: CleanValue(hooks[n])
  }

  predicate HasHooks(root: Value) {
    HasField(root, "hooks") && root.fields["hooks"].Obj?
  }

  function Removed(root: Value): Value {
    if HasHooks(root) then WithHooks(root.fields, CleanHooks(HooksOf(root))) else root
  }

  /** What the `changed` flag of a removal means. */
  predicate RemovalReports(root: Value) {
    exists n :: n in HooksOf(root) && HooksOf(root)[n].Arr? && EventReports(HooksOf(root)[n].items)
  }

  method RemoveHooks(root: Value) returns (value: Value, changed: bool)
    ensures value == Removed(root)
    ensures changed == RemovalReports(root)
  {
    hide EventReports, Clean;
    value, changed := root, false;
    if HasHooks(root) {
      var hooks := HooksOf(root);
      var result := hooks;
      var pending := hooks.Keys;
      while pending != {}
        invariant pending <= hooks.Keys && result.Keys == hooks.Keys
        invariant forall n :: n in hooks ==> result[n] == if n in pending then hooks[n] else CleanValue(hooks[n])
        invariant changed <==> exists n :: n in hooks && n !in pending && hooks[n].Arr? && EventReports(hooks[n].items)
        decreases pending
      {
        var name :| name in pending;
        pending := pending - {name};
        if result[name].Arr? {
          var entries, reported := CleanEntries(result[name].items);
          result := result[name := Arr(entries)];
          changed := changed || reported;
        }
      }
      assert result == CleanHooks(hooks);
      value := WithHooks(root.fields, result);
    }
  }

  predicate NoManagedDeep(depth: nat, list: seq<Value>)
    decreases depth
  {
    forall i :: 0 <= i < |list| ==>
      !Managed(list[i]) && (depth > 0 && IsWrapper(list[i]) ==> NoManagedDeep(depth - 1, Children(list[i])))
  }

  predicate HoldsEmptyGroup(entry: Value) {
    IsWrapper(entry) && exists i :: 0 <= i < |Children(entry)| && IsEmptyWrapper(Children(entry)[i])
  }

  /** A removal that reports no change leaves no managed handler behind. It reports a
      change exactly for a managed handler or an empty group inside an entry; an empty
      entry is dropped without being reported. */
  lemma ReportMeansManaged(entries: seq<Value>)
    ensures EventReports(entries) <==>
      (!NoManagedDeep(2, entries) || exists i :: 0 <= i < |entries| && HoldsEmptyGroup(entries[i]))
  {
    hide Managed, IsWrapper, Children;
    forall i | 0 <= i < |entries|
      ensures EntryReports(entries[i])
        <==> (IsWrapper(entries[i]) && !NoManagedDeep(1, Children(entries[i]))) || HoldsEmptyGroup(entries[i]) {
      if IsWrapper(entries[i]) { EntryReportMeaning(entries[i]); }
    }
  }

  lemma EntryReportMeaning(entry: Value)
    requires IsWrapper(entry)
    ensures EntryReports(entry) <==> !NoManagedDeep(1, Children(entry)) || HoldsEmptyGroup(entry)
  {
    hide Managed, IsWrapper, Children;
    var list := Children(entry);
    forall i | 0 <= i < |list| && IsWrapper(list[i])
      ensures NoManagedDeep(0, Children(list[i])) == NoManagedIn(Children(list[i])) {}
    if EntryReports(entry) {
      var i :| 0 <= i < |list| && HandlerReports(list[i]);
    }
  }

  /** A cleaned event has no managed handler left. */
  lemma CleanedHasNone(entries: seq<Value>)
    ensures NoManagedDeep(2, Clean(2, entries))
  {
    CleanIsTidy(2, entries);
    TidyHasNone(2, Clean(2, entries));
  }

  lemma {:induction false} TidyHasNone(depth: nat, list: seq<Value>)
    requires Tidy(depth, list)
    ensures NoManagedDeep(depth, list)
    decreases depth
  {
    hide Managed, IsWrapper, Children;
    forall i | 0 <= i < |list| && depth > 0 && IsWrapper(list[i]) ensures NoManagedDeep(depth - 1, Children(list[i])) {
      TidyHasNone(depth - 1, Children(list[i]));
    }
  }

  // ------------------------------------------------------- install, then remove

  predicate TidyEvents(hooks: map<string, Value>) {
    forall n :: n in hooks && hooks[n].Arr? ==> Tidy(2, hooks[n].items)
  }

  /** Every field of the original is there, unchanged. */
  predicate KeepsFields(before: map<string, Value>, after: map<string, Value>) {
    forall k :: k in before ==> k in after && after[k] == before[k]
  }

  /** The `hooks` value is the original one, but for empty arrays of supported events. */
  predicate RestoresHooks(names: seq<string>, before: Value, after: Value) {
    before == after
    || (before.Obj? && after.Obj? && KeepsFields(before.fields, after.fields)
        && forall n :: n in after.fields && n !in before.fields ==> n in names && after.fields[n] == Arr([]))
  }

  /** The result is the original file, but for an added `hooks` object, an added
      `version` of a Copilot file, and empty arrays of supported events. */
  predicate Restores(client: Client, original: Value, result: Value) {
    && original.Obj? && result.Obj? && "hooks" in result.fields
    && KeepsFields(original.fields - {"hooks"}, result.fields)
    && (forall k :: k in result.fields && k !in original.fields ==> k == "hooks" || (k == "version" && client.GithubCopilot?))
    && RestoresHooks(EventNames(client), if "hooks" in original.fields then original.fields["hooks"] else Obj(map[]), result.fields["hooks"])
  }

  /** Installation keeps what `hooks` holds: it is absent or an object. */
  predicate HooksAreKept(root: Value) {
    root.Obj? && ("hooks" in root.fields ==> root.fields["hooks"].Obj?)
  }

  function PaddedHooks(hooks: map<string, Value>, names: seq<string>): map<string, Value> {
    map n | n in hooks.Keys + (set x | x in names) :: if n in hooks then hooks[n] else Arr([])
  }

  lemma RemovedAfterInstall(client: Client, setup: Setup, root: Value)
    requires Mergeable(client, root)
    ensures Removed(MergedRoot(client, setup, root))
         == WithHooks(Versioned(client, root.fields), CleanHooks(PaddedHooks(HooksOf(root), EventNames(client))))
  {
    hide Generated, EventNames, Clean;
    var names, hooks := EventNames(client), HooksOf(root);
    var merged := MergedHooks(client, setup, hooks, names);
    var cleaned, padded := CleanHooks(merged), PaddedHooks(hooks, names);
    CleanNone(2);
    forall n | n in padded ensures n in cleaned && cleaned[n] == CleanValue(padded[n]) {
      if n in names { EventIsOverwritten(client, setup, hooks, n); }
    }
    assert cleaned == CleanHooks(padded);
    var fields := Versioned(client, root.fields);
    assert fields["hooks" := Obj(merged)]["hooks" := Obj(cleaned)] == fields["hooks" := Obj(cleaned)];
  }

  /** Removing what was installed restores the file exactly when `hooks` was absent or an
      object, and its events held nothing to clean. */
  lemma InstallThenRemove(client: Client, setup: Setup, root: Value)
    requires Mergeable(client, root)
    ensures Restores(client, root, Removed(MergedRoot(client, setup, root))) <==> HooksAreKept(root) && TidyEvents(HooksOf(root))
    ensures RemovalReports(MergedRoot(client, setup, root))
  {
    hide Generated, EventNames, Clean, Tidy, EventReports, CleanHooks, PaddedHooks, MergedRoot, Removed;
    RemovedAfterInstall(client, setup, root);
    var hooks, names := HooksOf(root), EventNames(client);
    CleanedHooksAreRestored(hooks, names);
    assert "version"[0] != "hooks"[0];
    FirstEventReports(client, setup, hooks);
    MergedRootHooks(client, setup, root);
  }

  lemma MergedRootHooks(client: Client, setup: Setup, root: Value)
    requires root.Obj?
    ensures HooksOf(MergedRoot(client, setup, root)) == MergedHooks(client, setup, HooksOf(root), EventNames(client))
  {
    hide MergedHooks, EventNames;
  }

  /** A `hooks` value that is not an object is replaced by installation and never comes
      back, however tidy the rest is. */
  lemma NonObjectHooksAreLost(client: Client, setup: Setup, root: Value)
    requires root.Obj? && "hooks" in root.fields && !root.fields["hooks"].Obj?
    ensures Mergeable(client, root) && TidyEvents(HooksOf(root))
    ensures var result := Removed(MergedRoot(client, setup, root));
            result.Obj? && "hooks" in result.fields && result.fields["hooks"] != root.fields["hooks"] && !Restores(client, root, result)
  {
    hide EventNames, Tidy, CleanHooks, PaddedHooks, MergedRoot, Removed;
    RemovedAfterInstall(client, setup, root);
  }

  lemma CleanedHooksAreRestored(hooks: map<string, Value>, names: seq<string>)
    ensures RestoresHooks(names, Obj(hooks), Obj(CleanHooks(PaddedHooks(hooks, names)))) <==> TidyEvents(hooks)
  {
    hide Clean, Tidy;
    var padded := PaddedHooks(hooks, names);
    CleanNone(2);
    forall n | n in hooks && hooks[n].Arr? ensures CleanValue(hooks[n]) == hooks[n] <==> Tidy(2, hooks[n].items) {
      CleanFixesTidy(2, hooks[n].items);
    }
    forall n | n in hooks ensures n in CleanHooks(padded) && CleanHooks(padded)[n] == CleanValue(hooks[n]) {
      assert n in padded && padded[n] == hooks[n];
    }
    forall n | n in CleanHooks(padded) && n !in hooks ensures n in names && CleanHooks(padded)[n] == Arr([]) {
      assert padded[n] == Arr([]);
    }
  }

  lemma FirstEventReports(client: Client, setup: Setup, hooks: map<string, Value>)
    ensures var merged := MergedHooks(client, setup, hooks, EventNames(client));
            exists n :: n in merged && merged[n].Arr? && EventReports(merged[n].items)
  {
    hide Generated, Clean, Managed, EntryReports;
    var name := EventNames(client)[0];
    assert name in EventNames(client);
    var merged := MergedHooks(client, setup, hooks, EventNames(client));
    var items := merged[name].items;
    var g := Generated(client, name, setup);
    GeneratedIsOneHandler(client, name, setup);
    assert [g][0] == g && items[|items| - 1] == g;
  }
}
