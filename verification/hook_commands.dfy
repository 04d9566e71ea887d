/** The generated hook commands, as a shell reads them: whatever the paths are, the server is
    called with exactly the intended arguments. */
module HookCommands {
  import opened Basics
  import opened AgentHooks
  import opened HookMerge

  /** A POSIX shell, after section 2.2 of the Shell Command Language, or PowerShell. */
  datatype Shell = Posix | PowerShell

  /** Characters that mean themselves outside of quotes; the ampersand calls a command in
      PowerShell. */
  predicate Plain(shell: Shell, c: char) {
    'a' <= c <= 'z' || '0' <= c <= '9' || c == '-' || (shell.PowerShell? && c == '&')
  }

  function Ended(word: string, started: bool): seq<string> { if started then [word] else [] }

  function Before(words: seq<string>, more: Option<seq<string>>): Option<seq<string>> {
    if more.None? then None else Some(words + more.value)
  }

  /** The words of a command line; none if a quote is left open or a character would mean
      something else. `word` is what was read of the current word. */
  function Read(shell: Shell, s: string, inside: bool, word: string, started: bool): Option<seq<string>>
    decreases |s|
  {
    if s == "" then (if inside then None else Some(Ended(word, started)))
    else if inside then
      if s[0] != '\'' then Read(shell, s[1..], true, word + [s[0]], true)
      else if shell.PowerShell? && |s| >= 2 && s[1] == '\'' then Read(shell, s[2..], true, word + ['\''], true)
      else Read(shell, s[1..], false, word, true)
    else if s[0] == ' ' then Before(Ended(word, started), Read(shell, s[1..], false, "", false))
    else if s[0] == '\'' then Read(shell, s[1..], true, word, true)
    else if shell.Posix? && s[0] == '\\' && |s| >= 2 then Read(shell, s[2..], false, word + [s[1]], true)
    else if Plain(shell, s[0]) then Read(shell, s[1..], false, word + [s[0]], true)
    else None
  }

  function Words(shell: Shell, s: string): Option<seq<string>> { Read(shell, s, false, "", false) }

  // ----------------------------------------------------------------------- the pieces

  lemma Grouped(a: string, b: string, c: string)
    ensures (a + b) + c == a + (b + c)
  {}

  lemma WordGrows(word: string, text: string)
    requires text != ""
    ensures word + [text[0]] + text[1..] == word + text
  {}

  lemma ReplacedNext(text: string, with: string, rest: string)
    requires text != ""
    ensures Replaced(text, '\'', with) + rest == (if text[0] == '\'' then with else [text[0]]) + (Replaced(text[1..], '\'', with) + rest)
  {
    Grouped(if text[0] == '\'' then with else [text[0]], Replaced(text[1..], '\'', with), rest);
  }

  lemma {:induction false} QuotedIsRead(shell: Shell, text: string, rest: string, word: string)
    requires rest == "" || rest[0] != '\''
    ensures var inner := if shell.Posix? then Replaced(text, '\'', "'\\''") else Replaced(text, '\'', "''");
            Read(shell, inner + "'" + rest, true, word, true) == Read(shell, rest, false, word + text, true)
    decreases |text|
  {
    var with := if shell.Posix? then "'\\''" else "''";
    var inner := Replaced(text, '\'', with);
    Grouped(inner, "'", rest);
    if text == "" {
      assert inner + ("'" + rest) == "'" + rest && word + text == word;
      ClosingQuoteIsRead(shell, rest, word);
    } else {
      var tail := Replaced(text[1..], '\'', with) + ("'" + rest);
      Grouped(Replaced(text[1..], '\'', with), "'", rest);
      QuotedIsRead(shell, text[1..], rest, word + [text[0]]);
      WordGrows(word, text);
      ReplacedNext(text, with, "'" + rest);
      hide Read, Replaced;
      if text[0] != '\'' {
        CharIsRead(shell, text[0], tail, word);
      } else if shell.PowerShell? {
        DoubledQuoteIsRead(tail, word);
      } else {
        EscapedQuoteIsRead(tail, word);
      }
    }
  }

  lemma ClosingQuoteIsRead(shell: Shell, rest: string, word: string)
    requires rest == "" || rest[0] != '\''
    ensures Read(shell, "'" + rest, true, word, true) == Read(shell, rest, false, word, true)
  {
    var s := "'" + rest;
    assert s[1..] == rest && (|s| >= 2 ==> s[1] == rest[0]);
  }

  lemma CharIsRead(shell: Shell, c: char, tail: string, word: string)
    requires c != '\''
    ensures Read(shell, [c] + tail, true, word, true) == Read(shell, tail, true, word + [c], true)
  {
    assert ([c] + tail)[1..] == tail;
  }

  lemma DoubledQuoteIsRead(tail: string, word: string)
    ensures Read(PowerShell, "''" + tail, true, word, true) == Read(PowerShell, tail, true, word + ['\''], true)
  {
    var s := "''" + tail;
    assert s[0] == '\'' && s[1] == '\'' && s[2..] == tail;
  }

  lemma EscapedQuoteIsRead(tail: string, word: string)
    ensures Read(Posix, "'\\''" + tail, true, word, true) == Read(Posix, tail, true, word + ['\''], true)
  {
    var s, t, u := "'\\''" + tail, "\\''" + tail, "'" + tail;
    assert s[0] == '\'' && s[1..] == t;
    assert t[0] == '\\' && t[1] == '\'' && t[2..] == u;
    assert u[0] == '\'' && u[1..] == tail;
    assert Read(Posix, s, true, word, true) == Read(Posix, t, false, word, true);
    assert Read(Posix, t, false, word, true) == Read(Posix, u, false, word + ['\''], true);
  }

  lemma {:induction false} PlainIsRead(shell: Shell, text: string, rest: string, word: string, started: bool)
    requires text != "" && forall i :: 0 <= i < |text| ==> Plain(shell, text[i])
    ensures Read(shell, text + rest, false, word, started) == Read(shell, rest, false, word + text, true)
    decreases |text|
  {
    var s := text + rest;
    assert s[1..] == text[1..] + rest && s[0] == text[0];
    if |text| == 1 {
      assert text[1..] + rest == rest && word + [text[0]] == word + text;
    } else {
      PlainIsRead(shell, text[1..], rest, word + [text[0]], true);
      assert word + [text[0]] + text[1..] == word + text;
    }
  }

  lemma PlainWordIsRead(shell: Shell, text: string, rest: string)
    requires text != "" && forall i :: 0 <= i < |text| ==> Plain(shell, text[i])
    ensures Words(shell, text + " " + rest) == Before([text], Words(shell, rest))
    ensures Words(shell, text) == Some([text])
  {
    assert text + " " + rest == text + (" " + rest) && "" + text == text && text + "" == text;
    PlainIsRead(shell, text, " " + rest, "", false);
    PlainIsRead(shell, text, "", "", false);
    assert (" " + rest)[1..] == rest;
  }

  function Quote(shell: Shell, text: string): string {
    if shell.Posix? then ShellQuote(text, false) else PowershellQuote(text)
  }

  lemma QuotedWordIsRead(shell: Shell, text: string, rest: string)
    ensures Words(shell, Quote(shell, text) + " " + rest) == Before([text], Words(shell, rest))
  {
    var inner := if shell.Posix? then Replaced(text, '\'', "'\\''") else Replaced(text, '\'', "''");
    QuotedIsRead(shell, text, " " + rest, "");
    assert "" + text == text && (" " + rest)[1..] == rest;
    assert Read(shell, " " + rest, false, text, true) == Before([text], Words(shell, rest));
    OpeningQuoteIsRead(shell, inner, rest);
    hide Read, Replaced;
  }

  lemma OpeningQuoteIsRead(shell: Shell, inner: string, rest: string)
    ensures Words(shell, "'" + inner + "'" + " " + rest) == Read(shell, inner + "'" + (" " + rest), true, "", true)
  {
    var s, tail := "'" + inner + "'" + " " + rest, inner + "'" + (" " + rest);
    assert s[0] == '\'' && s[1..] == tail;
    assert Read(shell, s, false, "", false) == Read(shell, s[1..], true, "", true);
    hide Read;
  }

  // ---------------------------------------------------------------------- the commands

  function Arguments(client: Client, setup: Setup): seq<string> {
    ["agent-hooks", "run", "--client", ClientId(client), "--config", setup.config, MANAGED_FLAG, MANAGED_ID]
  }

  /** What follows the server in both commands. */
  function Tail(shell: Shell, client: Client, setup: Setup): string {
    Marked("agent-hooks run --client " + ClientId(client) + " --config " + Quote(shell, setup.config))
  }

  lemma FixedWords()
    ensures "agent-hooks run --client " == "agent-hooks" + " " + ("run" + " " + ("--client" + " "))
    ensures " --config " == " " + ("--config" + " ")
  {}

  lemma TailIsGrouped(id: string, config: string, marks: string)
    ensures "agent-hooks run --client " + id + " --config " + config + " " + marks
         == "agent-hooks" + " " + ("run" + " " + ("--client" + " " + (id + " " + ("--config" + " " + (config + " " + marks)))))
  {
    FixedWords();
  }

  lemma TailIsRead(shell: Shell, client: Client, setup: Setup)
    ensures Words(shell, Tail(shell, client, setup)) == Some(Arguments(client, setup))
  {
    hide Words, Quote;
    var id, marks := ClientId(client), MANAGED_FLAG + " " + MANAGED_ID;
    var config := Quote(shell, setup.config) + " " + marks;
    var named := id + " " + ("--config" + " " + config);
    var command := "agent-hooks run --client " + id + " --config " + Quote(shell, setup.config);
    Grouped(command + " ", MANAGED_FLAG, " " + MANAGED_ID);
    assert Marked(command) == command + " " + marks;
    TailIsGrouped(id, Quote(shell, setup.config), marks);
    PlainWordIsRead(shell, "agent-hooks", "run" + " " + ("--client" + " " + named));
    PlainWordIsRead(shell, "run", "--client" + " " + named);
    PlainWordIsRead(shell, "--client", named);
    PlainWordIsRead(shell, id, "--config" + " " + config);
    PlainWordIsRead(shell, "--config", config);
    QuotedWordIsRead(shell, setup.config, marks);
    PlainWordIsRead(shell, MANAGED_FLAG, MANAGED_ID);
    PlainWordIsRead(shell, MANAGED_ID, "");
    var last := [setup.config] + ([MANAGED_FLAG] + [MANAGED_ID]);
    assert ["agent-hooks"] + (["run"] + (["--client"] + ([id] + (["--config"] + last)))) == Arguments(client, setup);
  }

  lemma CommandIsGrouped(server: string, id: string, config: string)
    ensures Marked(server + " agent-hooks run --client " + id + " --config " + config)
         == server + " " + Marked("agent-hooks run --client " + id + " --config " + config)
  {
    var tail := "agent-hooks run --client " + id + " --config " + config;
    assert " agent-hooks run --client " == " " + "agent-hooks run --client ";
    assert server + " agent-hooks run --client " + id + " --config " + config == server + " " + tail;
    MarkedIsGrouped(server + " ", tail);
  }

  lemma MarkedIsGrouped(a: string, b: string)
    ensures Marked(a + b) == a + Marked(b)
  {}

  /** A POSIX shell runs the server with exactly the arguments of the hook, whatever quotes,
      spaces or other characters the two paths hold. */
  lemma CommandIsRead(client: Client, setup: Setup)
    requires !setup.windows
    ensures Words(Posix, HookCommand(client, setup)) == Some([setup.server] + Arguments(client, setup))
  {
    hide Words, Read, Arguments;
    TailIsRead(Posix, client, setup);
    QuotedWordIsRead(Posix, setup.server, Tail(Posix, client, setup));
    CommandIsGrouped(Quote(Posix, setup.server), ClientId(client), Quote(Posix, setup.config));
    hide Marked, ShellQuote;
  }

  /** So does PowerShell, by the call operator. */
  lemma WindowsCommandIsRead(client: Client, setup: Setup)
    ensures Words(PowerShell, WindowsHookCommand(client, setup)) == Some(["&", setup.server] + Arguments(client, setup))
  {
    hide Words, Read, Arguments;
    TailIsRead(PowerShell, client, setup);
    var server := Quote(PowerShell, setup.server);
    var call := server + " " + Tail(PowerShell, client, setup);
    QuotedWordIsRead(PowerShell, setup.server, Tail(PowerShell, client, setup));
    PlainWordIsRead(PowerShell, "&", call);
    CommandIsGrouped("& " + server, ClientId(client), Quote(PowerShell, setup.config));
    CalledIsGrouped(server, Tail(PowerShell, client, setup));
    hide Marked, PowershellQuote;
    assert ["&"] + ([setup.server] + Arguments(client, setup)) == ["&", setup.server] + Arguments(client, setup);
  }

  lemma CalledIsGrouped(server: string, tail: string)
    ensures "& " + server + " " + tail == "&" + " " + (server + " " + tail)
  {
    assert "& " == "&" + " ";
  }

  /** The argument list that is stored without a shell says the same. */
  lemma ArgumentListIsSame(setup: Setup)
    ensures ClaudeArguments(setup).Arr? && |ClaudeArguments(setup).items| == |Arguments(Claude, setup)|
    ensures forall i :: 0 <= i < |Arguments(Claude, setup)| ==> ClaudeArguments(setup).items[i] == Str(Arguments(Claude, setup)[i])
  {}

  predicate EndsWith(text: string, end: string) { |end| <= |text| && text[|text| - |end|..] == end }

  /** Of the events that a client supports, exactly those around a tool use get a matcher,
      and it matches every tool. */
  lemma ToolEventsMatchAll(client: Client, name: string, setup: Setup)
    requires name in EventNames(client)
    ensures var g := Generated(client, name, setup);
            g.Obj? && (EndsWith(name, "ToolUse") <==> "matcher" in g.fields) && (EndsWith(name, "ToolUse") ==> g.fields["matcher"] == Str(".*"))
  {
    ToolEventsNeedMatcher(client, name);
    NoMatcherInHook(client, setup);
    hide ManagedHook, EndsWith, NeedsMatcher, EventNames;
    assert |"matcher"| == 7 && |"hooks"| == 5;
  }

  lemma ToolEventsNeedMatcher(client: Client, name: string)
    requires name in EventNames(client)
    ensures NeedsMatcher(name) <==> EndsWith(name, "ToolUse")
  {
    assert "PreToolUse"[3..] == "ToolUse" && "preToolUse"[3..] == "ToolUse" && "postToolUse"[4..] == "ToolUse";
  }

  lemma NoMatcherInHook(client: Client, setup: Setup)
    ensures ManagedHook(client, setup).Obj? && "matcher" !in ManagedHook(client, setup).fields
  {
    hide HookCommand, WindowsHookCommand, BashGuard, PowershellGuard, ClaudeArguments;
    assert |"matcher"| == 7 && |"type"| == 4 && |"bash"| == 4 && |"powershell"| == 10 && |"args"| == 4 && |"commandWindows"| == 14;
    assert "matcher"[0] != "timeout"[0] && "matcher"[0] != "command"[0];
  }
}
