/** The record, in the setup file, of the clients whose hooks are installed. */
module HookOwnership {
  import opened Basics
  import opened TextOrder
  import opened AgentHooks

  /** The strings of a list, in order. */
  function Texts(list: seq<Value>): seq<string> {
    if list == [] then []
    else (if list[0].Str? then [list[0].text] else []) + Texts(list[1..])
  }

  function InstalledIn(record: Value): seq<string> {
    if HasField(record, "installed_clients") && record.fields["installed_clients"].Arr?
    then Texts(record.fields["installed_clients"].items) else []
  }

  function AsValue(names: seq<string>): Value {
    Arr(seq(|names|, i requires 0 <= i < |names| => Str(names[i])))
  }

  function Without(names: seq<string>, ids: seq<string>): seq<string> {
    if names == [] then [] else (if names[0] in ids then [] else [names[0]]) + Without(names[1..], ids)
  }

  function InstalledAfter(existing: seq<string>, ids: seq<string>, install: bool): seq<string> {
    SortedDistinct(if install then existing + ids else Without(existing, ids))
  }

  function RecordOf(payload: Value): Value {
    if HasField(payload, "agent_hooks") then payload.fields["agent_hooks"] else Obj(map[])
  }

  function NewRecord(record: Value, ids: seq<string>, install: bool): Value
    requires record.Obj?
  {
    Obj(record.fields["format_version" := Num(1)]["policy" := Str("advisory")]
        ["installed_clients" := AsValue(InstalledAfter(InstalledIn(record), ids, install))])
  }

  /** The setup file after the update, if its shape allows one. */
  function Owned(payload: Value, ids: seq<string>, install: bool): Option<Value> {
    if !payload.Obj? || !RecordOf(payload).Obj? then None
    else Some(Obj(payload.fields["agent_hooks" := NewRecord(RecordOf(payload), ids, install)]))
  }

  // ------------------------------------------------------------------ the loop

  lemma {:induction false} WithoutIs(names: seq<string>, ids: seq<string>)
    ensures forall x :: x in Without(names, ids) <==> x in names && x !in ids
    decreases |names|
  {
    if names != [] {
      assert names == [names[0]] + names[1..];
      WithoutIs(names[1..], ids);
    }
  }

  /** The new list is increasing, and holds the old names with the given ones added,
      or with the given ones taken out. */
  lemma InstalledAfterIs(existing: seq<string>, ids: seq<string>, install: bool)
    ensures Increasing(InstalledAfter(existing, ids, install))
    ensures forall x :: x in InstalledAfter(existing, ids, install) <==>
      if install then x in existing || x in ids else x in existing && x !in ids
  {
    hide SortedDistinct;
    SortedDistinctIs(if install then existing + ids else Without(existing, ids));
    WithoutIs(existing, ids);
  }

  /** Client by client: push an absent id, or retain all but it; then sort and dedup. */
  method UpdateInstalled(existing: seq<string>, ids: seq<string>, install: bool) returns (installed: seq<string>)
    ensures installed == InstalledAfter(existing, ids, install)
  {
    hide SortedDistinct, Without, Increasing;
    installed := existing;
    for i := 0 to |ids|
      invariant forall x :: x in installed <==> if install then x in existing || x in ids[..i] else x in existing && x !in ids[..i]
    {
      assert ids[..i + 1] == ids[..i] + [ids[i]];
      if install {
        if ids[i] !in installed { installed := installed + [ids[i]]; }
      } else {
        WithoutIs(installed, [ids[i]]);
        installed := Without(installed, [ids[i]]);
      }
    }
    assert ids[..|ids|] == ids;
    SortedDistinctIs(installed);
    InstalledAfterIs(existing, ids, install);
    IncreasingIsUnique(SortedDistinct(installed), InstalledAfter(existing, ids, install));
    installed := SortedDistinct(installed);
  }

  // --------------------------------------------------------------- what is recorded

  lemma {:induction false} TextsOfValue(names: seq<string>)
    ensures Texts(AsValue(names).items) == names
    decreases |names|
  {
    if names != [] {
      assert AsValue(names).items[1..] == AsValue(names[1..]).items;
      TextsOfValue(names[1..]);
    }
  }

  /** The recorded clients are the strings of the list, and nothing else in it. */
  lemma {:induction false} TextsAreStrings(list: seq<Value>)
    ensures forall x :: x in Texts(list) <==> Str(x) in list
    decreases |list|
  {
    if list != [] {
      assert list == [list[0]] + list[1..];
      TextsAreStrings(list[1..]);
    }
  }

  lemma NewRecordLists(record: Value, ids: seq<string>, install: bool)
    requires record.Obj?
    ensures InstalledIn(NewRecord(record, ids, install)) == InstalledAfter(InstalledIn(record), ids, install)
  {
    hide InstalledAfter, Texts;
    TextsOfValue(InstalledAfter(InstalledIn(record), ids, install));
  }

  /** The update records exactly the intended clients and keeps every other field of the
      setup file. */
  lemma OwnedRecords(payload: Value, ids: seq<string>, install: bool)
    requires Owned(payload, ids, install).Some?
    ensures var after := Owned(payload, ids, install).value;
            && after.Obj? && RecordOf(after).Obj?
            && InstalledIn(RecordOf(after)) == InstalledAfter(InstalledIn(RecordOf(payload)), ids, install)
            && forall key :: key != "agent_hooks" ==>
                 (key in after.fields <==> key in payload.fields) && (key in payload.fields ==> after.fields[key] == payload.fields[key])
  {
    hide InstalledAfter, NewRecord, InstalledIn;
    NewRecordLists(RecordOf(payload), ids, install);
    NewRecordIsObject(RecordOf(payload), ids, install);
  }

  lemma NewRecordIsObject(record: Value, ids: seq<string>, install: bool)
    requires record.Obj?
    ensures NewRecord(record, ids, install).Obj?
  {}

  lemma NewRecordTwice(record: Value, ids: seq<string>, install: bool)
    requires record.Obj?
    ensures NewRecord(NewRecord(record, ids, install), ids, install) == NewRecord(record, ids, install)
  {
    hide InstalledAfter, InstalledIn, AsValue;
    var once := NewRecord(record, ids, install);
    NewRecordLists(record, ids, install);
    var existing := InstalledIn(record);
    var list := InstalledAfter(existing, ids, install);
    InstalledAfterIs(existing, ids, install);
    InstalledAfterIs(list, ids, install);
    IncreasingIsUnique(InstalledAfter(list, ids, install), list);
    OverwriteRecord(record.fields, AsValue(list));
  }

  lemma OverwriteRecord(fields: map<string, Value>, list: Value)
    ensures var once := fields["format_version" := Num(1)]["policy" := Str("advisory")]["installed_clients" := list];
            once["format_version" := Num(1)]["policy" := Str("advisory")]["installed_clients" := list] == once
  {}

  /** Recording the same clients again changes nothing. */
  lemma OwnedTwice(payload: Value, ids: seq<string>, install: bool)
    requires Owned(payload, ids, install).Some?
    ensures var after := Owned(payload, ids, install).value;
            Owned(after, ids, install) == Some(after)
  {
    hide NewRecord;
    var record := NewRecord(RecordOf(payload), ids, install);
    assert payload.fields["agent_hooks" := record]["agent_hooks" := record] == payload.fields["agent_hooks" := record];
    NewRecordTwice(RecordOf(payload), ids, install);
    NewRecordIsObject(RecordOf(payload), ids, install);
  }
}
