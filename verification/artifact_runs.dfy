/** Runs of the artifact store that reach each of its answers. */
module ArtifactRuns {
  import opened Basics
  import opened ArtifactPublication

  function Last(run: seq<Store>): Store
    requires run != []
  {
    run[|run| - 1]
  }

  lemma Extend(run: seq<Store>, e: Event) returns (longer: seq<Store>)
    requires Run(run) && run != [] && Enabled(Last(run), e)
    ensures Run(longer) && longer != [] && Last(longer) == Do(Last(run), e)
  {
    hide Enabled, Do, Init;
    longer := run + [Do(Last(run), e)];
    forall i | 0 <= i < |longer| - 1 ensures Steps(longer[i], longer[i + 1]) {
      if i < |run| - 1 {
        assert Steps(run[i], run[i + 1]);
      } else {
        assert longer[i] == Last(run) && longer[i + 1] == Do(Last(run), e);
      }
    }
  }

  /** Nothing of the given names is in the store yet. */
  predicate Unused(s: Store, p: Producer, dir: DirId, file: FileId) {
    && p !in s.calls && p !in s.fs.temps
    && dir !in s.fs.dirs && dir !in s.fs.payload && dir !in s.fs.receipts && file !in s.fs.bytes
  }

  function WithTemp(fs: Fs, p: Producer, dir: DirId, file: FileId, content: Bytes): Fs {
    fs.(temps := fs.temps[p := dir], dirs := fs.dirs + {dir}, payload := fs.payload[dir := file],
        bytes := fs.bytes[file := content], creator := fs.creator[file := p])
  }

  lemma Creates(run: seq<Store>, p: Producer, key: Key, content: Bytes, dir: DirId, file: FileId) returns (longer: seq<Store>)
    requires Run(run) && run != [] && Unused(Last(run), p, dir, file)
    ensures Run(longer) && longer != []
    ensures Last(longer) == Store(WithTemp(Last(run).fs, p, dir, file, []),
                                  Last(run).calls[p := Call(key, content, PayloadMade, dir, file, None)])
  {
    hide Run;
    longer := Extend(run, Begins(p, key, content));
    longer := Extend(longer, Acts(p, MakeTempStep(dir)));
    longer := Extend(longer, Acts(p, MakePayloadStep(file)));
    assert Last(longer).calls == Last(run).calls[p := Call(key, content, PayloadMade, dir, file, None)];
  }

  lemma Prepares(run: seq<Store>, p: Producer, key: Key, content: Bytes, dir: DirId, file: FileId) returns (longer: seq<Store>)
    requires Run(run) && run != [] && Unused(Last(run), p, dir, file)
    ensures Run(longer) && longer != []
    ensures Last(longer) == Store(WithTemp(Last(run).fs, p, dir, file, content),
                                  Last(run).calls[p := Call(key, content, Ready, dir, file, None)])
  {
    hide Run;
    longer := Creates(run, p, key, content, dir, file);
    longer := Extend(longer, Acts(p, WriteStep(true, [])));
    longer := Extend(longer, Acts(p, VerifyStep(true)));
    assert Last(longer).calls == Last(run).calls[p := Call(key, content, Ready, dir, file, None)];
    assert Last(longer).fs.bytes == Last(run).fs.bytes[file := content];
  }

  /** A call that finds its key free answers `Written`. */
  lemma FreeKeyIsWritten(run: seq<Store>, p: Producer, key: Key, content: Bytes, dir: DirId, file: FileId) returns (longer: seq<Store>)
    requires Run(run) && run != [] && Unused(Last(run), p, dir, file) && key !in Last(run).fs.canonical
    ensures Run(longer) && longer != [] && p in Last(longer).calls && Last(longer).calls[p].phase == Done(Written)
    ensures Last(longer).calls.Keys == Last(run).calls.Keys + {p} && p !in Last(longer).fs.temps
    ensures var fs := Last(run).fs;
            Last(longer).fs == WithTemp(fs, p, dir, file, content).(canonical := fs.canonical[key := dir], temps := fs.temps)
  {
    hide Run;
    longer := Prepares(run, p, key, content, dir, file);
    longer := Extend(longer, Acts(p, RenameStep(true)));
    longer := Extend(longer, Acts(p, ConfirmPublishedStep(true)));
    assert Last(run).fs.temps[p := dir] - {p} == Last(run).fs.temps;
  }

  lemma FindsExisting(run: seq<Store>, p: Producer, key: Key, content: Bytes, dir: DirId, file: FileId) returns (longer: seq<Store>)
    requires Run(run) && run != [] && Unused(Last(run), p, dir, file) && key in Last(run).fs.canonical && Last(run).fs.canonical[key] != dir
    ensures Run(longer) && longer != [] && Last(longer).fs == WithTemp(Last(run).fs, p, dir, file, content)
    ensures var fs, d := Last(run).fs, Last(run).fs.canonical[key];
            Last(longer).calls == Last(run).calls[p := Call(key, content, if d in fs.payload then Comparing(d, fs.payload[d]) else Retired(d), dir, file, None)]
  {
    hide Run;
    longer := Prepares(run, p, key, content, dir, file);
    longer := Extend(longer, Acts(p, RenameStep(false)));
    longer := Extend(longer, Acts(p, OpenExistingStep(true)));
    var fs, d := Last(run).fs, Last(run).fs.canonical[key];
    assert Last(longer).calls == Last(run).calls[p := Call(key, content, if d in fs.payload then Comparing(d, fs.payload[d]) else Retired(d), dir, file, None)];
  }

  /** The clean-up of a call that has its answer: of what it made for itself nothing is
      left, and nothing else is touched. */
  lemma CleansUp(run: seq<Store>, p: Producer, r: Result) returns (longer: seq<Store>)
    requires Run(run) && run != [] && p in Last(run).calls && Last(run).calls[p].phase == UnlinkPayload(r)
    requires var fs, c := Last(run).fs, Last(run).calls[p];
             && c.receipt.None? && c.dir !in fs.receipts && (c.dir in fs.payload ==> fs.payload[c.dir] == c.file)
    ensures Run(longer) && longer != [] && p in Last(longer).calls && Last(longer).calls[p].phase == Done(r)
    ensures var fs, c := Last(run).fs, Last(run).calls[p];
            Last(longer).fs == fs.(payload := fs.payload - {c.dir}, temps := fs.temps - {p})
  {
    hide Run;
    longer := Extend(run, Acts(p, UnlinkPayloadStep(true)));
    longer := Extend(longer, Acts(p, UnlinkReceiptStep(true)));
    longer := Extend(longer, Acts(p, RemoveTempStep(true)));
  }

  lemma Returned<K, V>(m: map<K, V>, k: K, v: V)
    requires k !in m
    ensures m[k := v] - {k} == m
  {}

  /** A call that finds its bytes under its key answers `Reused`, and leaves the names of the
      store as they were. */
  lemma EqualPayloadIsReused(run: seq<Store>, p: Producer, key: Key, content: Bytes, dir: DirId, file: FileId) returns (longer: seq<Store>)
    requires Run(run) && run != [] && Unused(Last(run), p, dir, file) && Last(run).fs.Stores(key, content)
    requires Last(run).fs.canonical[key] != dir && Last(run).fs.payload[Last(run).fs.canonical[key]] != file
    ensures Run(longer) && longer != [] && p in Last(longer).calls && Last(longer).calls[p].phase == Done(Reused)
    ensures var fs, t := Last(run).fs, Last(longer).fs;
            t.canonical == fs.canonical && t.payload == fs.payload && t.temps == fs.temps
  {
    hide Run;
    longer := FindsExisting(run, p, key, content, dir, file);
    longer := Confirms(longer, p);
    longer := CleansUp(longer, p, Reused);
    Returned(Last(run).fs.payload, dir, file);
    Returned(Last(run).fs.temps, p, dir);
  }

  lemma Confirms(run: seq<Store>, p: Producer) returns (longer: seq<Store>)
    requires Run(run) && run != [] && p in Last(run).calls && Last(run).calls[p].phase.Comparing?
    requires var fs, c := Last(run).fs, Last(run).calls[p];
             && c.dir in fs.payload && fs.payload[c.dir] == c.file && fs.Stores(c.key, c.candidate)
             && c.file in fs.bytes && fs.bytes[c.file] == c.candidate
             && c.phase == Comparing(fs.canonical[c.key], fs.payload[fs.canonical[c.key]])
    ensures Run(longer) && longer != [] && Last(longer).fs == Last(run).fs
    ensures Last(longer).calls == Last(run).calls[p := Last(run).calls[p].(phase := UnlinkPayload(Reused))]
  {
    hide Run;
    longer := Extend(run, Acts(p, CompareStep(true)));
    longer := Extend(longer, Acts(p, ConfirmExistingStep(true)));
    assert Last(longer).calls == Last(run).calls[p := Last(run).calls[p].(phase := UnlinkPayload(Reused))];
  }

  /** A call that has compared its bytes may leave a receipt beside the existing payload, and
      goes on to answer `Reused`. */
  lemma AttestsThenConfirms(run: seq<Store>, p: Producer, file: FileId) returns (longer: seq<Store>)
    requires Run(run) && run != [] && p in Last(run).calls && Last(run).calls[p].phase.Compared?
    requires var fs, c := Last(run).fs, Last(run).calls[p];
             file !in fs.bytes && c.phase.d !in fs.receipts && c.key in fs.canonical && fs.canonical[c.key] == c.phase.d
    ensures Run(longer) && longer != [] && p in Last(longer).calls && Last(longer).calls[p].phase == UnlinkPayload(Reused)
    ensures var fs, d := Last(run).fs, Last(run).calls[p].phase.d;
            Last(longer).fs == fs.(receipts := fs.receipts[d := file], bytes := fs.bytes[file := []], creator := fs.creator[file := p])
  {
    hide Run;
    longer := Extend(run, Acts(p, AttestStep(file)));
    longer := Extend(longer, Acts(p, ConfirmExistingStep(true)));
  }

  /** A call that finds its key retired moves its payload there, answers `Written` and
      leaves no other name. */
  lemma RetiredKeyIsWritten(run: seq<Store>, p: Producer, key: Key, content: Bytes, dir: DirId, file: FileId)
    returns (found: seq<Store>, longer: seq<Store>)
    requires Run(run) && run != [] && Unused(Last(run), p, dir, file)
    requires key in Last(run).fs.canonical && Last(run).fs.canonical[key] != dir && Last(run).fs.canonical[key] !in Last(run).fs.payload
    ensures Run(found) && found != [] && p in Last(found).calls && Last(found).calls[p].phase == Retired(Last(run).fs.canonical[key])
    ensures Run(longer) && longer != [] && p in Last(longer).calls && Last(longer).calls[p].phase == Done(Written)
    ensures var fs, t := Last(run).fs, Last(longer).fs;
            t.canonical == fs.canonical && t.payload == fs.payload[fs.canonical[key] := file] && t.temps == fs.temps
            && t.Stores(key, content)
  {
    hide Run;
    found := FindsExisting(run, p, key, content, dir, file);
    longer := Republishes(found, p);
    longer := CleansUp(longer, p, Written);
    var fs := Last(run).fs;
    Returned(fs.payload, dir, file);
    Returned(fs.temps, p, dir);
    assert fs.payload[fs.canonical[key] := file] - {dir} == fs.payload[fs.canonical[key] := file];
  }

  lemma Republishes(run: seq<Store>, p: Producer) returns (longer: seq<Store>)
    requires Run(run) && run != [] && p in Last(run).calls && Last(run).calls[p].phase.Retired?
    requires var fs, c := Last(run).fs, Last(run).calls[p];
             && c.dir in fs.payload && fs.payload[c.dir] == c.file && c.key in fs.canonical && fs.canonical[c.key] == c.phase.d
             && c.phase.d !in fs.payload
    ensures Run(longer) && longer != []
    ensures var fs, c := Last(run).fs, Last(run).calls[p];
            && Last(longer).fs == fs.(payload := (fs.payload - {c.dir})[c.phase.d := c.file])
            && Last(longer).calls == Last(run).calls[p := c.(phase := UnlinkPayload(Written))]
  {
    hide Run;
    longer := Extend(run, Acts(p, MoveFileStep(true)));
    longer := Extend(longer, Acts(p, ConfirmMovedStep(true)));
    assert Last(longer).calls == Last(run).calls[p := Last(run).calls[p].(phase := UnlinkPayload(Written))];
  }

  const EMPTY_FS := Fs(map[], map[], map[], map[], map[], {}, map[])

  /** From an empty store, one producer's call is written and another's reused. */
  lemma WrittenThenReused(key: Key, content: Bytes) returns (written: seq<Store>, reused: seq<Store>)
    ensures Run(written) && written != [] && 1 in Last(written).calls && Last(written).calls[1].phase == Done(Written)
    ensures Run(reused) && reused != [] && 2 in Last(reused).calls && Last(reused).calls[2].phase == Done(Reused)
  {
    hide Do, Enabled;
    written := FreeKeyIsWritten([Store(EMPTY_FS, map[])], 1, key, content, 1, 1);
    reused := EqualPayloadIsReused(written, 2, key, content, 2, 2);
  }

  /** From a store with a retired key, a call finds it so and republishes it. */
  lemma RetiredThenWritten(key: Key, content: Bytes) returns (found: seq<Store>, written: seq<Store>)
    ensures Run(found) && found != [] && 1 in Last(found).calls && Last(found).calls[1].phase == Retired(0)
    ensures Run(written) && written != [] && 1 in Last(written).calls && Last(written).calls[1].phase == Done(Written)
  {
    hide Do, Enabled;
    var fs := EMPTY_FS.(canonical := map[key := 0], dirs := {0});
    found, written := RetiredKeyIsWritten([Store(fs, map[])], 1, key, content, 1, 1);
  }
}
