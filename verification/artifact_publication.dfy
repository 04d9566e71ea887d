/** Publication into the content-addressed artifact store by any number of
    producers, interleaved step by step, each of which may fail or crash.

    The filesystem is names and identities: canonical keys and temporary names
    lead to directories, a directory has at most a payload leaf and a receipt
    leaf, a file has bytes. Creating and renaming never replace a name, and
    removing a name checks the identity behind it; each is one atomic step. */
module ArtifactPublication {
  import opened Basics

  type Key = Bytes
  type DirId = nat
  type FileId = nat
  type Producer = nat

  datatype Result = Written | Reused | Error

  datatype Phase =
    | Begun
    | TempMade
    | PayloadMade
    | Prepared
    | Ready
    | Published
    | Conflict
    | Retired(d: DirId)
    | Moved(d: DirId)
    | Comparing(d: DirId, existing: FileId)
    | Compared(d: DirId, existing: FileId)
    | UnlinkPayload(result: Result)
    | UnlinkReceipt(result: Result)
    | RemoveTemp(result: Result)
    | Done(result: Result)

  /** One call: its key, the bytes it wants stored, and what it has created. */
  datatype Call = Call(key: Key, candidate: Bytes, phase: Phase, dir: DirId, file: FileId, receipt: Option<FileId>)

  /** `creator` records which producer's call created a file. */
  datatype Fs = Fs(
    canonical: map<Key, DirId>,
    temps: map<Producer, DirId>,
    payload: map<DirId, FileId>,
    receipts: map<DirId, FileId>,
    bytes: map<FileId, Bytes>,
    dirs: set<DirId>,
    creator: map<FileId, Producer>)
  {
    /** The key's directory has the file as its payload. */
    predicate Holds(key: Key, file: FileId) {
      key in canonical && canonical[key] in payload && payload[canonical[key]] == file
    }

    /** The key's payload has these bytes. */
    predicate Stores(key: Key, content: Bytes) {
      && key in canonical && canonical[key] in payload
      && payload[canonical[key]] in bytes && bytes[payload[canonical[key]]] == content
    }
  }

  datatype Store = Store(fs: Fs, calls: map<Producer, Call>)

  datatype Step =
    | MakeTempStep(dir: DirId)
    | MakePayloadStep(file: FileId)
    | MakeReceiptStep(file: FileId)
    | WriteStep(ok: bool, partial: Bytes)
    | VerifyStep(ok: bool)
    | RenameStep(ok: bool)
    | ConfirmPublishedStep(ok: bool)
    | OpenExistingStep(ok: bool)
    | MoveFileStep(ok: bool)
    | ConfirmMovedStep(ok: bool)
    | CompareStep(equal: bool)
    | AttestStep(file: FileId)
    | ConfirmExistingStep(ok: bool)
    | UnlinkPayloadStep(ok: bool)
    | UnlinkReceiptStep(ok: bool)
    | RemoveTempStep(ok: bool)
    | AbortStep

  datatype Event = Begins(p: Producer, key: Key, candidate: Bytes) | Acts(p: Producer, step: Step)

  /** `verify_created_shape`: exactly the leaves this call created. */
  predicate CreatedShape(fs: Fs, c: Call) {
    && c.dir in fs.payload && fs.payload[c.dir] == c.file
    && (match c.receipt
        case None => c.dir !in fs.receipts
        case Some(r) => c.dir in fs.receipts && fs.receipts[c.dir] == r)
  }

  predicate StepEnabled(fs: Fs, p: Producer, c: Call, step: Step) {
    match step
    case MakeTempStep(dir) => c.phase.Begun? && dir !in fs.dirs && p !in fs.temps
    case MakePayloadStep(file) => c.phase.TempMade? && file !in fs.bytes && c.dir !in fs.payload
    case MakeReceiptStep(file) => c.phase.PayloadMade? && file !in fs.bytes && c.receipt.None? && c.dir !in fs.receipts
    case WriteStep(_, _) => c.phase.PayloadMade?
    case VerifyStep(ok) => c.phase.Prepared? && (ok ==> CreatedShape(fs, c))
    // No-replace: the rename succeeds only onto a free name.
    case RenameStep(ok) => c.phase.Ready? && (ok ==> c.key !in fs.canonical)
    case ConfirmPublishedStep(ok) =>
      c.phase.Published? && (ok ==> c.key in fs.canonical && fs.canonical[c.key] == c.dir && CreatedShape(fs, c))
    case OpenExistingStep(ok) => c.phase.Conflict? && (ok ==> c.key in fs.canonical)
    case MoveFileStep(ok) =>
      c.phase.Retired? && (ok ==> c.phase.d !in fs.payload && c.dir in fs.payload && fs.payload[c.dir] == c.file)
    case ConfirmMovedStep(ok) =>
      c.phase.Moved? && (ok ==> fs.Holds(c.key, c.file))
    // The byte comparison never says equal of different files.
    case CompareStep(equal) =>
      c.phase.Comparing? && (equal ==> && c.dir in fs.payload && fs.payload[c.dir] == c.file
                                       && c.file in fs.bytes && c.phase.existing in fs.bytes
                                       && fs.bytes[c.file] == fs.bytes[c.phase.existing])
    case AttestStep(file) => c.phase.Compared? && file !in fs.bytes && c.phase.d !in fs.receipts
    case ConfirmExistingStep(ok) =>
      c.phase.Compared? && (ok ==> c.key in fs.canonical && fs.canonical[c.key] == c.phase.d)
    case UnlinkPayloadStep(_) => c.phase.UnlinkPayload?
    case UnlinkReceiptStep(_) => c.phase.UnlinkReceipt?
    case RemoveTempStep(_) => c.phase.RemoveTemp?
    case AbortStep => !c.phase.Done?
  }

  /** Unlink by name within a directory, if the identity behind it matches. */
  function Unlinked(leaves: map<DirId, FileId>, dir: DirId, file: FileId): map<DirId, FileId> {
    if dir in leaves && leaves[dir] == file then leaves - {dir} else leaves
  }

  function CallAfter(fs: Fs, p: Producer, c: Call, step: Step): Call
    requires StepEnabled(fs, p, c, step)
  {
    match step
    case MakeTempStep(dir) => c.(phase := TempMade, dir := dir)
    case MakePayloadStep(file) => c.(phase := PayloadMade, file := file)
    case MakeReceiptStep(file) => c.(receipt := Some(file))
    case WriteStep(ok, _) => c.(phase := if ok then Prepared else UnlinkPayload(Error))
    case VerifyStep(ok) => c.(phase := if ok then Ready else UnlinkPayload(Error))
    case RenameStep(ok) => c.(phase := if ok then Published else Conflict)
    case ConfirmPublishedStep(ok) => c.(phase := Done(if ok then Written else Error))
    case OpenExistingStep(ok) =>
      if !ok then c.(phase := UnlinkPayload(Error))
      else
        var d := fs.canonical[c.key];
        c.(phase := if d in fs.payload then Comparing(d, fs.payload[d]) else Retired(d))
    case MoveFileStep(ok) => c.(phase := if ok then Moved(c.phase.d) else UnlinkPayload(Error))
    case ConfirmMovedStep(ok) => c.(phase := UnlinkPayload(if ok then Written else Error))
    case CompareStep(equal) =>
      c.(phase := if equal then Compared(c.phase.d, c.phase.existing) else UnlinkPayload(Error))
    case AttestStep(_) => c
    case ConfirmExistingStep(ok) => c.(phase := UnlinkPayload(if ok then Reused else Error))
    case UnlinkPayloadStep(_) => c.(phase := UnlinkReceipt(c.phase.result))
    case UnlinkReceiptStep(_) => c.(phase := RemoveTemp(c.phase.result))
    case RemoveTempStep(_) => c.(phase := Done(c.phase.result))
    case AbortStep => c.(phase := Done(Error))
  }

  function FsAfter(fs: Fs, p: Producer, c: Call, step: Step): Fs
    requires StepEnabled(fs, p, c, step)
  {
    match step
    case MakeTempStep(dir) => fs.(temps := fs.temps[p := dir], dirs := fs.dirs + {dir})
    case MakePayloadStep(file) =>
      fs.(payload := fs.payload[c.dir := file], bytes := fs.bytes[file := []], creator := fs.creator[file := p])
    case MakeReceiptStep(file) =>
      fs.(receipts := fs.receipts[c.dir := file], bytes := fs.bytes[file := []], creator := fs.creator[file := p])
    case WriteStep(ok, partial) => fs.(bytes := fs.bytes[c.file := if ok then c.candidate else partial])
    case RenameStep(ok) =>
      if ok then fs.(canonical := fs.canonical[c.key := c.dir], temps := fs.temps - {p}) else fs
    case MoveFileStep(ok) =>
      if ok then fs.(payload := (fs.payload - {c.dir})[c.phase.d := c.file]) else fs
    case AttestStep(file) =>
      fs.(receipts := fs.receipts[c.phase.d := file], bytes := fs.bytes[file := []], creator := fs.creator[file := p])
    case UnlinkPayloadStep(ok) => if ok then fs.(payload := Unlinked(fs.payload, c.dir, c.file)) else fs
    case UnlinkReceiptStep(ok) =>
      if ok && c.receipt.Some? then fs.(receipts := Unlinked(fs.receipts, c.dir, c.receipt.value)) else fs
    case RemoveTempStep(ok) =>
      if ok && p in fs.temps && c.dir !in fs.payload && c.dir !in fs.receipts then fs.(temps := fs.temps - {p}) else fs
    case _ => fs
  }

  predicate Enabled(s: Store, e: Event) {
    match e
    case Begins(p, _, _) => p !in s.calls
    case Acts(p, step) => p in s.calls && StepEnabled(s.fs, p, s.calls[p], step)
  }

  function Do(s: Store, e: Event): Store
    requires Enabled(s, e)
  {
    match e
    case Begins(p, key, candidate) => s.(calls := s.calls[p := Call(key, candidate, Begun, 0, 0, None)])
    case Acts(p, step) =>
      var c := s.calls[p];
      Store(FsAfter(s.fs, p, c, step), s.calls[p := CallAfter(s.fs, p, c, step)])
  }

  /** Any store may be there at the beginning, retired keys included. */
  predicate Init(s: Store) {
    s.calls == map[] && s.fs.creator == map[] && s.fs.temps == map[] && FsInv(s.fs)
  }

  ghost predicate Steps(s: Store, t: Store) {
    exists e: Event :: Enabled(s, e) && t == Do(s, e)
  }

  ghost predicate Run(run: seq<Store>) {
    && run != [] && Init(run[0])
    && forall i :: 0 <= i < |run| - 1 ==> Steps(run[i], run[i + 1])
  }

  // ------------------------------------------------------------------- invariant

  predicate FsInv(fs: Fs) {
    && (forall d :: d in fs.payload ==> d in fs.dirs && fs.payload[d] in fs.bytes)
    && (forall d, e :: d in fs.payload && e in fs.payload && fs.payload[d] == fs.payload[e] ==> d == e)
    && (forall k :: k in fs.canonical ==> fs.canonical[k] in fs.dirs)
    && (forall f :: f in fs.creator ==> f in fs.bytes)
  }

  /** The call has a directory of its own that no key leads to. */
  predicate OwnsTemp(c: Call) {
    !c.phase.Begun? && !c.phase.Published? && !c.phase.Done?
  }

  /** The call's payload has its final bytes. */
  predicate HasWritten(c: Call) {
    || c.phase.Prepared? || c.phase.Ready? || c.phase.Published? || c.phase.Conflict? || c.phase.Retired?
    || c.phase.Moved? || c.phase.Comparing? || c.phase.Compared?
  }

  predicate Promises(c: Call, r: Result) {
    (c.phase.UnlinkPayload? || c.phase.UnlinkReceipt? || c.phase.RemoveTemp? || c.phase.Done?) && c.phase.result == r
  }

  predicate TempInv(fs: Fs, c: Call) {
    OwnsTemp(c) ==> c.dir in fs.dirs && forall k :: k in fs.canonical ==> fs.canonical[k] != c.dir
  }

  /** The payload a call works with is one it created. */
  predicate OwnsPayload(fs: Fs, p: Producer, c: Call) {
    !c.phase.Begun? && !c.phase.TempMade? && !c.phase.Done? ==>
      c.file in fs.bytes && c.file in fs.creator && fs.creator[c.file] == p
  }

  /** So is the receipt beside it. */
  predicate OwnsReceipt(fs: Fs, p: Producer, c: Call) {
    c.receipt.Some? ==> c.receipt.value in fs.creator && fs.creator[c.receipt.value] == p
  }

  predicate FileInv(fs: Fs, p: Producer, c: Call) {
    OwnsPayload(fs, p, c) && OwnsReceipt(fs, p, c)
  }

  /** A payload is written only while no other name leads to it. */
  predicate Exclusive(fs: Fs, c: Call) {
    c.phase.PayloadMade? ==> forall d :: d in fs.payload && fs.payload[d] == c.file ==> d == c.dir
  }

  /** Once written it has the bytes the call wants stored. */
  predicate Final(fs: Fs, c: Call) {
    HasWritten(c) ==> c.file in fs.bytes && fs.bytes[c.file] == c.candidate
  }

  predicate ContentInv(fs: Fs, c: Call) {
    Exclusive(fs, c) && Final(fs, c)
  }

  /** What the call has found out about its key. */
  predicate FoundInv(fs: Fs, c: Call) {
    && (c.phase.Retired? || c.phase.Moved? ==> c.phase.d in fs.dirs && c.phase.d != c.dir)
    && (c.phase.Comparing? || c.phase.Compared? ==>
          fs.Holds(c.key, c.phase.existing) && fs.canonical[c.key] == c.phase.d)
    && (c.phase.Compared? ==> fs.Stores(c.key, c.candidate))
  }

  /** What the call's answer will mean. */
  predicate OutcomeInv(fs: Fs, p: Producer, c: Call) {
    && (Promises(c, Written) ==>
          && fs.Holds(c.key, c.file) && fs.Stores(c.key, c.candidate)
          && c.file in fs.creator && fs.creator[c.file] == p)
    && (Promises(c, Reused) ==> fs.Stores(c.key, c.candidate))
  }

  predicate CallInv(fs: Fs, p: Producer, c: Call) {
    TempInv(fs, c) && FileInv(fs, p, c) && ContentInv(fs, c) && FoundInv(fs, c) && OutcomeInv(fs, p, c)
  }

  predicate DistinctTemps(calls: map<Producer, Call>) {
    forall p, q :: p in calls && q in calls && p != q && OwnsTemp(calls[p]) && OwnsTemp(calls[q]) ==>
      calls[p].dir != calls[q].dir
  }

  predicate Inv(s: Store) {
    FsInv(s.fs) && DistinctTemps(s.calls) && forall p :: p in s.calls ==> CallInv(s.fs, p, s.calls[p])
  }

  // -------------------------------------------------------- what one step can mean

  /** What a key holds stays: the same directory, file and bytes. */
  ghost predicate Keeps(fs: Fs, after: Fs) {
    forall k, f :: fs.Holds(k, f) ==>
      after.Holds(k, f) && after.canonical[k] == fs.canonical[k]
      && (f in fs.bytes ==> f in after.bytes && after.bytes[f] == fs.bytes[f])
  }

  /** All that a step of `p` can mean to another call. */
  ghost predicate Framed(fs: Fs, after: Fs, p: Producer, c: Call) {
    && Keeps(fs, after)
    && fs.dirs <= after.dirs
    && (forall f :: f in fs.creator ==> f in after.creator && after.creator[f] == fs.creator[f])
    && (forall f :: f in fs.bytes ==>
          f in after.bytes && ((f in fs.creator && fs.creator[f] == p) || after.bytes[f] == fs.bytes[f]))
    && (forall k :: k in after.canonical ==>
          (k in fs.canonical && after.canonical[k] == fs.canonical[k]) || (OwnsTemp(c) && after.canonical[k] == c.dir))
    && (forall d :: d in after.payload ==>
          || (d in fs.payload && after.payload[d] == fs.payload[d])
          || (after.payload[d] in after.creator && after.creator[after.payload[d]] == p))
  }

  lemma StepKeepsHeld(fs: Fs, p: Producer, c: Call, step: Step)
    requires FsInv(fs) && CallInv(fs, p, c) && StepEnabled(fs, p, c, step)
    ensures Keeps(fs, FsAfter(fs, p, c, step))
  {}

  lemma StepIsFramed(fs: Fs, p: Producer, c: Call, step: Step)
    requires FsInv(fs) && CallInv(fs, p, c) && StepEnabled(fs, p, c, step)
    ensures Framed(fs, FsAfter(fs, p, c, step), p, c)
  {
    hide OutcomeInv, FoundInv;
    StepKeepsHeld(fs, p, c, step);
  }

  lemma StepKeepsFsInv(fs: Fs, p: Producer, c: Call, step: Step)
    requires FsInv(fs) && CallInv(fs, p, c) && StepEnabled(fs, p, c, step)
    ensures FsInv(FsAfter(fs, p, c, step))
  {
    hide OutcomeInv, CreatedShape, Fs.Holds, Fs.Stores;
  }

  lemma StepKeepsOwnTemp(fs: Fs, p: Producer, c: Call, step: Step)
    requires FsInv(fs) && CallInv(fs, p, c) && StepEnabled(fs, p, c, step)
    ensures TempInv(FsAfter(fs, p, c, step), CallAfter(fs, p, c, step))
  {
    hide OutcomeInv, FoundInv, FileInv, ContentInv, CreatedShape, Fs.Holds, Fs.Stores;
  }

  lemma StepKeepsOwnPayload(fs: Fs, p: Producer, c: Call, step: Step)
    requires FsInv(fs) && CallInv(fs, p, c) && StepEnabled(fs, p, c, step)
    ensures OwnsPayload(FsAfter(fs, p, c, step), p, CallAfter(fs, p, c, step))
  {
    hide OutcomeInv, FoundInv, TempInv, ContentInv, OwnsReceipt, FsInv, CreatedShape, Fs.Holds, Fs.Stores;
  }

  lemma StepKeepsOwnReceipt(fs: Fs, p: Producer, c: Call, step: Step)
    requires FsInv(fs) && CallInv(fs, p, c) && StepEnabled(fs, p, c, step)
    ensures OwnsReceipt(FsAfter(fs, p, c, step), p, CallAfter(fs, p, c, step))
  {
    hide OutcomeInv, FoundInv, TempInv, ContentInv, OwnsPayload, CreatedShape, Fs.Holds, Fs.Stores;
  }

  lemma StepKeepsExclusive(fs: Fs, p: Producer, c: Call, step: Step)
    requires FsInv(fs) && CallInv(fs, p, c) && StepEnabled(fs, p, c, step)
    ensures Exclusive(FsAfter(fs, p, c, step), CallAfter(fs, p, c, step))
  {
    hide OutcomeInv, FoundInv, TempInv, Final, CreatedShape, Fs.Holds, Fs.Stores;
  }

  lemma StepKeepsFinal(fs: Fs, p: Producer, c: Call, step: Step)
    requires FsInv(fs) && CallInv(fs, p, c) && StepEnabled(fs, p, c, step)
    ensures Final(FsAfter(fs, p, c, step), CallAfter(fs, p, c, step))
  {
    hide OutcomeInv, FoundInv, TempInv, Exclusive, FsInv, CreatedShape, Fs.Holds, Fs.Stores;
  }

  lemma StepKeepsOwnFindings(fs: Fs, p: Producer, c: Call, step: Step)
    requires FsInv(fs) && CallInv(fs, p, c) && StepEnabled(fs, p, c, step)
    ensures FoundInv(FsAfter(fs, p, c, step), CallAfter(fs, p, c, step))
  {
    hide OutcomeInv;
    StepKeepsHeld(fs, p, c, step);
  }

  lemma StepKeepsOwnOutcome(fs: Fs, p: Producer, c: Call, step: Step)
    requires FsInv(fs) && CallInv(fs, p, c) && StepEnabled(fs, p, c, step)
    ensures OutcomeInv(FsAfter(fs, p, c, step), p, CallAfter(fs, p, c, step))
  {
    hide TempInv;
    StepKeepsHeld(fs, p, c, step);
  }

  lemma StepKeepsOwnDirectory(fs: Fs, p: Producer, c: Call, step: Step)
    requires StepEnabled(fs, p, c, step) && OwnsTemp(CallAfter(fs, p, c, step))
    ensures var d := CallAfter(fs, p, c, step).dir;
            d !in fs.dirs || (OwnsTemp(c) && d == c.dir)
  {}

  lemma FrameKeepsOtherCall(fs: Fs, after: Fs, p: Producer, c: Call, q: Producer, other: Call)
    requires FsInv(fs) && Framed(fs, after, p, c) && CallInv(fs, q, other) && p != q
    requires OwnsTemp(c) && OwnsTemp(other) ==> c.dir != other.dir
    ensures CallInv(after, q, other)
  {
    assert TempInv(after, other);
    assert FileInv(after, q, other);
    assert ContentInv(after, other);
    assert FoundInv(after, other);
    assert OutcomeInv(after, q, other);
  }

  lemma StepKeepsInv(s: Store, p: Producer, step: Step)
    requires Inv(s) && Enabled(s, Acts(p, step))
    ensures Inv(Do(s, Acts(p, step)))
  {
    hide FsInv, TempInv, OwnsPayload, OwnsReceipt, Exclusive, Final, FoundInv, OutcomeInv, Framed, FsAfter, CallAfter, StepEnabled;
    var c := s.calls[p];
    assert CallInv(s.fs, p, c);
    StepIsFramed(s.fs, p, c, step);
    StepKeepsFsInv(s.fs, p, c, step);
    StepKeepsOwnTemp(s.fs, p, c, step);
    StepKeepsOwnPayload(s.fs, p, c, step);
    StepKeepsOwnReceipt(s.fs, p, c, step);
    StepKeepsExclusive(s.fs, p, c, step);
    StepKeepsFinal(s.fs, p, c, step);
    StepKeepsOwnFindings(s.fs, p, c, step);
    StepKeepsOwnOutcome(s.fs, p, c, step);
    var t := Do(s, Acts(p, step));
    forall q | q in t.calls ensures CallInv(t.fs, q, t.calls[q]) {
      if q != p { FrameKeepsOtherCall(s.fs, t.fs, p, c, q, s.calls[q]); }
    }
    StepKeepsDistinctTemps(s, p, step);
  }

  lemma StepKeepsDistinctTemps(s: Store, p: Producer, step: Step)
    requires Inv(s) && Enabled(s, Acts(p, step))
    ensures DistinctTemps(Do(s, Acts(p, step)).calls)
  {
    hide FsInv, FileInv, ContentInv, FoundInv, OutcomeInv, FsAfter, CallAfter, StepEnabled;
    var c := s.calls[p];
    var after := CallAfter(s.fs, p, c, step);
    if OwnsTemp(after) { StepKeepsOwnDirectory(s.fs, p, c, step); }
    forall q | q in s.calls ensures TempInv(s.fs, s.calls[q]) { assert CallInv(s.fs, q, s.calls[q]); }
  }

  lemma BeginKeepsInv(s: Store, p: Producer, key: Key, candidate: Bytes)
    requires Inv(s) && p !in s.calls
    ensures Inv(Do(s, Begins(p, key, candidate)))
  {}

  lemma {:induction false} RunKeepsInv(run: seq<Store>, i: nat)
    requires Run(run) && i < |run|
    ensures Inv(run[i])
  {
    hide Inv, FsInv, Do, Enabled;
    if i == 0 {
      InitIsInv(run[0]);
    } else {
      RunKeepsInv(run, i - 1);
      var e := StepTaken(run, i - 1);
      EventKeepsInv(run[i - 1], e);
    }
  }

  lemma InitIsInv(s: Store)
    requires Init(s)
    ensures Inv(s)
  {}

  lemma StepTaken(run: seq<Store>, i: nat) returns (e: Event)
    requires Run(run) && i + 1 < |run|
    ensures Enabled(run[i], e) && run[i + 1] == Do(run[i], e)
  {
    hide Do, Enabled;
    assert Steps(run[i], run[i + 1]);
    e :| Enabled(run[i], e) && run[i + 1] == Do(run[i], e);
  }

  lemma EventKeepsInv(s: Store, e: Event)
    requires Inv(s) && Enabled(s, e)
    ensures Inv(Do(s, e))
  {
    hide Inv, StepEnabled, Do;
    match e
    case Begins(p, key, candidate) => BeginKeepsInv(s, p, key, candidate);
    case Acts(p, step) => StepKeepsInv(s, p, step);
  }

  lemma EventKeepsHeld(s: Store, e: Event)
    requires Inv(s) && Enabled(s, e)
    ensures Keeps(s.fs, Do(s, e).fs)
  {
    hide FsInv, CallInv, StepEnabled, FsAfter, CallAfter;
    if e.Acts? {
      assert CallInv(s.fs, e.p, s.calls[e.p]);
      StepKeepsHeld(s.fs, e.p, s.calls[e.p], e.step);
    }
  }

  // ---------------------------------------------------------------- main results

  /** A payload once published under a key keeps its identity and its bytes
      through every later step of every producer. */
  lemma {:induction false} PublishedPayloadIsForever(run: seq<Store>, i: nat, k: nat, key: Key, file: FileId)
    requires Run(run) && i <= k < |run| && run[i].fs.Holds(key, file)
    ensures run[k].fs.Holds(key, file) && run[k].fs.canonical[key] == run[i].fs.canonical[key]
    ensures file in run[i].fs.bytes && file in run[k].fs.bytes && run[k].fs.bytes[file] == run[i].fs.bytes[file]
    decreases k
  {
    hide Do, Enabled, CallInv;
    RunKeepsInv(run, i);
    if i < k {
      PublishedPayloadIsForever(run, i, k - 1, key, file);
      RunKeepsInv(run, k - 1);
      var e := StepTaken(run, k - 1);
      EventKeepsHeld(run[k - 1], e);
    }
  }

  /** `Written`: the canonical payload is the file this call created, and it has
      the bytes the call wanted stored. */
  lemma WrittenIsOwnPayload(run: seq<Store>, i: nat, p: Producer)
    requires Run(run) && i < |run| && p in run[i].calls && run[i].calls[p].phase == Done(Written)
    ensures var c := run[i].calls[p];
            && run[i].fs.Holds(c.key, c.file) && run[i].fs.Stores(c.key, c.candidate)
            && c.file in run[i].fs.creator && run[i].fs.creator[c.file] == p
  {
    RunKeepsInv(run, i);
    assert CallInv(run[i].fs, p, run[i].calls[p]);
  }

  /** `Reused`: the canonical payload has the bytes this call wanted stored. */
  lemma ReusedIsEqualPayload(run: seq<Store>, i: nat, p: Producer)
    requires Run(run) && i < |run| && p in run[i].calls && run[i].calls[p].phase == Done(Reused)
    ensures run[i].fs.Stores(run[i].calls[p].key, run[i].calls[p].candidate)
  {
    RunKeepsInv(run, i);
    assert CallInv(run[i].fs, p, run[i].calls[p]);
  }

  predicate Linked(fs: Fs, f: FileId) {
    (exists d :: d in fs.payload && fs.payload[d] == f) || (exists d :: d in fs.receipts && fs.receipts[d] == f)
  }

  predicate Holding(files: map<DirId, FileId>, d: DirId, f: FileId) {
    d in files && files[d] == f
  }

  lemma UnlinkIsByCreator(fs: Fs, p: Producer, c: Call, step: Step, f: FileId)
    requires FsInv(fs) && CallInv(fs, p, c) && StepEnabled(fs, p, c, step)
    requires Linked(fs, f) && !Linked(FsAfter(fs, p, c, step), f)
    ensures f in fs.creator && fs.creator[f] == p && !c.phase.Done?
  {
    var after := FsAfter(fs, p, c, step);
    if d :| d in fs.payload && fs.payload[d] == f {
      assert !Holding(after.payload, d, f);
    } else {
      var e :| e in fs.receipts && fs.receipts[e] == f;
      assert !Holding(after.receipts, e, f);
    }
  }

  /** A file that loses its last name loses it to the call that created it, and
      it was not the payload of any key. */
  lemma OnlyCreatorsUnlink(run: seq<Store>, i: nat, f: FileId)
    requires Run(run) && i + 1 < |run| && Linked(run[i].fs, f) && !Linked(run[i + 1].fs, f)
    ensures var creator := run[i].fs.creator;
            f in creator && creator[f] in run[i].calls && !run[i].calls[creator[f]].phase.Done?
    ensures forall key :: !run[i].fs.Holds(key, f)
  {
    hide FsInv, FsAfter, CallAfter, StepEnabled, TempInv, FileInv, ContentInv, FoundInv, OutcomeInv;
    RunKeepsInv(run, i);
    var e := StepTaken(run, i);
    assert e.Acts?;
    assert CallInv(run[i].fs, e.p, run[i].calls[e.p]);
    UnlinkIsByCreator(run[i].fs, e.p, run[i].calls[e.p], e.step, f);
    EventKeepsHeld(run[i], e);
    forall key ensures !run[i].fs.Holds(key, f) {
      assert run[i].fs.Holds(key, f) ==> run[i + 1].fs.Holds(key, f);
    }
  }

  // ------------------------------------------------------------ what a failure answers

  /** The step reports a failure, other than of the rename and of the clean-up. */
  predicate Fails(step: Step) {
    match step
    case WriteStep(ok, _) => !ok
    case VerifyStep(ok) => !ok
    case ConfirmPublishedStep(ok) => !ok
    case OpenExistingStep(ok) => !ok
    case MoveFileStep(ok) => !ok
    case ConfirmMovedStep(ok) => !ok
    case CompareStep(equal) => !equal
    case ConfirmExistingStep(ok) => !ok
    case AbortStep => true
    case _ => false
  }

  lemma FailureAnswersError(fs: Fs, p: Producer, c: Call, step: Step)
    requires StepEnabled(fs, p, c, step)
    ensures Fails(step) ==> Promises(CallAfter(fs, p, c, step), Error)
    ensures Promises(c, Error) ==> Promises(CallAfter(fs, p, c, step), Error)
    ensures Promises(CallAfter(fs, p, c, step), Written) && !Promises(c, Written) ==>
              step == ConfirmPublishedStep(true) || step == ConfirmMovedStep(true)
    ensures Promises(CallAfter(fs, p, c, step), Reused) && !Promises(c, Reused) ==> step == ConfirmExistingStep(true)
  {}

  /** A call one of whose checks or writes failed answers `Error` and nothing else, at
      whatever later point of the run. */
  lemma {:induction false} FailedCallAnswersError(run: seq<Store>, i: nat, k: nat, p: Producer, step: Step)
    requires Run(run) && i < k < |run| && Enabled(run[i], Acts(p, step)) && run[i + 1] == Do(run[i], Acts(p, step)) && Fails(step)
    ensures p in run[k].calls && Promises(run[k].calls[p], Error)
    decreases k
  {
    hide FsAfter, CallAfter, StepEnabled, Promises;
    if k == i + 1 {
      FailureAnswersError(run[i].fs, p, run[i].calls[p], step);
    } else {
      FailedCallAnswersError(run, i, k - 1, p, step);
      var e := StepTaken(run, k - 1);
      if e.Acts? && e.p == p { FailureAnswersError(run[k - 1].fs, p, run[k - 1].calls[p], e.step); }
    }
  }
}
