/** The files of the artifact store: the byte comparison behind `Reused`, the
    shape check behind `Written`, and loading what was stored. */
module ArtifactFiles {
  import opened Basics
  import opened ByteSource
  import Hex
  import P = ArtifactPublication

  // ------------------------------------------------------------- byte comparison

  /** `Changed`: a file was altered or aliased while it was being compared. */
  datatype Comparison = Same | Different | Changed

  const BUFFER_BYTES: nat := 8192

  /** Buffer by buffer, the reads deliver the same bytes in the same portions. */
  predicate LooksSame(left: Bytes, right: Bytes, f: nat -> nat, g: nat -> nat, i: nat, j: nat)
    decreases |left|
  {
    var m, n := Delivered(f(i), BUFFER_BYTES, |left|), Delivered(g(j), BUFFER_BYTES, |right|);
    left[..m] == right[..n] && (m == 0 || LooksSame(left[m..], right[n..], f, g, i + 1, j + 1))
  }

  /** Two schedules deliver files of this length in the same portions. */
  predicate SamePortions(f: nat -> nat, g: nat -> nat, i: nat, j: nat, length: nat)
    decreases length
  {
    length == 0
    || (var n := Delivered(f(i), BUFFER_BYTES, length);
        n == Delivered(g(j), BUFFER_BYTES, length) && SamePortions(f, g, i + 1, j + 1, length - n))
  }

  /** Compares two files buffer by buffer. `rechecked` is whether the stamps taken
      before the reads still fit after them. */
  method SameFileBytes(existing: Source, candidate: Source, rechecked: bool) returns (r: Comparison)
    requires existing != candidate
    modifies existing, candidate
    ensures var left, right := old(existing.remaining), old(candidate.remaining);
            && (r.Different? <==>
                  (|left| != |right|
                   || !LooksSame(left, right, existing.schedule, candidate.schedule, old(existing.turn), old(candidate.turn))))
            && (r.Same? ==> rechecked && left == right)
            && (r.Changed? ==> !rechecked && left == right)
            && (SamePortions(existing.schedule, candidate.schedule, old(existing.turn), old(candidate.turn), |left|) ==>
                  (r.Different? <==> left != right))
  {
    ghost var left, right := existing.remaining, candidate.remaining;
    if |existing.remaining| != |candidate.remaining| { return Different; }
    LooksSameExactly(left, right, existing.schedule, candidate.schedule, existing.turn, candidate.turn);
    hide SamePortions;
    while true
      invariant LooksSame(left, right, existing.schedule, candidate.schedule, old(existing.turn), old(candidate.turn))
            <==> LooksSame(existing.remaining, candidate.remaining, existing.schedule, candidate.schedule, existing.turn, candidate.turn)
      decreases |existing.remaining|
    {
      ghost var restLeft, restRight := existing.remaining, candidate.remaining;
      var a := existing.Read(BUFFER_BYTES);
      var b := candidate.Read(BUFFER_BYTES);
      assert restLeft[..|a|] == a && restRight[..|b|] == b;
      assert restLeft[|a|..] == existing.remaining && restRight[|b|..] == candidate.remaining;
      if a != b { return Different; }
      if a == [] { break; }
    }
    return if rechecked then Same else Changed;
  }

  /** Files of one length look the same exactly when they are equal and are delivered in
      the same portions: equality is never reported of different bytes, and equal files
      look different exactly when one read falls short of its counterpart. */
  lemma {:induction false} LooksSameExactly(left: Bytes, right: Bytes, f: nat -> nat, g: nat -> nat, i: nat, j: nat)
    requires |left| == |right|
    ensures LooksSame(left, right, f, g, i, j) <==> left == right && SamePortions(f, g, i, j, |left|)
    decreases |left|
  {
    var m, n := Delivered(f(i), BUFFER_BYTES, |left|), Delivered(g(j), BUFFER_BYTES, |right|);
    assert left == left[..m] + left[m..] && right == right[..n] + right[n..];
    assert |left[..m]| == m && |right[..n]| == n;
    if m == n && m > 0 { LooksSameExactly(left[m..], right[n..], f, g, i + 1, j + 1); }
  }

  /** Any file of two bytes or more can look different from itself. */
  lemma ShortReadLooksDifferent(content: Bytes)
    requires |content| >= 2
    ensures !LooksSame(content, content, _ => 1, _ => 2, 0, 0)
  {
    LooksSameExactly(content, content, _ => 1, _ => 2, 0, 0);
  }

  // ------------------------------------------------------------------ shape check

  datatype Leaf = Payload | Receipt | OtherName(n: nat)

  /** Walks the entries of a directory: each must be a leaf the call created. */
  method VerifyCreatedShape(names: seq<Leaf>, entries: map<Leaf, nat>, payload: nat, receipt: Option<nat>)
    returns (ok: bool)
    requires forall n :: n in names <==> n in entries
    ensures ok <==> entries == if receipt.Some? then map[Payload := payload, Receipt := receipt.value] else map[Payload := payload]
  {
    var foundPayload, foundReceipt := false, false;
    for i := 0 to |names|
      invariant foundPayload <==> Payload in names[..i]
      invariant foundReceipt <==> Receipt in names[..i]
      invariant forall k :: 0 <= k < i ==>
        || (names[k] == Payload && entries[Payload] == payload)
        || (names[k] == Receipt && receipt.Some? && entries[Receipt] == receipt.value)
    {
      var name := names[i];
      assert name in entries;
      match name
      case Payload =>
        foundPayload := true;
        if entries[name] != payload { return false; }
      case Receipt =>
        foundReceipt := true;
        if receipt.None? || entries[name] != receipt.value { return false; }
      case OtherName(_) => return false;
    }
    assert names[..|names|] == names;
    return foundPayload && foundReceipt == receipt.Some?;
  }

  // --------------------------------------------------------------- store and load

  const ARTIFACT_FORMAT_VERSION: nat := 2

  /** A partition with the identity fields a load checks. */
  datatype Partition = Partition(path: Bytes, contentHash: Bytes, language: Bytes, artifactKey: Option<Bytes>, rows: nat)

  datatype Envelope = Envelope(version: nat, key: Bytes, digest: Bytes, partition: Partition)

  datatype Expectations = Expectations(path: Bytes, contentHash: Bytes, language: Bytes)

  /** The encoding, the digest and the row validation are outside the model. */
  datatype Codec = Codec(
    encode: Envelope -> Bytes,
    decode: Bytes -> Option<Envelope>,
    digest: Partition -> Bytes,
    rowsValid: Partition -> bool)

  /** The encoding reloads; it does not for a confidence that is not a number. */
  ghost predicate Reloads(codec: Codec, e: Envelope) {
    codec.decode(codec.encode(e)) == Some(e)
  }

  predicate StoreAccepts(codec: Codec, key: Bytes, p: Partition) {
    Hex.ValidKey(key) && codec.rowsValid(p) && p.artifactKey == Some(key)
  }

  function EnvelopeOf(codec: Codec, key: Bytes, p: Partition): Envelope {
    Envelope(ARTIFACT_FORMAT_VERSION, key, codec.digest(p), p)
  }

  /** `resized`: the file had another length after the reading than before. */
  function LoadPartitionFile(codec: Codec, bytes: Bytes, resized: bool, key: Bytes, expected: Expectations): Option<Partition> {
    match codec.decode(bytes)
    case None => None
    case Some(e) =>
      if resized then None
      else if e.version != ARTIFACT_FORMAT_VERSION || e.key != key then None
      else if e.partition.path != expected.path || e.partition.contentHash != expected.contentHash
              || e.partition.language != expected.language then None
      else if e.partition.artifactKey != Some(key) then None
      else if e.digest != codec.digest(e.partition) then None
      else if !codec.rowsValid(e.partition) then None
      else Some(e.partition)
  }

  /** The bytes are an intact envelope, in the current format, of this partition under
      this key. */
  predicate IntactEnvelope(codec: Codec, bytes: Bytes, key: Bytes, p: Partition) {
    codec.decode(bytes) == Some(EnvelopeOf(codec, key, p)) && codec.rowsValid(p) && p.artifactKey == Some(key)
  }

  predicate AsExpected(p: Partition, expected: Expectations) {
    expected == Expectations(p.path, p.contentHash, p.language)
  }

  /** A load gives back a partition exactly when the bytes are its intact envelope and it
      is the expected one: stale, foreign and damaged files load as nothing. */
  lemma LoadsExactlyIntact(codec: Codec, bytes: Bytes, resized: bool, key: Bytes, expected: Expectations, p: Partition)
    ensures LoadPartitionFile(codec, bytes, resized, key, expected) == Some(p)
            <==> !resized && IntactEnvelope(codec, bytes, key, p) && AsExpected(p, expected)
  {}

  /** A load of a key from the store: nothing for a malformed or unknown key. */
  function LoadPartition(codec: Codec, fs: P.Fs, key: P.Key, resized: bool, expected: Expectations): Option<Partition> {
    if !Hex.ValidKey(key) || key !in fs.canonical || fs.canonical[key] !in fs.payload
       || fs.payload[fs.canonical[key]] !in fs.bytes then None
    else LoadPartitionFile(codec, fs.bytes[fs.payload[fs.canonical[key]]], resized, key, expected)
  }

  /** The store gives back a partition exactly when the key is well formed and the bytes
      published under it are the partition's intact envelope. */
  lemma StoreLoadsExactlyIntact(codec: Codec, fs: P.Fs, key: P.Key, resized: bool, expected: Expectations, p: Partition)
    ensures LoadPartition(codec, fs, key, resized, expected) == Some(p)
            <==> && Hex.ValidKey(key) && !resized && AsExpected(p, expected)
                 && exists bytes :: fs.Stores(key, bytes) && IntactEnvelope(codec, bytes, key, p)
  {
    hide Hex.ValidKey, IntactEnvelope;
    if LoadPartition(codec, fs, key, resized, expected) == Some(p) {
      LoadsExactlyIntact(codec, fs.bytes[fs.payload[fs.canonical[key]]], resized, key, expected, p);
      assert fs.Stores(key, fs.bytes[fs.payload[fs.canonical[key]]]);
    }
    forall bytes | fs.Stores(key, bytes) && IntactEnvelope(codec, bytes, key, p)
      ensures Hex.ValidKey(key) && !resized && AsExpected(p, expected) ==> LoadPartition(codec, fs, key, resized, expected) == Some(p) {
      LoadsExactlyIntact(codec, bytes, resized, key, expected, p);
    }
  }

  /** In every run of producers, once a call has answered `Written` or `Reused`,
      loading its key gives back its partition, then and ever after. */
  lemma StoredPartitionLoads(run: seq<P.Store>, i: nat, k: nat, p: P.Producer, codec: Codec, partition: Partition)
    requires P.Run(run) && i <= k < |run| && p in run[i].calls
    requires run[i].calls[p].phase == P.Done(P.Written) || run[i].calls[p].phase == P.Done(P.Reused)
    requires var key := run[i].calls[p].key;
             && StoreAccepts(codec, key, partition) && Reloads(codec, EnvelopeOf(codec, key, partition))
             && run[i].calls[p].candidate == codec.encode(EnvelopeOf(codec, key, partition))
    ensures LoadPartition(codec, run[k].fs, run[i].calls[p].key, false,
                          Expectations(partition.path, partition.contentHash, partition.language)) == Some(partition)
  {
    hide P.Run, Hex.ValidKey;
    var c := run[i].calls[p];
    if c.phase.result.Written? { P.WrittenIsOwnPayload(run, i, p); } else { P.ReusedIsEqualPayload(run, i, p); }
    var file := run[i].fs.payload[run[i].fs.canonical[c.key]];
    assert run[i].fs.Holds(c.key, file);
    P.PublishedPayloadIsForever(run, i, k, c.key, file);
  }
}
