/** The line readers of the worker protocol and of the coordinator protocol,
    whatever way the bytes of the stream arrive. */
module StreamReaders {
  import opened Basics
  import opened ByteSource

  const NEWLINE: byte := 10
  const MAX_PROGRESS_FRAME_BYTES: nat := 64 * 1024
  const MAX_FRAME_BYTES: nat := 16 * 1024 * 1024

  // ------------------------------------------------------------ whole-stream view

  function FirstNewline(s: Bytes): (i: nat)
    ensures i <= |s| && (i < |s| ==> s[i] == NEWLINE)
    ensures forall k :: 0 <= k < i ==> s[k] != NEWLINE
  {
    if s == [] || s[0] == NEWLINE then 0 else 1 + FirstNewline(s[1..])
  }

  /** The lines that end in a newline, without it; a last unended line is not one. */
  function Lines(s: Bytes): seq<Bytes>
    decreases |s|
  {
    var i := FirstNewline(s);
    if i == |s| then [] else [s[..i]] + Lines(s[i + 1..])
  }

  lemma FirstNewlineIs(s: Bytes, i: nat)
    requires i <= |s| && (i < |s| ==> s[i] == NEWLINE) && NEWLINE !in s[..i]
    ensures FirstNewline(s) == i
  {
    assert forall k :: 0 <= k < i ==> s[k] == s[..i][k] != NEWLINE;
  }

  // -------------------------------------------------------------- progress drain

  datatype Stats = Stats(valid: nat, oversized: nat)

  /** What the ended lines add up to. A line over the bound, or one for which memory was
      refused, is oversized; otherwise it counts if it is a valid frame. */
  function CountLines(lines: seq<Bytes>, refused: seq<bool>, valid: Bytes -> bool): Stats
    requires |refused| == |lines|
  {
    if lines == [] then Stats(0, 0)
    else
      var n := |lines| - 1;
      var stats := CountLines(lines[..n], refused[..n], valid);
      if |lines[n]| > MAX_PROGRESS_FRAME_BYTES || refused[n] then stats.(oversized := stats.oversized + 1)
      else if valid(lines[n]) then stats.(valid := stats.valid + 1)
      else stats
  }

  lemma CountNext(lines: seq<Bytes>, refused: seq<bool>, valid: Bytes -> bool, line: Bytes, mark: bool)
    requires |refused| == |lines|
    ensures var stats := CountLines(lines, refused, valid);
            CountLines(lines + [line], refused + [mark], valid)
            == if |line| > MAX_PROGRESS_FRAME_BYTES || mark then stats.(oversized := stats.oversized + 1)
               else if valid(line) then stats.(valid := stats.valid + 1)
               else stats
  {
    assert (lines + [line])[..|lines|] == lines && (refused + [mark])[..|lines|] == refused;
  }

  lemma LinesAtNewline(line: Bytes, tail: Bytes)
    requires NEWLINE !in line
    ensures Lines(line + [NEWLINE] + tail) == [line] + Lines(tail)
  {
    hide FirstNewline;
    var s := line + [NEWLINE] + tail;
    assert s[..|line|] == line && s[|line|] == NEWLINE && s[|line| + 1..] == tail;
    FirstNewlineIs(s, |line|);
  }

  lemma NoLineLeft(line: Bytes)
    requires NEWLINE !in line
    ensures Lines(line) == []
  {
    assert line[..|line|] == line;
    FirstNewlineIs(line, |line|);
  }

  /** A delivered chunk is the bytes before its first newline, that newline, and
      the bytes after it. */
  lemma ChunkSplits(chunk: Bytes, more: Bytes)
    ensures var i := FirstNewline(chunk);
            && NEWLINE !in chunk[..i]
            && (i < |chunk| ==> chunk + more == chunk[..i] + [NEWLINE] + (chunk[i + 1..] + more))
            && (i == |chunk| ==> chunk[..i] == chunk && chunk[i..] == [])
  {
    hide FirstNewline;
    var i := FirstNewline(chunk);
    if i < |chunk| { CutAt(chunk, i, more); }
  }

  lemma CutAt(chunk: Bytes, i: nat, more: Bytes)
    requires i < |chunk|
    ensures chunk + more == chunk[..i] + [chunk[i]] + (chunk[i + 1..] + more)
  {}

  /** The lines still to come, when `line` is the unended line so far. */
  function LinesAhead(line: Bytes, tail: Bytes): seq<Bytes> { Lines(line + tail) }

  lemma AheadAtNewline(line: Bytes, part: Bytes, tail: Bytes)
    requires NEWLINE !in line && NEWLINE !in part
    ensures LinesAhead(line, part + [NEWLINE] + tail) == [line + part] + LinesAhead([], tail)
  {
    hide Lines;
    assert line + (part + [NEWLINE] + tail) == (line + part) + [NEWLINE] + tail && [] + tail == tail;
    LinesAtNewline(line + part, tail);
  }

  lemma AheadWithin(line: Bytes, part: Bytes, tail: Bytes)
    ensures LinesAhead(line, part + tail) == LinesAhead(line + part, tail)
  {
    hide Lines;
    assert line + (part + tail) == (line + part) + tail;
  }

  lemma AheadAtEnd(line: Bytes)
    requires NEWLINE !in line
    ensures LinesAhead(line, []) == []
  {
    assert line + [] == line;
    NoLineLeft(line);
  }

  lemma MoreLines(lines: seq<Bytes>, done: seq<Bytes>, line: Bytes, ahead: seq<Bytes>)
    requires lines == done + ([line] + ahead)
    ensures lines == (done + [line]) + ahead
  {}

  /** The buffered reader hands out what one read delivered until it is consumed. A line
      longer than the bound, or for which memory is refused, is dropped and counted, so
      the frame buffer, whose largest size is `peak`, never holds more than the bound.
      `fails` says at which read the stream breaks, `refuses` which reservations fail;
      `refused` records the lines that met one. */
  method DrainProgress(source: Source, valid: Bytes -> bool, fails: nat -> bool, refuses: nat -> bool)
    returns (stats: Stats, ghost peak: nat, ghost counted: seq<Bytes>, ghost refused: seq<bool>)
    modifies source
    ensures peak <= MAX_PROGRESS_FRAME_BYTES
    ensures counted <= Lines(old(source.remaining)) && |refused| == |counted| && stats == CountLines(counted, refused, valid)
    ensures (forall t :: !fails(t)) ==> counted == Lines(old(source.remaining))
    ensures (forall t :: !refuses(t)) ==> forall i :: 0 <= i < |refused| ==> !refused[i]
  {
    hide FirstNewline, Lines, CountLines;
    ghost var lines := Lines(source.remaining);
    stats, peak, counted, refused := Stats(0, 0), 0, [], [];
    NothingCounted(valid);
    var frame: Bytes := [];
    var oversized := false;
    var available: Bytes := [];
    var attempts := 0;
    ghost var line: Bytes, mark := [], false;
    assert [] + source.remaining == source.remaining && [] + ([] + source.remaining) == source.remaining;
    assert lines == [] + LinesAhead(line, available + source.remaining);
    hide LinesAhead;
    while true
      invariant NEWLINE !in line
      invariant lines == counted + LinesAhead(line, available + source.remaining)
      invariant |refused| == |counted| && stats == CountLines(counted, refused, valid)
      invariant oversized <==> |line| > MAX_PROGRESS_FRAME_BYTES || mark
      invariant frame == if oversized then [] else line
      invariant |frame| <= peak <= MAX_PROGRESS_FRAME_BYTES
      invariant (forall t :: !refuses(t)) ==> !mark && forall i :: 0 <= i < |refused| ==> !refused[i]
      decreases |available| + |source.remaining|
    {
      if available == [] {
        if fails(source.turn) { return; }
        ghost var tail := available + source.remaining;
        available := source.Read(8 * 1024);
        assert available + source.remaining == tail;
        if available == [] {
          assert tail == [];
          AheadAtEnd(line);
          return;
        }
      }
      var newline := FirstNewline(available);
      var payload := available[..newline];
      ChunkSplits(available, source.remaining);
      if !oversized {
        if |frame| + |payload| > MAX_PROGRESS_FRAME_BYTES {
          frame := [];
          oversized := true;
        } else {
          attempts := attempts + 1;
          if refuses(attempts - 1) {
            frame := [];
            oversized, mark := true, true;
          } else {
            frame := frame + payload;
            peak := if |frame| > peak then |frame| else peak;
          }
        }
      }
      if newline < |available| {
        available := available[newline + 1..];
        AheadAtNewline(line, payload, available + source.remaining);
        MoreLines(lines, counted, line + payload, LinesAhead([], available + source.remaining));
        CountNext(counted, refused, valid, line + payload, mark);
        if oversized {
          stats := stats.(oversized := stats.oversized + 1);
        } else if valid(frame) {
          stats := stats.(valid := stats.valid + 1);
        }
        counted, refused := counted + [line + payload], refused + [mark];
        frame, oversized, line, mark := [], false, [], false;
      } else {
        AheadWithin(line, payload, source.remaining);
        available := [];
        assert [] + source.remaining == source.remaining;
        line := line + payload;
      }
    }
  }

  lemma NothingCounted(valid: Bytes -> bool)
    ensures CountLines([], [], valid) == Stats(0, 0)
  {}

  // -------------------------------------------------------------- frame exchange

  /** `Aborted` is a read error, or a deadline that has passed. */
  datatype Frame = Frame(payload: Bytes) | TooLong | Missing | Truncated | Aborted

  /** What a stream holds as its first frame. */
  function FirstFrame(stream: Bytes): Frame {
    var i := FirstNewline(stream);
    if i > MAX_FRAME_BYTES then TooLong
    else if i < |stream| then Frame(stream[..i])
    else if stream == [] then Missing
    else Truncated
  }

  lemma FirstFrameAtNewline(payload: Bytes, rest: Bytes)
    requires NEWLINE !in payload
    ensures FirstFrame(payload + [NEWLINE] + rest) ==
              if |payload| > MAX_FRAME_BYTES then TooLong else Frame(payload)
  {
    var s := payload + [NEWLINE] + rest;
    assert s[..|payload|] == payload && s[|payload|] == NEWLINE;
    FirstNewlineIs(s, |payload|);
  }

  lemma FirstFrameTooLong(stream: Bytes, n: nat)
    requires MAX_FRAME_BYTES < n <= |stream| && NEWLINE !in stream[..n]
    ensures FirstFrame(stream) == TooLong
  {
    assert forall k :: 0 <= k < n ==> stream[k] == stream[..n][k] != NEWLINE;
  }

  lemma FirstFrameAtEnd(stream: Bytes)
    requires NEWLINE !in stream && |stream| <= MAX_FRAME_BYTES
    ensures FirstFrame(stream) == if stream == [] then Missing else Truncated
  {
    assert stream[..|stream|] == stream;
    FirstNewlineIs(stream, |stream|);
  }

  /** What a buffer tells about the first frame, after `payload` was read. */
  lemma BufferTells(all: Bytes, payload: Bytes, buffer: Bytes, rest: Bytes)
    requires all == payload + (buffer + rest) && NEWLINE !in payload && |payload| <= MAX_FRAME_BYTES
    ensures var part := buffer[..FirstNewline(buffer)];
            if |payload| + |part| > MAX_FRAME_BYTES then FirstFrame(all) == TooLong
            else if |part| < |buffer| then FirstFrame(all) == Frame(payload + part)
            else all == (payload + part) + rest && NEWLINE !in payload + part
  {
    hide FirstNewline, FirstFrame;
    var end := FirstNewline(buffer);
    var part := buffer[..end];
    ChunkSplits(buffer, rest);
    if |payload| + end > MAX_FRAME_BYTES {
      assert all[..|payload| + end] == payload + part;
      FirstFrameTooLong(all, |payload| + end);
    } else if end < |buffer| {
      var more := buffer[end + 1..] + rest;
      assert all == (payload + part) + [NEWLINE] + more;
      FirstFrameAtNewline(payload + part, more);
    }
  }

  /** `fails` says at which read the stream breaks or the deadline has passed. */
  method ReadFrame(source: Source, fails: nat -> bool) returns (frame: Frame)
    modifies source
    ensures frame == FirstFrame(old(source.remaining)) || (frame == Aborted && exists t :: fails(t))
  {
    hide FirstNewline, FirstFrame;
    var payload: Bytes := [];
    ghost var all := source.remaining;
    assert [] + all == all;
    while true
      invariant payload + source.remaining == all
      invariant NEWLINE !in payload && |payload| <= MAX_FRAME_BYTES
      decreases |source.remaining|
    {
      if fails(source.turn) { return Aborted; }
      var buffer := source.Read(8192);
      assert all == payload + (buffer + source.remaining);
      if buffer == [] {
        assert payload == all;
        FirstFrameAtEnd(all);
        return if payload == [] then Missing else Truncated;
      }
      var end := FirstNewline(buffer);
      BufferTells(all, payload, buffer, source.remaining);
      if |payload| + end > MAX_FRAME_BYTES { return TooLong; }
      payload := payload + buffer[..end];
      if end < |buffer| { return Frame(payload); }
    }
  }

  /** How a write ended: whole, refused for its size, or broken off. */
  datatype Written = Whole | Oversized | BrokenOff

  /** Writes the encoded value and a newline, some bytes at a time. A write that accepts
      nothing, an error and a passed deadline break it off. */
  method WriteFrame(payload: Bytes, accepts: nat -> nat, fails: nat -> bool) returns (w: Written, sent: Bytes)
    ensures w == Oversized <==> |payload| > MAX_FRAME_BYTES
    ensures w == Oversized ==> sent == []
    ensures w == Whole ==> sent == payload + [NEWLINE]
    ensures w == BrokenOff ==> sent < payload + [NEWLINE] && exists t :: fails(t) || accepts(t) == 0
  {
    sent := [];
    if |payload| > MAX_FRAME_BYTES { return Oversized, sent; }
    var framed := payload + [NEWLINE];
    var offset, writes := 0, 0;
    while offset < |framed|
      invariant offset <= |framed| && sent == framed[..offset]
    {
      if fails(writes) || accepts(writes) == 0 { return BrokenOff, sent; }
      var most := |framed| - offset;
      var n := if accepts(writes) < most then accepts(writes) else most;
      sent := sent + framed[offset..offset + n];
      offset, writes := offset + n, writes + 1;
    }
    return Whole, sent;
  }

  /** A newline-free payload sent and read through any schedule of writes and reads: the
      reader gives this payload or an error, never another frame. It gives the payload if
      nothing fails and the payload is within the limit; a longer one is refused by the
      writer, and by the reader if it is sent all the same. After a write that broke off
      the stream ends; after a whole one, anything may follow. */
  method FrameRoundTrip(payload: Bytes, rest: Bytes, accepts: nat -> nat, schedule: nat -> nat, writeFails: nat -> bool, readFails: nat -> bool)
    returns (frame: Frame)
    requires NEWLINE !in payload
    ensures frame.Frame? ==> frame == Frame(payload) && |payload| <= MAX_FRAME_BYTES
    ensures (forall t :: !writeFails(t) && accepts(t) > 0 && !readFails(t)) ==>
              frame == if |payload| <= MAX_FRAME_BYTES then Frame(payload) else TooLong
  {
    hide FirstFrame;
    var w, sent := WriteFrame(payload, accepts, writeFails);
    var stream := if w == BrokenOff then sent else payload + [NEWLINE] + rest;
    var source := new Source(stream, schedule);
    FirstFrameAtNewline(payload, rest);
    if w == BrokenOff {
      BrokenOffIsNoFrame(payload, sent);
      NothingBreaksOff(accepts, writeFails);
    }
    frame := ReadFrame(source, readFails);
  }

  lemma NothingBreaksOff(accepts: nat -> nat, fails: nat -> bool)
    requires exists t :: fails(t) || accepts(t) == 0
    ensures !forall t :: !fails(t) && accepts(t) > 0
  {}

  lemma BrokenOffIsNoFrame(payload: Bytes, sent: Bytes)
    requires NEWLINE !in payload && |payload| <= MAX_FRAME_BYTES && sent < payload + [NEWLINE]
    ensures FirstFrame(sent) == if sent == [] then Missing else Truncated
  {
    assert sent == payload[..|sent|];
    FirstFrameAtEnd(sent);
  }
}
