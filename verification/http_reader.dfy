/** The bounded HTTP response reader of the loopback client. */
module HttpReader {
  import opened Basics
  import opened ByteSource
  import opened HttpHead

  const MAX_RESPONSE_BYTES: nat := 2 * 1024 * 1024
  const BUFFER_BYTES: nat := 8192

  datatype Http = Response(bytes: Bytes) | Oversized | Invalid | Incomplete | TimedOut

  /** The blank line that ends the head starts at `i`. */
  predicate EndsHead(s: Bytes, i: nat) {
    i + 4 <= |s| && s[i] == 13 && s[i + 1] == 10 && s[i + 2] == 13 && s[i + 3] == 10
  }

  function HeadEnd(s: Bytes, from: nat): (r: Option<nat>)
    requires forall k :: 0 <= k < from ==> !EndsHead(s, k)
    ensures r.Some? ==> EndsHead(s, r.value) && forall k :: 0 <= k < r.value ==> !EndsHead(s, k)
    ensures r.None? ==> forall k: nat :: !EndsHead(s, k)
    decreases |s| - from
  {
    if from + 4 > |s| then None else if EndsHead(s, from) then Some(from) else HeadEnd(s, from + 1)
  }

  // ------------------------------------------------------------ whole-stream view

  function ExpectedLength(info: HeadInfo, bodyStart: nat): Option<nat> {
    if info.contentLength.Some? && !info.chunked then Some(bodyStart + info.contentLength.value) else None
  }

  /** The answer as a function of the bytes alone. */
  function WholeResponse(stream: Bytes): Http {
    var end := HeadEnd(stream, 0);
    if end.None? || end.value + 4 > MAX_RESPONSE_BYTES + 1 then
      if |stream| > MAX_RESPONSE_BYTES then Oversized else Invalid
    else
      var expected := ExpectedLength(ParseHead(stream[..end.value]), end.value + 4);
      if expected.Some? then
        if expected.value > MAX_RESPONSE_BYTES then Oversized
        else if |stream| < expected.value then Incomplete
        else Response(stream[..expected.value])
      else if |stream| > MAX_RESPONSE_BYTES then Oversized
      else Response(stream)
  }

  lemma HeadEndOfPrefix(stream: Bytes, prefix: Bytes)
    requires prefix <= stream
    ensures HeadEnd(prefix, 0).Some? ==> HeadEnd(stream, 0) == HeadEnd(prefix, 0)
    ensures HeadEnd(prefix, 0).None? && HeadEnd(stream, 0).Some? ==> HeadEnd(stream, 0).value + 4 > |prefix|
  {
    hide HeadEnd;
    assert forall k: nat :: k + 4 <= |prefix| ==> (EndsHead(prefix, k) <==> EndsHead(stream, k));
    var a, b := HeadEnd(prefix, 0), HeadEnd(stream, 0);
    if a.Some? {
      assert EndsHead(stream, a.value);
      assert b.Some? && b.value <= a.value;
      assert EndsHead(prefix, b.value);
    }
    if a.None? && b.Some? { assert !EndsHead(prefix, b.value); }
  }

  /** One read within the deadline; `expires` says at which read it has passed. */
  method ReadUntil(source: Source, limit: nat, expires: nat -> bool) returns (chunk: Option<Bytes>)
    requires limit > 0
    modifies source
    ensures chunk.None? ==> expires(source.turn) && source.remaining == old(source.remaining)
    ensures chunk.Some? ==> old(source.remaining) == chunk.value + source.remaining && |chunk.value| <= limit
    ensures chunk.Some? ==> (chunk.value == [] <==> old(source.remaining) == [])
  {
    if expires(source.turn) { return None; }
    var bytes := source.Read(limit);
    chunk := Some(bytes);
  }

  /** Reads until the response so far contains the end of the head. */
  method ReadHead(source: Source, expires: nat -> bool) returns (response: Bytes, end: Option<nat>, late: bool)
    modifies source
    ensures response + source.remaining == old(source.remaining)
    ensures |response| <= MAX_RESPONSE_BYTES + 1
    ensures end == HeadEnd(response, 0)
    ensures late ==> exists t :: expires(t)
    ensures !late && end.None? ==> |response| == MAX_RESPONSE_BYTES + 1 || source.remaining == []
  {
    hide HeadEnd;
    response, late := [], false;
    ghost var all := source.remaining;
    assert [] + all == all;
    end := HeadEnd(response, 0);
    while end.None?
      invariant response + source.remaining == all
      invariant |response| <= MAX_RESPONSE_BYTES + 1
      invariant end == HeadEnd(response, 0)
      decreases |source.remaining|, end.None?
    {
      // The subtraction cannot underflow: the bound above holds on every turn.
      var room: nat := MAX_RESPONSE_BYTES + 1 - |response|;
      if room == 0 { return; }
      var chunk := ReadUntil(source, if room < BUFFER_BYTES then room else BUFFER_BYTES, expires);
      if chunk.None? { late := true; return; }
      if chunk.value == [] { return; }
      assert response + (chunk.value + source.remaining) == (response + chunk.value) + source.remaining;
      response := response + chunk.value;
      end := HeadEnd(response, 0);
    }
  }

  /** Reads on until the response has `limit` bytes or the stream ends. */
  method ReadUpTo(source: Source, start: Bytes, limit: nat, expires: nat -> bool) returns (response: Bytes, late: bool)
    requires |start| <= limit
    modifies source
    ensures response + source.remaining == start + old(source.remaining)
    ensures start <= response && |response| <= limit
    ensures late ==> exists t :: expires(t)
    ensures !late && |response| < limit ==> source.remaining == []
  {
    response, late := start, false;
    ghost var all := start + source.remaining;
    while |response| < limit
      invariant response + source.remaining == all
      invariant start <= response && |response| <= limit
      decreases |source.remaining|
    {
      var room: nat := limit - |response|;
      var chunk := ReadUntil(source, if room < BUFFER_BYTES then room else BUFFER_BYTES, expires);
      if chunk.None? { late := true; return; }
      if chunk.value == [] { return; }
      assert response + (chunk.value + source.remaining) == (response + chunk.value) + source.remaining;
      response := response + chunk.value;
    }
  }

  /** However reads split the stream, the answer depends on its bytes alone, unless the
      deadline passes. */
  method ReadHttpResponse(source: Source, expires: nat -> bool) returns (http: Http)
    modifies source
    ensures http == WholeResponse(old(source.remaining)) || (http == TimedOut && exists t :: expires(t))
  {
    hide HeadEnd, ParseHead;
    ghost var all := source.remaining;
    var response, end, late := ReadHead(source, expires);
    if late { return TimedOut; }
    assert response == all[..|response|];
    HeadEndOfPrefix(all, response);
    if end.None? {
      return if |response| > MAX_RESPONSE_BYTES then Oversized else Invalid;
    }
    var split := end.value;
    assert response[..split] == all[..split];
    var info := ParseHeadLines(response[..split]);
    var expected := ExpectedLength(info, split + 4);
    if expected.Some? {
      if expected.value > MAX_RESPONSE_BYTES { return Oversized; }
      if |response| > expected.value {
        response := response[..expected.value];
        assert response == all[..expected.value];
      } else {
        response, late := ReadUpTo(source, response, expected.value, expires);
        if late { return TimedOut; }
        assert response == all[..|response|];
        if |response| < expected.value { return Incomplete; }
      }
      return Response(response);
    }
    response, late := ReadUpTo(source, response, MAX_RESPONSE_BYTES + 1, expires);
    if late { return TimedOut; }
    assert response == all[..|response|];
    if |response| > MAX_RESPONSE_BYTES { return Oversized; }
    return Response(response);
  }

  // ---------------------------------------------------------------- main results

  /** A response never exceeds the bound, and it is always what the server sent
      from the first byte on. */
  lemma ResponseIsBoundedPrefix(stream: Bytes)
    requires WholeResponse(stream).Response?
    ensures WholeResponse(stream).bytes <= stream
    ensures |WholeResponse(stream).bytes| <= MAX_RESPONSE_BYTES
  {
    hide ParseHead, HeadEnd;
  }

  /** With an accepted Content-Length and no chunked coding, the response is the
      head and exactly that many body bytes, as section 6.3 of RFC 9112 asks;
      fewer bytes are reported as incomplete, and what follows is not looked at. */
  lemma ContentLengthDecides(head: Bytes, body: Bytes, rest: Bytes)
    requires HeadEnd(head + [13, 10, 13, 10], 0) == Some(|head|)
    requires ParseHead(head) == HeadInfo(Some(|body|), false)
    requires |head| + 4 + |body| <= MAX_RESPONSE_BYTES
    ensures var message := head + [13, 10, 13, 10] + body;
            && WholeResponse(message + rest) == Response(message)
            && forall n :: |head| + 4 <= n < |message| ==> WholeResponse(message[..n]) == Incomplete
  {
    hide HeadEnd, ParseHead;
    var top := head + [13, 10, 13, 10];
    var message := top + body;
    HeadEndOfPrefix(message + rest, top);
    assert (message + rest)[..|head|] == head && (message + rest)[..|message|] == message;
    forall n | |head| + 4 <= n < |message| ensures WholeResponse(message[..n]) == Incomplete {
      assert message[..n][..|top|] == top;
      HeadEndOfPrefix(message[..n], top);
      assert message[..n][..|head|] == head;
    }
  }

  /** Without a Content-Length, or with the chunked coding, everything up to the end of the
      stream is the response, unless it exceeds the bound. */
  lemma WithoutLengthAllIsRead(head: Bytes, rest: Bytes)
    requires HeadEnd(head + [13, 10, 13, 10], 0) == Some(|head|) && |head| + 4 <= MAX_RESPONSE_BYTES
    requires ParseHead(head).contentLength.None? || ParseHead(head).chunked
    ensures var stream := head + [13, 10, 13, 10] + rest;
            WholeResponse(stream) == if |stream| > MAX_RESPONSE_BYTES then Oversized else Response(stream)
  {
    hide HeadEnd, ParseHead;
    var top := head + [13, 10, 13, 10];
    HeadEndOfPrefix(top + rest, top);
    assert (top + rest)[..|head|] == head;
  }

  /** An announced length that exceeds the bound is refused whatever was sent. */
  lemma LongLengthIsRefused(head: Bytes, rest: Bytes)
    requires HeadEnd(head + [13, 10, 13, 10], 0) == Some(|head|) && |head| + 4 <= MAX_RESPONSE_BYTES
    requires var info := ParseHead(head); info.contentLength.Some? && !info.chunked && |head| + 4 + info.contentLength.value > MAX_RESPONSE_BYTES
    ensures WholeResponse(head + [13, 10, 13, 10] + rest) == Oversized
  {
    hide HeadEnd, ParseHead;
    var top := head + [13, 10, 13, 10];
    HeadEndOfPrefix(top + rest, top);
    assert (top + rest)[..|head|] == head;
  }

  /** A stream within the bound that never ends its head is no response. */
  lemma NoHeadIsInvalid(stream: Bytes)
    requires forall k: nat :: !EndsHead(stream, k)
    ensures WholeResponse(stream) == if |stream| > MAX_RESPONSE_BYTES then Oversized else Invalid
  {
    hide HeadEnd, ParseHead;
  }
}
