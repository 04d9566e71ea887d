/** A readable stream of which only the bytes are fixed: how many of them each
    read delivers is up to the schedule. */
module ByteSource {
  import opened Basics

  /** At least one byte and at most the limit, and none only at the end. */
  function Delivered(wanted: nat, limit: nat, available: nat): (n: nat)
    requires limit > 0
    ensures n <= limit && n <= available && (n == 0 <==> available == 0)
  {
    var most := if limit < available then limit else available;
    if wanted == 0 && most > 0 then 1 else if wanted < most then wanted else most
  }

  class Source {
    var remaining: Bytes
    var turn: nat
    const schedule: nat -> nat

    constructor (stream: Bytes, schedule: nat -> nat)
      ensures remaining == stream
    {
      remaining, turn := stream, 0;
      this.schedule := schedule;
    }

    method Read(limit: nat) returns (chunk: Bytes)
      requires limit > 0
      modifies this
      ensures old(remaining) == chunk + remaining && turn == old(turn) + 1
      ensures |chunk| == Delivered(schedule(old(turn)), limit, |old(remaining)|)
      ensures |chunk| <= limit
      ensures chunk == [] <==> old(remaining) == []
    {
      var n := Delivered(schedule(turn), limit, |remaining|);
      chunk := remaining[..n];
      remaining := remaining[n..];
      turn := turn + 1;
    }
  }
}
