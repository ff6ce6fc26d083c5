/** The output context as the object whose fields and slot array the output module updates. */
module OutputContext {
  import opened Chunks
  import opened Output

  class Context {
    const outputBuffer: array<Option<Chunk>>
    var playedChunk: int
    var maximumChunk: int
    /** The chunks handed to the ring writer, in order. */
    var written: seq<Write>

    function State(): Out
      reads this, outputBuffer
    {
      Out(outputBuffer[..], playedChunk, maximumChunk, written)
    }

    constructor (size: nat)
      ensures State() == Init(size)
      ensures fresh(outputBuffer)
    {
      outputBuffer := new Option<Chunk>[size](_ => None);
      playedChunk, maximumChunk, written := -1, -1, [];
    }

    /** `buffer_free`; `missing` tells that the slot was empty, which would ask for the chunk. */
    method BufferFree(i: int) returns (missing: bool)
      requires 0 <= i < outputBuffer.Length
      modifies this`written, outputBuffer
      ensures missing <==> old(outputBuffer[i]).None?
      ensures State() == if missing then old(State()) else Free(old(State()), i)
    {
      match outputBuffer[i] {
        case None =>
          missing := true;
        case Some(c) =>
          missing := false;
          written := written + [FromSlot(c)];
          outputBuffer[i] := None;
      }
    }

    /** `buffer_flush`. It never comes upon a missing chunk. */
    method BufferFlush() returns (asked: bool)
      requires outputBuffer.Length > 0 && playedChunk >= -1
      modifies this`written, outputBuffer
      ensures State() == Flush(old(State())) && !asked
    {
      asked := false;
      var n := outputBuffer.Length;
      var p := CMod(playedChunk, n);
      var i := p + 1;
      while i < n && outputBuffer[i].Some?
        invariant 0 <= i && playedChunk == old(playedChunk) && !asked
        invariant FlushScan(State(), i, n) == FlushScan(old(State()), p + 1, n)
      {
        var missing := BufferFree(i);
        asked := asked || missing;
        i := i + 1;
      }
      i := 0;
      while i < p && outputBuffer[i].Some?
        invariant 0 <= i && playedChunk == old(playedChunk) && !asked
        invariant FlushScan(State(), i, p) == Flush(old(State()))
      {
        var missing := BufferFree(i);
        asked := asked || missing;
        i := i + 1;
      }
    }

    /** One of the cleanup's two loops. */
    method CleanRange(from: int, to: int)
      requires 0 <= from && to <= outputBuffer.Length
      modifies this`written, this`playedChunk, outputBuffer
      ensures State() == CleanScan(old(State()), from, to)
    {
      var i := from;
      while i < to
        invariant from <= i
        invariant CleanScan(State(), i, to) == CleanScan(old(State()), from, to)
      {
        if outputBuffer[i].Some? {
          var c := outputBuffer[i].value;
          written := written + [FromSlot(c)];
          playedChunk := c.id;
          outputBuffer[i] := None;
        }
        i := i + 1;
      }
    }

    /** `buffer_cleanup`; `ok` is false when the first loop would read slot -1. */
    method BufferCleanup(position: int) returns (ok: bool)
      requires playedChunk >= -1 && 0 <= position < outputBuffer.Length
      modifies this`written, this`playedChunk, outputBuffer
      ensures ok <==> Cleanup(old(State()), position).Done?
      ensures ok ==> State() == Cleanup(old(State()), position).out
      ensures !ok ==> State() == old(State())
    {
      var lastPlayed := CMod(playedChunk, outputBuffer.Length);
      if lastPlayed < 0 {
        return false;
      }
      CleanRange(lastPlayed, position);
      if position < lastPlayed {
        CleanRange(0, position);
      }
      ok := true;
    }

    /** `output_ffmpeg_deliver`. */
    method DeliverChunk(firstChunk: int, c: Chunk) returns (ok: bool)
      requires Inv(State())
      modifies this, outputBuffer
      ensures ok <==> Deliver(old(State()), firstChunk, c).Done?
      ensures ok ==> State() == Deliver(old(State()), firstChunk, c).out && Inv(State())
      ensures !ok ==> State() == Noted(old(State()), c)
    {
      OutOfBoundsIff(State(), firstChunk, c);
      if Deliver(State(), firstChunk, c).Done? {
        DeliverInv(State(), firstChunk, c);
      }
      if c.id <= playedChunk {
        return true;
      }
      if maximumChunk < c.id {
        maximumChunk := c.id;
      }
      if c.id == firstChunk || c.id == playedChunk + 1 {
        written := written + [Direct(c)];
        playedChunk := c.id;
        return true;
      }
      var slot := c.id % outputBuffer.Length;
      if outputBuffer[slot].None? {
        outputBuffer[slot] := Some(c);
        var asked := BufferFlush();
        ok := true;
      } else {
        ok := BufferCleanup(slot);
      }
    }
  }
}
