/** The older algorithm in place, on the slot array and its global `firstChunk`. */
module WindowContext {
  import opened Chunks
  import opened Window
  import opened Residues

  class Context {
    const outputBuffer: array<Option<Chunk>>
    var firstChunk: int
    var written: seq<Chunk>

    function State(): Win
      reads this, outputBuffer
    {
      Win(outputBuffer[..], firstChunk, written)
    }

    constructor (size: nat, first: int)
      ensures State() == Start(size, first)
      ensures fresh(outputBuffer)
    {
      outputBuffer := new Option<Chunk>[size](_ => None);
      firstChunk, written := first, [];
    }

    /** `buffer_free_original`, with no first or last id to play set. */
    method BufferFree(i: int)
      requires 0 <= i < outputBuffer.Length && outputBuffer[i].Some?
      modifies this, outputBuffer
      ensures State() == Free(old(State()), i)
    {
      var c := outputBuffer[i].value;
      written := written + [c];
      outputBuffer[i] := None;
      firstChunk := c.id + 1;
    }

    /** `buffer_flush_original`. */
    method BufferFlush(id: int)
      requires outputBuffer.Length > 0 && id == firstChunk
      modifies this, outputBuffer
      ensures State() == Flush(old(State()))
    {
      var n := outputBuffer.Length;
      var i := id % n;
      ghost var k := n;
      while outputBuffer[i].Some?
        invariant 0 <= i < n && 0 < k <= n
        invariant i == (id + (n - k)) % n
        invariant FlushSteps(State(), i, k) == Flush(old(State()))
        decreases k
      {
        BufferFree(i);
        NextSlot(n, id + (n - k));
        i := (i + 1) % n;
        k := k - 1;
        if i == id % n {
          BackAtStart(n, id, k);
          break;
        }
        if k == 0 {
          FullTurn(n, id);
          assert false;
        }
      }
    }

    /** The loop that gives up ids until `c` lies in the window, and the flush after it. */
    method FitChunk(c: Chunk)
      requires outputBuffer.Length > 0
      modifies this, outputBuffer
      ensures State() == Fit(old(State()), c)
    {
      var n := outputBuffer.Length;
      if c.id >= firstChunk + n {
        var i := firstChunk;
        while i <= c.id - n
          invariant i <= c.id - n + 1
          invariant MakeRoom(State(), i, c.id - n) == MakeRoom(old(State()), old(firstChunk), c.id - n)
        {
          if outputBuffer[i % n].Some? {
            BufferFree(i % n);
          } else {
            firstChunk := firstChunk + 1;
          }
          i := i + 1;
        }
        BufferFlush(firstChunk);
      }
    }

    /** The older deliver. */
    method DeliverChunk(c: Chunk) returns (verdict: Verdict)
      requires Inv(State())
      modifies this, outputBuffer
      ensures (State(), verdict) == Deliver(old(State()), c)
      ensures Inv(State()) && verdict != Crash
    {
      DeliverOk(State(), c);
      if c.id < firstChunk {
        return Accepted;
      }
      FitChunk(c);
      var slot := c.id % outputBuffer.Length;
      if c.id == firstChunk {
        written := written + [c];
        firstChunk := firstChunk + 1;
        BufferFlush(firstChunk);
        verdict := Accepted;
      } else if outputBuffer[slot].Some? {
        verdict := if outputBuffer[slot].value.id == c.id then Duplicate else Crash;
      } else {
        outputBuffer[slot] := Some(c);
        verdict := Accepted;
      }
    }
  }

  /** Back at the first slot after fewer than `n` steps only if no steps remain. */
  lemma BackAtStart(n: nat, id: int, k: nat)
    requires 0 <= k < n && (id + (n - k)) % n == id % n
    ensures k == 0
  {
    if k > 0 {
      SameSlot(n, id, id + (n - k));
    }
  }

  lemma FullTurn(n: nat, id: int)
    requires n > 0
    ensures (id + n) % n == id % n
  {
    SameSlotOf(n, id + n, id / n + 1, id % n);
  }
}
