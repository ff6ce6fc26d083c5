/**
 The plugin object that owns the ring: its buffer, pointers, count and stream position,
 with the writer's and the reader's methods that update them in place.

 What another thread does while a method waits, or before it gets the ring mutex, is a
 parameter: the list of passes, or of stored payloads, of that other thread.
*/
module Plugin {
  import opened Chunks
  import opened Ring
  import opened RingRuns

  /** The bytes copied to offset `at`, and those behind them. */
  lemma BlitParts(b: seq<byte>, at: nat, piece: seq<byte>)
    requires at + |piece| <= |b|
    ensures var d := Blit(b, at, piece);
            && d[..at + |piece|] == b[..at] + piece && d[at..at + |piece|] == piece
            && d[..at] == b[..at] && d[at + |piece|..] == b[at + |piece|..]
  {
  }

  lemma SameTail(b: seq<byte>, d: seq<byte>, orig: seq<byte>, at: nat, end: nat)
    requires at <= end <= |b| == |d| == |orig| && b[at..] == orig[at..] && d[end..] == b[end..]
    ensures d[end..] == orig[end..]
  {
    assert b[end..] == b[at..][end - at..] && orig[end..] == orig[at..][end - at..];
  }

  lemma GoesInPrefix(asked: nat, turns: seq<Turn>, gs: seq<Got>, g: Got, k: nat)
    requires 0 < k < |gs| && Goes(asked, turns, gs, k)
    ensures Goes(asked, turns, gs + [g], k)
  {
    var all := gs + [g];
    assert all[k] == gs[k] && all[k - 1] == gs[k - 1];
  }

  lemma GoesAtEnd(asked: nat, turns: seq<Turn>, gs: seq<Got>, g: Got)
    requires |gs| > 0 && Valid(Last(gs).ring) && |Last(gs).bytes| < asked && !Last(gs).timedOut
    requires g == TurnOf(Last(gs).ring, asked - |Last(gs).bytes|, TurnAt(turns, |gs| - 1))
    ensures Goes(asked, turns, gs + [Behind(Last(gs), g)], |gs|)
  {
    var all := gs + [Behind(Last(gs), g)];
    assert all[|gs| - 1] == Last(gs) && all[|gs|] == Behind(Last(gs), g);
  }

  /** A turn more. */
  lemma Extends(r: Ring, asked: nat, turns: seq<Turn>, gs: seq<Got>, g: Got, left: nat, turn: Turn, next: Got)
    requires IsRead(r, asked, turns, gs) && g == Last(gs) && Valid(g.ring) && |g.bytes| < asked && !g.timedOut
    requires left == asked - |g.bytes| && turn == TurnAt(turns, |gs| - 1)
    requires next == Behind(g, TurnOf(g.ring, left, turn))
    ensures IsRead(r, asked, turns, gs + [next])
  {
    var all := gs + [next];
    assert all[0] == gs[0];
    forall k: nat | 0 < k < |all| ensures Goes(asked, turns, all, k) {
      if k < |gs| {
        assert Goes(asked, turns, gs, k);
        GoesInPrefix(asked, turns, gs, next, k);
      } else {
        GoesAtEnd(asked, turns, gs, TurnOf(g.ring, left, turn));
      }
    }
  }

  /**
   What a write of the code as it stands makes of the ring: when the payload is certain to lie
   behind the unread bytes, how far `put` is off afterwards, and when it leaves the buffer.
  */
  ghost predicate Written(r: Ring, c: Chunk, s: Ring) {
    && Ready(r, Put(c)) && s == AsWritten(r, Put(c))
    && (Reliable(r, Put(c)) <==> Payload(c) == [] || Skew(r) == 0)
    && (Payload(c) == [] || Skew(r) == 0 ==> Queued(s) == Queued(r) + Payload(c))
    && Skew(s) == SkewAfter(r, Put(c))
    && (InRange(s) <==> !Overshoots(r, Put(c)))
  }

  lemma WrittenOk(r: Ring, c: Chunk)
    requires Ready(r, Put(c))
    ensures Written(r, c, AsWritten(r, Put(c)))
  {
    AsWrittenStepIff(r, Put(c));
    AsWrittenSkew(r, Put(c));
    StaysInsideIff(r, Put(c));
    if Reliable(r, Put(c)) {
      PutReliably(r, c);
    }
  }

  /** What was read before a write to a ring with `put` at the end, and what is unread after it. */
  lemma WrittenBytes(r: Ring, c: Chunk, s: Ring, drained: seq<byte>)
    requires Written(r, c, s) && (Payload(c) == [] || Skew(r) == 0)
    ensures drained + Queued(s) == (drained + Queued(r)) + Payload(c)
  {
    Associative(drained, Queued(r), Payload(c));
  }

  /** The writer has waited for `size` free bytes, `ws` being how things were after each wait. */
  predicate Waited(r: Ring, size: int, waits: seq<seq<nat>>, ws: seq<Drained>, drained: seq<byte>, s: Ring) {
    && IsWait(r, waits, ws) && UntilRoom(size, waits, ws)
    && Drained(drained, s) == Final(ws)
  }

  class P2pInput {
    const buffer: array<byte>
    var putPtr: int
    var getPtr: int
    var count: int
    var curpos: int

    /** The fields of the ring as a value. */
    function State(): Ring
      reads this, buffer
    {
      Ring(buffer[..], putPtr, getPtr, count)
    }

    constructor ()
      ensures Valid(State()) && Queued(State()) == [] && curpos == 0
      ensures fresh(buffer)
    {
      buffer := new byte[SIZE](_ => 0);
      putPtr, getPtr, count, curpos := 0, 0, 0, 0;
    }

    /** `memcpy` into the ring. */
    method CopyIn(at: int, piece: seq<byte>)
      requires 0 <= at && at + |piece| <= buffer.Length
      modifies buffer
      ensures buffer[..] == Blit(old(buffer[..]), at, piece)
    {
      forall i | 0 <= i < |piece| {
        buffer[at + i] := piece[i];
      }
    }

    /** `memcpy` out of the ring. */
    method CopyOut(from: int, n: int, buf: array<byte>, at: int)
      requires buf != buffer && 0 <= from && 0 <= n && from + n <= buffer.Length && 0 <= at && at + n <= buf.Length
      modifies buf
      ensures buf[..] == Blit(old(buf[..]), at, buffer[from..from + n])
    {
      forall i | 0 <= i < n {
        buf[at + i] := buffer[from + i];
      }
    }

    /** The writer's critical section once there is room: one piece, or two around the end. */
    method StorePayload(p: seq<byte>, advance: int)
      requires buffer.Length == SIZE && 0 <= putPtr <= SIZE && |p| <= SIZE
      modifies this`putPtr, this`count, buffer
      ensures State() == Store(old(State()), p, advance)
    {
      var remaining := SIZE - putPtr;
      if remaining >= |p| {
        CopyIn(putPtr, p);
        putPtr := putPtr + advance;
      } else {
        CopyIn(putPtr, p[..remaining]);
        CopyIn(0, p[remaining..]);
        putPtr := |p| - remaining;
      }
      count := count + |p|;
    }

    /** The reader's critical section, copying to `buf` from `at` on. */
    method ReadPass(nlen: int, buf: array<byte>, at: int) returns (n: int)
      requires InRange(State()) && nlen >= 0
      requires buf != buffer && 0 <= at && at + nlen <= buf.Length
      modifies this`getPtr, this`count, buf
      ensures InRange(State()) && Skew(State()) == old(Skew(State())) && n == |Pass(old(State()), nlen).0| <= nlen
      ensures State() == Pass(old(State()), nlen).1
      ensures buf[..] == Blit(old(buf[..]), at, Pass(old(State()), nlen).0)
    {
      ghost var before := State();
      PassSkew(before, nlen);
      if nlen > count {
        n := count;
      } else {
        n := nlen;
      }
      if getPtr + n > SIZE {
        n := SIZE - getPtr;
      }
      CopyOut(getPtr, n, buf, at);
      getPtr := getPtr + n;
      if getPtr >= SIZE {
        getPtr := 0;
      }
      count := count - n;
      assert State() == Pass(before, nlen).1;
    }

    /** One pass of the player into a buffer of its own. */
    method TakeBytes(nlen: nat) returns (out: seq<byte>)
      requires InRange(State())
      modifies this`getPtr, this`count
      ensures InRange(State()) && (out, State()) == Pass(old(State()), nlen)
    {
      var buf := new byte[nlen](_ => 0);
      PassDequeues(State(), nlen);
      ghost var piece := Pass(State(), nlen).0;
      var n := ReadPass(nlen, buf, 0);
      out := buf[..n];
      assert out == piece;
    }

    /** The player's passes while the writer waits; `drained` is what they take. */
    method ReaderRuns(passes: seq<nat>) returns (drained: seq<byte>)
      requires InRange(State())
      modifies this`getPtr, this`count
      ensures InRange(State()) && (drained, State()) == Passes(old(State()), passes)
    {
      drained := [];
      for k := 0 to |passes|
        invariant InRange(State()) && (drained, State()) == Passes(old(State()), passes[..k])
      {
        PassesNext(old(State()), passes, k);
        var out := TakeBytes(passes[k]);
        drained := drained + out;
      }
      assert passes[..|passes|] == passes;
    }

    /**
     The wait for `size` free bytes: it ends as soon as the player has made room; `ws` is how
     things are after each of the waits. Without an end of the waiting, `room` is false.
    */
    method WaitForRoom(size: int, waits: seq<seq<nat>>)
      returns (room: bool, drained: seq<byte>, ghost ws: seq<Drained>)
      requires InRange(State())
      modifies this`getPtr, this`count
      ensures InRange(State()) && Skew(State()) == old(Skew(State())) && putPtr == old(putPtr)
      ensures old(Queued(State())) == drained + Queued(State())
      ensures room <==> SIZE - count >= size
      ensures Waited(old(State()), size, waits, ws, drained, State())
    {
      drained := [];
      var done := 0;
      ghost var before := State();
      ws := [Drained([], before)];
      while SIZE - count < size && done < |waits|
        invariant 0 <= done <= |waits| && |ws| == done + 1 && InRange(State())
        invariant IsWait(before, waits, ws) && Drained(drained, State()) == Final(ws)
        invariant forall j | 0 <= j < done :: !HasRoom(ws[j].ring, size)
        decreases |waits| - done
      {
        var more := ReaderRuns(waits[done]);
        drained := drained + more;
        WaitsOn(before, waits, ws, Drained(drained, State()));
        ws := ws + [Drained(drained, State())];
        done := done + 1;
      }
      WaitDrains(before, waits, ws, done);
      room := SIZE - count >= size;
    }

    /** The critical section of `output_ffmpeg_write_chunk` as written, once there is room. */
    method StoreChunk(c: Chunk)
      requires IsVideo(c) && Ready(State(), Put(c))
      modifies this`putPtr, this`count, buffer
      ensures State() == AsWritten(old(State()), Put(c))
    {
      StorePayload(c.data[Offset(c)..], |c.data|);
    }

    /**
     `output_ffmpeg_write_chunk` as written; `mid` is the ring when there was room. If there is
     a payload, it is certain to get to the player exactly if `put` was the end of the unread
     bytes before the call. Storing it in one piece moves `put` away from there by the header.
    */
    method WriteChunk(c: Chunk, waits: seq<seq<nat>>)
      returns (done: bool, drained: seq<byte>, ghost mid: Ring, ghost ws: seq<Drained>)
      requires InRange(State()) && IsParsable(c)
      modifies this, buffer
      ensures InRange(mid) && Skew(mid) == old(Skew(State())) && mid.put == old(putPtr)
      ensures old(Queued(State())) == drained + Queued(mid) && curpos == old(curpos)
      ensures IsStrange(c) ==> done && drained == [] && State() == old(State()) == mid
      ensures IsVideo(c) ==> Waited(old(State()), |c.data|, waits, ws, drained, mid)
      ensures IsVideo(c) ==> (done <==> HasRoom(mid, |c.data|))
      ensures if done then Written(mid, c, State()) else State() == mid
      ensures done && (Payload(c) == [] || old(Skew(State())) == 0) ==>
                drained + Queued(State()) == old(Queued(State())) + Payload(c)
    {
      if c.data[0] == 0 {
        done, drained, mid, ws := true, [], State(), [];
      } else {
        done, drained, ws := WaitForRoom(|c.data|, waits);
        mid := State();
        if done {
          StoreChunk(c);
        }
      }
      if done {
        WrittenOk(mid, c);
        if Payload(c) == [] || Skew(mid) == 0 {
          WrittenBytes(mid, c, State(), drained);
        }
      }
    }

    /** The same with the advance that matches the count: always a queue. */
    method WriteChunkIntended(c: Chunk, waits: seq<seq<nat>>)
      returns (done: bool, drained: seq<byte>, ghost ws: seq<Drained>)
      requires Valid(State()) && IsParsable(c)
      modifies this, buffer
      ensures Valid(State()) && curpos == old(curpos)
      ensures drained + Queued(State()) == old(Queued(State())) + if done then Payload(c) else []
      ensures IsStrange(c) ==> done && drained == []
      ensures IsVideo(c) ==> |ws| > 0 && Waited(old(State()), |c.data|, waits, ws, drained, Final(ws).ring)
      ensures IsVideo(c) ==> (done <==> HasRoom(Final(ws).ring, |c.data|))
      ensures !done ==> SIZE - count < |c.data|
    {
      if c.data[0] == 0 {
        return true, [], [];
      }
      var offset := Offset(c);
      done, drained, ws := WaitForRoom(|c.data|, waits);
      if done {
        ghost var mid := State();
        StorePayload(c.data[offset..], |c.data| - offset);
        StoreIntended(mid, Payload(c));
        Associative(drained, Queued(mid), Payload(c));
      }
    }

    /** The writer stores one payload, if there is room; if not, it is left for later. */
    method TakePayload(p: seq<byte>) returns (stored: seq<byte>)
      requires Valid(State())
      modifies this`putPtr, this`count, buffer
      ensures stored == if old(count) + |p| <= SIZE then p else []
      ensures State() == if old(count) + |p| <= SIZE then Store(old(State()), p, |p|) else old(State())
    {
      stored := [];
      if count + |p| <= SIZE {
        StorePayload(p, |p|);
        stored := p;
      }
    }

    /** What the writer stores while the reader waits. */
    method WriterRuns(payloads: seq<seq<byte>>) returns (stored: seq<byte>)
      requires Valid(State())
      modifies this`putPtr, this`count, buffer
      ensures Valid(State()) && (stored, State()) == Writes(old(State()), payloads)
    {
      stored := [];
      for k := 0 to |payloads|
        invariant Valid(State()) && (stored, State()) == Writes(old(State()), payloads[..k])
      {
        WritesNext(old(State()), payloads, k);
        var more := TakePayload(payloads[k]);
        assert stored + [] == stored;
        stored := stored + more;
      }
      assert payloads[..|payloads|] == payloads;
    }

    /** The wait of a turn, with what the writer stores before it and meanwhile; it may time out. */
    method AwaitData(turn: Turn) returns (arrived: seq<byte>, timedOut: bool)
      requires Valid(State())
      modifies this`putPtr, this`count, buffer
      ensures Valid(State()) && (arrived, State()) == Writes(old(State()), Arrivals(old(State()), turn))
      ensures timedOut <==> count == 0 && turn.wake.None?
    {
      timedOut := false;
      ghost var before := State();
      arrived := WriterRuns(turn.before);
      if count == 0 {
        match turn.wake {
          case None =>
            timedOut := true;
          case Some(payloads) =>
            WritesConcat(before, turn.before, payloads);
            var more := WriterRuns(payloads);
            arrived := arrived + more;
        }
      }
    }

    /** One turn of the reader's loop: take the mutex, wait if there is nothing, make a pass. */
    method ReadTurn(left: int, buf: array<byte>, at: int, turn: Turn)
      returns (n: int, arrived: seq<byte>, timedOut: bool)
      requires Valid(State()) && left > 0
      requires buf != buffer && 0 <= at && at + left <= buf.Length
      modifies this`putPtr, this`getPtr, this`count, buffer, buf
      ensures Valid(State()) && 0 <= n <= left
      ensures Got(buf[at..at + n], arrived, timedOut, State()) == TurnOf(old(State()), left, turn)
      ensures TurnOk(old(State()), left, turn, Got(buf[at..at + n], arrived, timedOut, State()))
      ensures buf[..at] == old(buf[..at]) && buf[at + n..] == old(buf[at + n..])
    {
      n := 0;
      TurnIff(State(), left, turn);
      arrived, timedOut := AwaitData(turn);
      if timedOut {
        assert buf[at..at] == [];
        return;
      }
      ghost var now, was := State(), buf[..];
      n := ReadPass(left, buf, at);
      BlitParts(was, at, Pass(now, left).0);
    }

    /** A turn in the course of a read that has got `g`, with `orig` behind it in the caller's buffer. */
    method ReadOn(left: int, buf: array<byte>, at: int, turn: Turn, ghost g: Got, ghost orig: seq<byte>)
      returns (n: int, arrived: seq<byte>, timedOut: bool, ghost next: Got)
      requires Valid(State()) && left > 0
      requires buf != buffer && 0 <= at && at + left <= buf.Length == |orig|
      requires g == Got(buf[..at], g.arrived, false, State()) && buf[at..] == orig[at..]
      modifies this`putPtr, this`getPtr, this`count, buffer, buf
      ensures Valid(State()) && 0 <= n <= left && (n == 0 && !timedOut ==> turn.wake.Some?)
      ensures next == Behind(g, TurnOf(g.ring, left, turn))
      ensures next == Got(buf[..at + n], g.arrived + arrived, timedOut, State())
      ensures buf[at + n..] == orig[at + n..]
    {
      ghost var was := buf[..];
      n, arrived, timedOut := ReadTurn(left, buf, at, turn);
      next := Behind(g, Got(buf[at..at + n], arrived, timedOut, State()));
      SameTail(was, buf[..], orig, at, at + n);
      assert buf[..at + n] == buf[..at] + buf[at..at + n];
    }

    /**
     `p2p_plugin_read`, without preview data; `gs` is what it has after each turn of its loop.
     Whatever the writer stores meanwhile, the caller gets the next bytes of the stream; fewer
     than asked for only when the ring ran empty and nothing woke the reader. The stream
     position counts them only if the call did not time out.
    */
    method Read(nlen: int, buf: array<byte>, turns: seq<Turn>)
      returns (copied: int, arrived: seq<byte>, timedOut: bool, ghost gs: seq<Got>)
      requires Valid(State()) && buf != buffer && nlen <= buf.Length
      modifies this, buffer, buf
      ensures Valid(State())
      ensures nlen < 0 ==> copied == -1 && !timedOut && arrived == []
      ensures nlen < 0 ==> State() == old(State()) && buf[..] == old(buf[..])
      ensures nlen >= 0 ==> 0 <= copied <= nlen
      ensures nlen >= 0 ==> IsRead(old(State()), nlen, turns, gs) && Over(Last(gs), nlen)
      ensures nlen >= 0 ==> Got(buf[..copied], arrived, timedOut, State()) == Last(gs)
      ensures nlen >= 0 ==> buf[..copied] + Queued(State()) == old(Queued(State())) + arrived
      ensures nlen >= 0 ==> buf[copied..] == old(buf[..])[copied..]
      ensures timedOut ==> Queued(State()) == [] && |gs| > 1 && TurnAt(turns, |gs| - 2).wake.None?
      ensures nlen >= 0 && !timedOut ==> copied == nlen
      ensures curpos == old(curpos) + if nlen < 0 || timedOut then 0 else copied
    {
      arrived, timedOut, copied, gs := [], false, 0, [];
      if nlen < 0 {
        return -1, [], false, [];
      }
      ghost var before := State();
      copied, arrived, timedOut, gs := ReadLoop(nlen, buf, turns);
      ReadHandsOut(before, nlen, turns, gs, |gs| - 1);
      ReadEnds(before, nlen, turns, gs);
      if !timedOut {
        curpos := curpos + copied;
      }
    }

    /** The loop of `p2p_plugin_read`. */
    method ReadLoop(nlen: nat, buf: array<byte>, turns: seq<Turn>)
      returns (copied: int, arrived: seq<byte>, timedOut: bool, ghost gs: seq<Got>)
      requires Valid(State()) && buf != buffer && nlen <= buf.Length
      modifies this`putPtr, this`getPtr, this`count, buffer, buf
      ensures Valid(State()) && 0 <= copied <= nlen
      ensures IsRead(old(State()), nlen, turns, gs) && Over(Last(gs), nlen)
      ensures Got(buf[..copied], arrived, timedOut, State()) == Last(gs)
      ensures buf[copied..] == old(buf[..])[copied..]
    {
      arrived, timedOut, copied := [], false, 0;
      var left: int := nlen;
      var k := 0;
      ghost var before, orig := State(), buf[..];
      gs := [Got([], [], false, before)];
      while left > 0 && !timedOut
        invariant Valid(State()) && 0 <= copied && 0 <= left && copied + left == nlen
        invariant IsRead(before, nlen, turns, gs) && |gs| == k + 1
        invariant Got(buf[..copied], arrived, timedOut, State()) == Last(gs)
        invariant buf[copied..] == orig[copied..]
        decreases !timedOut, left, |turns| - k
      {
        var turn := if k < |turns| then turns[k] else ALONE;
        ghost var g, next := Last(gs), Last(gs);
        assert |g.bytes| == copied;
        var n, more;
        n, more, timedOut, next := ReadOn(left, buf, copied, turn, g, orig);
        Extends(before, nlen, turns, gs, g, left, turn, next);
        gs := gs + [next];
        k := k + 1;
        arrived := arrived + more;
        copied := copied + n;
        left := left - n;
      }
    }
  }

  /** Two bytes asked for, one there and none to come: the byte is handed out, and the position does not count it. */
  method TimeoutLosesPosition() returns (p: P2pInput, copied: int)
    ensures fresh(p) && copied == 1 && p.curpos == 0 && Valid(p.State()) && Queued(p.State()) == []
  {
    p := new P2pInput();
    StoreIntended(p.State(), [7]);
    p.StorePayload([7], 1);
    var buf := new byte[2](_ => 0);
    var arrived, timedOut;
    ghost var gs, before := [], p.State();
    copied, arrived, timedOut, gs := p.Read(2, buf, []);
    NobodyWrites(before, 2, gs, |gs| - 1);
    assert |buf[..copied] + Queued(p.State())| == 1;
  }

  /** With no turns given nothing arrives. */
  lemma {:induction false} NobodyWrites(r: Ring, asked: nat, gs: seq<Got>, k: nat)
    requires IsRead(r, asked, [], gs) && k < |gs|
    ensures gs[k].arrived == []
    decreases k
  {
    if k > 0 {
      assert Goes(asked, [], gs, k);
      NobodyWrites(r, asked, gs, k - 1);
    }
  }
}
