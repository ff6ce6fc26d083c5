/**
 What the two ends of the ring do while the other one waits: the player's passes, the
 writer's stores, and the turns of a read.
*/
module RingRuns {
  import opened Chunks
  import opened Ring

  // ---- The player, while the writer waits for room ----

  /** The bytes that passes of these lengths take, and the ring after them. */
  function Passes(r: Ring, passes: seq<nat>): (result: (seq<byte>, Ring))
    requires InRange(r)
    ensures InRange(result.1)
    decreases |passes|
  {
    if passes == [] then ([], r)
    else
      var (a, s) := Passes(r, passes[..|passes| - 1]);
      PassDequeues(s, passes[|passes| - 1]);
      var (b, t) := Pass(s, passes[|passes| - 1]);
      (a + b, t)
  }

  lemma PassesNext(r: Ring, passes: seq<nat>, k: nat)
    requires InRange(r) && k < |passes|
    ensures var (a, s) := Passes(r, passes[..k]);
            Passes(r, passes[..k + 1]) == (a + Pass(s, passes[k]).0, Pass(s, passes[k]).1)
  {
    assert passes[..k + 1][..k] == passes[..k];
  }

  /** `s` is what is left of `r` once `out` was read. */
  predicate Drains(r: Ring, out: seq<byte>, s: Ring)
    requires InRange(r) && InRange(s)
  {
    && Queued(r) == out + Queued(s)
    && s.buf == r.buf && s.put == r.put && Skew(s) == Skew(r) && s.count <= r.count
  }

  lemma DrainsOn(r: Ring, a: seq<byte>, s: Ring, b: seq<byte>, t: Ring)
    requires InRange(r) && InRange(s) && InRange(t) && Drains(r, a, s) && Drains(s, b, t)
    ensures Drains(r, a + b, t)
  {
    Associative(a, b, Queued(t));
  }

  lemma {:induction false} PassesDrain(r: Ring, passes: seq<nat>)
    requires InRange(r)
    ensures Drains(r, Passes(r, passes).0, Passes(r, passes).1)
    decreases |passes|
  {
    if passes == [] {
      assert Queued(r) == [] + Queued(r);
    } else {
      var (a, s) := Passes(r, passes[..|passes| - 1]);
      var (b, t) := Pass(s, passes[|passes| - 1]);
      PassesDrain(r, passes[..|passes| - 1]);
      PassDequeues(s, passes[|passes| - 1]);
      DrainsOn(r, a, s, b, t);
    }
  }

  predicate HasRoom(r: Ring, size: int) {
    SIZE - r.count >= size
  }

  /** What the player has read, and the ring then. */
  datatype Drained = Drained(out: seq<byte>, ring: Ring)

  /** In wait `k` the player makes the passes `waits[k - 1]`. */
  predicate WaitGoes(waits: seq<seq<nat>>, ws: seq<Drained>, k: nat)
    requires 0 < k < |ws| && k <= |waits|
  {
    var w := ws[k - 1];
    && InRange(w.ring)
    && ws[k] == Drained(w.out + Passes(w.ring, waits[k - 1]).0, Passes(w.ring, waits[k - 1]).1)
  }

  /** Waits one after the other, from the ring `r`: `ws[k]` is how things are after `k` of them. */
  predicate IsWait(r: Ring, waits: seq<seq<nat>>, ws: seq<Drained>) {
    && 0 < |ws| <= |waits| + 1 && InRange(r) && ws[0] == Drained([], r)
    && forall k: nat | 0 < k < |ws| :: WaitGoes(waits, ws, k)
  }

  function Final(ws: seq<Drained>): Drained
    requires |ws| > 0
  {
    ws[|ws| - 1]
  }

  /** The waits end as soon as there is room for `size` bytes, and not before; or there is none in the end. */
  predicate UntilRoom(size: int, waits: seq<seq<nat>>, ws: seq<Drained>)
    requires |ws| > 0
  {
    && (forall k | 0 <= k < |ws| - 1 :: !HasRoom(ws[k].ring, size))
    && (HasRoom(Final(ws).ring, size) || |ws| == |waits| + 1)
  }

  lemma {:induction false} WaitDrains(r: Ring, waits: seq<seq<nat>>, ws: seq<Drained>, k: nat)
    requires IsWait(r, waits, ws) && k < |ws|
    ensures InRange(ws[k].ring) && Drains(r, ws[k].out, ws[k].ring)
    decreases k
  {
    if k == 0 {
      assert Queued(r) == [] + Queued(r);
    } else {
      assert WaitGoes(waits, ws, k);
      WaitDrains(r, waits, ws, k - 1);
      var w := ws[k - 1];
      PassesDrain(w.ring, waits[k - 1]);
      DrainsOn(r, w.out, w.ring, Passes(w.ring, waits[k - 1]).0, ws[k].ring);
    }
  }

  /** The passes determine how things go. */
  lemma {:induction false} WaitsAgree(r: Ring, waits: seq<seq<nat>>, ws: seq<Drained>, all: seq<Drained>, k: nat)
    requires IsWait(r, waits, ws) && IsWait(r, waits, all) && k < |ws| && k < |all|
    ensures ws[k] == all[k]
    decreases k
  {
    if k > 0 {
      WaitsAgree(r, waits, ws, all, k - 1);
      assert WaitGoes(waits, ws, k) && WaitGoes(waits, all, k);
    }
  }

  /** Waiting until there is room finds it exactly if there is room after some of all the waits. */
  lemma RoomIff(r: Ring, size: int, waits: seq<seq<nat>>, ws: seq<Drained>, all: seq<Drained>)
    requires IsWait(r, waits, ws) && UntilRoom(size, waits, ws)
    requires IsWait(r, waits, all) && |all| == |waits| + 1
    ensures HasRoom(Final(ws).ring, size) <==> exists k | 0 <= k < |all| :: HasRoom(all[k].ring, size)
  {
    forall k: nat | k < |ws| ensures ws[k] == all[k] {
      WaitsAgree(r, waits, ws, all, k);
    }
    if HasRoom(Final(ws).ring, size) {
      assert HasRoom(all[|ws| - 1].ring, size);
    }
  }

  /** A wait in which the player reads all there is ends with room for anything that the ring can take. */
  lemma ReadingAllMakesRoom(r: Ring, size: int, waits: seq<seq<nat>>, ws: seq<Drained>)
    requires IsWait(r, waits, ws) && UntilRoom(size, waits, ws)
    requires size <= SIZE && waits != [] && waits[0] == [SIZE, SIZE]
    ensures HasRoom(Final(ws).ring, size)
  {
    if |ws| > 1 {
      assert WaitGoes(waits, ws, 1);
      TwoPasses(r);
    }
  }

  lemma TwoPasses(r: Ring)
    requires InRange(r)
    ensures Passes(r, [SIZE, SIZE]).1.count == 0
  {
    var s := Pass(r, SIZE).1;
    var two: seq<nat> := [SIZE, SIZE];
    PassDequeues(r, SIZE);
    assert Passes(r, []) == ([], r);
    assert [SIZE][..0] == [] && Passes(r, [SIZE]).1 == s;
    assert two[..1] == [SIZE] && Passes(r, two).1 == Pass(s, SIZE).1;
  }

  /** A wait more. */
  lemma WaitsOn(r: Ring, waits: seq<seq<nat>>, ws: seq<Drained>, w: Drained)
    requires IsWait(r, waits, ws) && |ws| <= |waits| && InRange(Final(ws).ring)
    requires var (out, s) := Passes(Final(ws).ring, waits[|ws| - 1]); w == Drained(Final(ws).out + out, s)
    ensures IsWait(r, waits, ws + [w])
  {
    var all := ws + [w];
    assert all[0] == ws[0];
    forall k: nat | 0 < k < |all| ensures WaitGoes(waits, all, k) {
      if k < |ws| {
        assert WaitGoes(waits, ws, k);
        WaitGoesInPrefix(waits, ws, w, k);
      } else {
        assert all[k - 1] == Final(ws) && all[k] == w;
      }
    }
  }

  lemma WaitGoesInPrefix(waits: seq<seq<nat>>, ws: seq<Drained>, w: Drained, k: nat)
    requires 0 < k < |ws| <= |waits| && WaitGoes(waits, ws, k)
    ensures WaitGoes(waits, ws + [w], k)
  {
    assert (ws + [w])[k] == ws[k] && (ws + [w])[k - 1] == ws[k - 1];
  }

  // ---- The writer, while the reader waits for bytes ----

  /** What the writer stores of these payloads, each in turn if it fits, and the ring after it. */
  function Writes(r: Ring, payloads: seq<seq<byte>>): (result: (seq<byte>, Ring))
    requires Valid(r)
    ensures Valid(result.1)
    decreases |payloads|
  {
    if payloads == [] then ([], r)
    else
      var (a, s) := Writes(r, payloads[..|payloads| - 1]);
      var p := payloads[|payloads| - 1];
      if s.count + |p| <= SIZE then (StoreIntended(s, p); (a + p, Store(s, p, |p|))) else (a, s)
  }

  lemma WritesNext(r: Ring, payloads: seq<seq<byte>>, k: nat)
    requires Valid(r) && k < |payloads|
    ensures var (a, s) := Writes(r, payloads[..k]);
            Writes(r, payloads[..k + 1]) ==
            if s.count + |payloads[k]| <= SIZE then (a + payloads[k], Store(s, payloads[k], |payloads[k]|)) else (a, s)
  {
    assert payloads[..k + 1][..k] == payloads[..k];
  }

  lemma {:induction false} WritesAppend(r: Ring, payloads: seq<seq<byte>>)
    requires Valid(r)
    ensures Queued(Writes(r, payloads).1) == Queued(r) + Writes(r, payloads).0
    ensures Writes(r, payloads).1.count == r.count + |Writes(r, payloads).0|
    decreases |payloads|
  {
    if payloads != [] {
      var front, p := payloads[..|payloads| - 1], payloads[|payloads| - 1];
      var (a, s) := Writes(r, front);
      WritesAppend(r, front);
      if s.count + |p| <= SIZE {
        StoreIntended(s, p);
        Associative(Queued(r), a, p);
      }
    } else {
      assert Queued(r) == Queued(r) + [];
    }
  }

  lemma {:induction false} WritesConcat(r: Ring, a: seq<seq<byte>>, b: seq<seq<byte>>)
    requires Valid(r)
    ensures var (x, s) := Writes(r, a);
            Writes(r, a + b) == (x + Writes(s, b).0, Writes(s, b).1)
    decreases |b|
  {
    var (x, s) := Writes(r, a);
    if b == [] {
      assert a + b == a && x + [] == x;
    } else {
      var front, p := b[..|b| - 1], b[|b| - 1];
      WritesConcat(r, a, front);
      assert (a + b)[..|a + b| - 1] == a + front;
      Associative(x, Writes(s, front).0, p);
    }
  }

  function Flat(payloads: seq<seq<byte>>): seq<byte>
    decreases |payloads|
  {
    if payloads == [] then [] else Flat(payloads[..|payloads| - 1]) + payloads[|payloads| - 1]
  }

  /** If there is room for all of them, all of them are stored. */
  lemma {:induction false} WritesAll(r: Ring, payloads: seq<seq<byte>>)
    requires Valid(r) && r.count + |Flat(payloads)| <= SIZE
    ensures Writes(r, payloads).0 == Flat(payloads)
    decreases |payloads|
  {
    if payloads != [] {
      var front := payloads[..|payloads| - 1];
      WritesAll(r, front);
      WritesAppend(r, front);
    }
  }

  // ---- The turns of a read ----

  /**
   What the writer stored before the reader took the mutex, and, should the reader find the
   ring empty, whether its wait timed out or what the writer stored before it was woken.
  */
  datatype Turn = Turn(before: seq<seq<byte>>, wake: Option<seq<seq<byte>>>)

  /** The writer does nothing. */
  const ALONE := Turn([], None)

  /** What a read, or a turn of it, has got; what was stored meanwhile; whether it timed out; and the ring then. */
  datatype Got = Got(bytes: seq<byte>, arrived: seq<byte>, timedOut: bool, ring: Ring)

  /** What the writer stores before the reader goes on: should that find the ring empty, until it is woken. */
  function Arrivals(r: Ring, turn: Turn): seq<seq<byte>>
    requires Valid(r)
  {
    if turn.wake.Some? && Writes(r, turn.before).1.count == 0 then turn.before + turn.wake.value else turn.before
  }

  /** The reader's part of a turn: it gives up if its wait timed out, and else makes its pass. */
  function Reads(arrived: seq<byte>, s: Ring, left: nat, woken: bool): (g: Got)
    requires Valid(s)
    ensures Valid(g.ring) && |g.bytes| <= left
  {
    if s.count == 0 && !woken then Got([], arrived, true, s)
    else
      PassDequeues(s, left);
      Got(Pass(s, left).0, arrived, false, Pass(s, left).1)
  }

  /** One turn: the writer stores, the reader waits if there is nothing, and makes its pass unless that timed out. */
  function TurnOf(r: Ring, left: nat, turn: Turn): (g: Got)
    requires Valid(r)
    ensures Valid(g.ring) && |g.bytes| <= left
  {
    var w := Writes(r, Arrivals(r, turn));
    Reads(w.0, w.1, left, turn.wake.Some?)
  }

  /** `g` hands out the next bytes of the stream. */
  predicate HandsOut(r: Ring, g: Got)
    requires Valid(r) && Valid(g.ring)
  {
    Queued(r) + g.arrived == g.bytes + Queued(g.ring)
  }

  /**
   What a turn for `left` bytes may give: the next bytes of the stream; a timeout exactly if
   nothing was there and nothing woke it; and no bytes without a timeout exactly if it was
   woken for nothing. What arrived is what the writer stored before, or until it was woken.
  */
  predicate TurnOk(r: Ring, left: nat, turn: Turn, g: Got)
    requires Valid(r)
  {
    var (a, s) := Writes(r, turn.before);
    && Valid(g.ring) && |g.bytes| <= left && HandsOut(r, g)
    && (g.timedOut <==> s.count == 0 && turn.wake.None?)
    && (g.timedOut ==> g.bytes == [] && g.ring == s && g.arrived == a)
    && (s.count > 0 ==> g.bytes != [] && g.arrived == a)
    && (s.count == 0 && turn.wake.Some? ==>
          var b := Writes(s, turn.wake.value).0;
          g.arrived == a + b && (g.bytes == [] <==> b == []))
  }

  lemma TurnIff(r: Ring, left: nat, turn: Turn)
    requires Valid(r) && left > 0
    ensures TurnOk(r, left, turn, TurnOf(r, left, turn))
  {
    var s := Writes(r, turn.before).1;
    var t := Writes(r, Arrivals(r, turn)).1;
    WritesAppend(r, turn.before);
    WritesAppend(r, Arrivals(r, turn));
    PassDequeues(t, left);
    if s.count == 0 && turn.wake.Some? {
      WritesConcat(r, turn.before, turn.wake.value);
      WritesAppend(s, turn.wake.value);
    }
    assert [] + Queued(s) == Queued(s);
  }

  /** Turn `k`; when those given are used up the writer does nothing. */
  function TurnAt(turns: seq<Turn>, k: nat): Turn {
    if k < |turns| then turns[k] else ALONE
  }

  /** The read is over: its wait timed out, or it has got what was asked for. */
  predicate Over(g: Got, asked: nat) {
    g.timedOut || |g.bytes| >= asked
  }

  function Behind(g: Got, h: Got): Got {
    Got(g.bytes + h.bytes, g.arrived + h.arrived, h.timedOut, h.ring)
  }

  /** The reads `gs[..k]` have come one turn further in `gs[k]`. */
  predicate Goes(asked: nat, turns: seq<Turn>, gs: seq<Got>, k: nat)
    requires 0 < k < |gs|
  {
    var g := gs[k - 1];
    && Valid(g.ring) && !Over(g, asked)
    && gs[k] == Behind(g, TurnOf(g.ring, asked - |g.bytes|, TurnAt(turns, k - 1)))
  }

  /** A read for `asked` bytes, turn by turn: `gs[k]` is what it has after `k` turns. */
  predicate IsRead(r: Ring, asked: nat, turns: seq<Turn>, gs: seq<Got>) {
    && |gs| > 0 && Valid(r) && gs[0] == Got([], [], false, r)
    && forall k: nat | 0 < k < |gs| :: Goes(asked, turns, gs, k)
  }

  function Last(gs: seq<Got>): Got
    requires |gs| > 0
  {
    gs[|gs| - 1]
  }

  lemma HandsOutOn(r: Ring, g: Got, h: Got)
    requires Valid(r) && Valid(g.ring) && Valid(h.ring) && HandsOut(r, g) && HandsOut(g.ring, h)
    ensures HandsOut(r, Behind(g, h))
  {
    Associative(Queued(r), g.arrived, h.arrived);
    Associative(g.bytes, Queued(g.ring), h.arrived);
    Associative(g.bytes, h.bytes, Queued(h.ring));
  }

  /** Whatever is stored meanwhile, a read hands out the next bytes of the stream, and no more than was asked for. */
  lemma {:induction false} ReadHandsOut(r: Ring, asked: nat, turns: seq<Turn>, gs: seq<Got>, k: nat)
    requires IsRead(r, asked, turns, gs) && k < |gs|
    ensures Valid(gs[k].ring) && |gs[k].bytes| <= asked && HandsOut(r, gs[k])
    decreases k
  {
    if k == 0 {
      assert Queued(r) + [] == [] + Queued(r);
    } else {
      assert Goes(asked, turns, gs, k);
      var g := gs[k - 1];
      ReadHandsOut(r, asked, turns, gs, k - 1);
      TurnIff(g.ring, asked - |g.bytes|, TurnAt(turns, k - 1));
      HandsOutOn(r, g, TurnOf(g.ring, asked - |g.bytes|, TurnAt(turns, k - 1)));
    }
  }

  /**
   How a read ends: with all it was asked for, or in a turn that found the ring empty and that
   nothing woke, be it one of those given or one with the writer idle.
  */
  lemma ReadEnds(r: Ring, asked: nat, turns: seq<Turn>, gs: seq<Got>)
    requires IsRead(r, asked, turns, gs) && Over(Last(gs), asked)
    ensures var g := Last(gs);
            && (!g.timedOut <==> |g.bytes| == asked)
            && (g.timedOut ==> |gs| > 1 && g.ring.count == 0 && TurnAt(turns, |gs| - 2).wake.None?)
  {
    ReadHandsOut(r, asked, turns, gs, |gs| - 1);
    if |gs| > 1 {
      var g := gs[|gs| - 2];
      assert Goes(asked, turns, gs, |gs| - 1);
      TurnIff(g.ring, asked - |g.bytes|, TurnAt(turns, |gs| - 2));
    }
  }

  /** With enough bytes in the ring no turn times out. */
  lemma {:induction false} EnoughToRead(r: Ring, asked: nat, turns: seq<Turn>, gs: seq<Got>, k: nat)
    requires IsRead(r, asked, turns, gs) && k < |gs| && r.count >= asked
    ensures !gs[k].timedOut && Valid(gs[k].ring) && |gs[k].bytes| <= asked
    ensures gs[k].ring.count >= asked - |gs[k].bytes|
    decreases k
  {
    if k > 0 {
      assert Goes(asked, turns, gs, k);
      EnoughToRead(r, asked, turns, gs, k - 1);
      StillEnough(gs[k - 1].ring, asked - |gs[k - 1].bytes|, TurnAt(turns, k - 1));
    }
  }

  lemma StillEnough(r: Ring, left: nat, turn: Turn)
    requires Valid(r) && 0 < left <= r.count
    ensures var g := TurnOf(r, left, turn); !g.timedOut && g.bytes != [] && g.ring.count >= left - |g.bytes|
  {
    TurnIff(r, left, turn);
    WritesAppend(r, turn.before);
    var g := TurnOf(r, left, turn);
    assert |Queued(r)| + |g.arrived| == |g.bytes| + |Queued(g.ring)|;
  }
}
