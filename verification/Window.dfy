/**
 The documented playout policy: the older algorithm that the source keeps beside the
 current one, behind the check that drops chunks already passed by. `next` is its
 `firstChunk`, the next id to play. A chunk beyond the window makes room first. Slots are
 freed as `buffer_free_original` does, which moves `firstChunk` on.
*/
module Window {
  import opened Chunks
  import opened Residues

  datatype Win = Win(slots: seq<Option<Chunk>>, next: int, log: seq<Chunk>)

  datatype Verdict = Accepted | Duplicate | Crash

  function Start(size: nat, first: int): Win {
    Win(seq(size, _ => None), first, [])
  }

  /** `buffer_free_original`. */
  function Free(w: Win, i: int): Win
    requires 0 <= i < |w.slots| && w.slots[i].Some?
  {
    var c := w.slots[i].value;
    Win(w.slots[i := None], c.id + 1, w.log + [c])
  }

  /** The loop of `buffer_flush_original`, with at most `k` turns to go before it is back where it began. */
  function FlushSteps(w: Win, i: int, k: nat): (r: Win)
    requires 0 <= i < |w.slots|
    ensures |r.slots| == |w.slots|
    decreases k
  {
    if k > 0 && w.slots[i].Some? then FlushSteps(Free(w, i), (i + 1) % |w.slots|, k - 1) else w
  }

  function Flush(w: Win): (r: Win)
    requires |w.slots| > 0
    ensures |r.slots| == |w.slots|
  {
    FlushSteps(w, w.next % |w.slots|, |w.slots|)
  }

  /** The loop that gives up the ids from `i` to `hi`, playing those that are there. */
  function MakeRoom(w: Win, i: int, hi: int): (r: Win)
    requires |w.slots| > 0
    ensures |r.slots| == |w.slots|
    decreases hi + 1 - i
  {
    if i > hi then w
    else
      var s := i % |w.slots|;
      MakeRoom(if w.slots[s].Some? then Free(w, s) else w.(next := w.next + 1), i + 1, hi)
  }

  function Fit(w: Win, c: Chunk): (r: Win)
    requires |w.slots| > 0
    ensures |r.slots| == |w.slots|
  {
    if c.id >= w.next + |w.slots| then Flush(MakeRoom(w, w.next, c.id - |w.slots|)) else w
  }

  function Place(w: Win, c: Chunk): (r: (Win, Verdict))
    requires |w.slots| > 0
    ensures |r.0.slots| == |w.slots|
  {
    var s := c.id % |w.slots|;
    if c.id == w.next then (Flush(Win(w.slots, w.next + 1, w.log + [c])), Accepted)
    else if w.slots[s].Some? then (w, if w.slots[s].value.id == c.id then Duplicate else Crash)
    else (w.(slots := w.slots[s := Some(c)]), Accepted)
  }

  function Deliver(w: Win, c: Chunk): (r: (Win, Verdict))
    requires |w.slots| > 0
    ensures |r.0.slots| == |w.slots|
  {
    if c.id < w.next then (w, Accepted) else Place(Fit(w, c), c)
  }

  // ---- The window invariant ----

  /** The chunk in slot `i` belongs there and lies in the window, at least `gap` above `next`. */
  predicate SlotOk(w: Win, i: int, gap: int)
    requires 0 <= i < |w.slots|
  {
    w.slots[i].Some? ==>
      var id := w.slots[i].value.id;
      id % |w.slots| == i && w.next + gap <= id < w.next + |w.slots|
  }

  /** The slots are in the window; the log rises and stays below it. */
  predicate InWindow(w: Win, gap: int) {
    && |w.slots| > 0 && w.next >= 0
    && (forall i | 0 <= i < |w.slots| :: SlotOk(w, i, gap))
    && Increasing(w.log)
    && (forall c | c in w.log :: c.id < w.next)
  }

  /** Between deliveries the next chunk to play is in no slot. */
  predicate Inv(w: Win) {
    InWindow(w, 1)
  }

  /** Playing the next chunk out of its slot moves the window up by one. */
  lemma FreeNext(w: Win)
    requires InWindow(w, 0) && w.slots[w.next % |w.slots|].Some?
    ensures var r := Free(w, w.next % |w.slots|); r.next == w.next + 1 && InWindow(r, 0)
  {
    var i := w.next % |w.slots|;
    assert SlotOk(w, i, 0);
    SameSlot(|w.slots|, w.next, w.slots[i].value.id);
    var r := Free(w, i);
    forall j | 0 <= j < |r.slots| ensures SlotOk(r, j, 0) {
      assert SlotOk(w, j, 0);
      if r.slots[j].Some? && r.slots[j].value.id == w.next {
        assert false;
      }
    }
  }

  /** Giving up a missing next chunk moves the window up by one. */
  lemma SkipNext(w: Win)
    requires InWindow(w, 0) && w.slots[w.next % |w.slots|].None?
    ensures InWindow(w.(next := w.next + 1), 0)
  {
    var r := w.(next := w.next + 1);
    forall j | 0 <= j < |r.slots| ensures SlotOk(r, j, 0) {
      assert SlotOk(w, j, 0);
    }
  }

  lemma {:induction false} FlushStepsOk(w: Win, k: nat)
    requires InWindow(w, 0) && forall i | 0 <= i < |w.slots| && w.slots[i].Some? :: w.slots[i].value.id < w.next + k
    ensures var r := FlushSteps(w, w.next % |w.slots|, k);
            && Inv(r) && r.next >= w.next
            && r.next - |r.log| == w.next - |w.log|
    decreases k
  {
    var i := w.next % |w.slots|;
    if w.slots[i].Some? {
      assert SlotOk(w, i, 0);
      FreeNext(w);
      NextSlot(|w.slots|, w.next);
      FlushStepsOk(Free(w, i), k - 1);
    } else {
      forall j | 0 <= j < |w.slots| ensures SlotOk(w, j, 1) {
        assert SlotOk(w, j, 0);
      }
    }
  }

  lemma FlushOk(w: Win)
    requires InWindow(w, 0)
    ensures Inv(Flush(w)) && Flush(w).next >= w.next
    ensures Flush(w).next - |Flush(w).log| == w.next - |w.log|
  {
    forall i | 0 <= i < |w.slots| && w.slots[i].Some? ensures w.slots[i].value.id < w.next + |w.slots| {
      assert SlotOk(w, i, 0);
    }
    FlushStepsOk(w, |w.slots|);
  }

  lemma {:induction false} MakeRoomOk(w: Win, hi: int)
    requires InWindow(w, 0) && w.next <= hi + 1
    ensures var r := MakeRoom(w, w.next, hi); InWindow(r, 0) && r.next == hi + 1
    decreases hi + 1 - w.next
  {
    if w.next <= hi {
      var s := w.next % |w.slots|;
      if w.slots[s].Some? {
        FreeNext(w);
        MakeRoomOk(Free(w, s), hi);
      } else {
        SkipNext(w);
        MakeRoomOk(w.(next := w.next + 1), hi);
      }
    }
  }

  /** Where the chunks of a state are. */
  ghost predicate Holds(w: Win, c: Chunk) {
    c in w.log || Some(c) in w.slots
  }

  /** Every chunk of `r` is one of `w`, and the log only grew. */
  ghost predicate Moves(w: Win, r: Win) {
    && |w.log| <= |r.log| && r.log[..|w.log|] == w.log
    && forall c | Holds(r, c) :: Holds(w, c)
  }

  lemma {:induction false} FlushStepsMoves(w: Win, i: int, k: nat)
    requires 0 <= i < |w.slots|
    ensures Moves(w, FlushSteps(w, i, k))
    decreases k
  {
    if k > 0 && w.slots[i].Some? {
      var f := Free(w, i);
      FlushStepsMoves(f, (i + 1) % |w.slots|, k - 1);
      assert Moves(w, f);
    }
  }

  lemma {:induction false} MakeRoomMoves(w: Win, i: int, hi: int)
    requires |w.slots| > 0
    ensures Moves(w, MakeRoom(w, i, hi))
    decreases hi + 1 - i
  {
    if i <= hi {
      var s := i % |w.slots|;
      var f := if w.slots[s].Some? then Free(w, s) else w.(next := w.next + 1);
      MakeRoomMoves(f, i + 1, hi);
      assert Moves(w, f);
    }
  }

  /** Ids of a state lie below the end of its window. */
  lemma HeldBelow(w: Win, c: Chunk)
    requires Inv(w) && Holds(w, c)
    ensures c.id < w.next + |w.slots|
  {
    if Some(c) in w.slots {
      var i :| 0 <= i < |w.slots| && w.slots[i] == Some(c);
      assert SlotOk(w, i, 1);
    }
  }

  lemma Weaken(w: Win)
    requires Inv(w)
    ensures InWindow(w, 0)
  {
    forall i | 0 <= i < |w.slots| ensures SlotOk(w, i, 0) {
      assert SlotOk(w, i, 1);
    }
  }

  lemma MovesTransitive(a: Win, b: Win, c: Win)
    requires Moves(a, b) && Moves(b, c)
    ensures Moves(a, c)
  {
    assert c.log[..|a.log|] == c.log[..|b.log|][..|a.log|];
  }

  lemma FitOk(w: Win, c: Chunk)
    requires Inv(w) && c.id >= w.next
    ensures var r := Fit(w, c); Inv(r) && w.next <= r.next <= c.id < r.next + |r.slots| && Moves(w, r)
  {
    if c.id >= w.next + |w.slots| {
      Weaken(w);
      var hi := c.id - |w.slots|;
      var m := MakeRoom(w, w.next, hi);
      MakeRoomOk(w, hi);
      MakeRoomMoves(w, w.next, hi);
      forall i | 0 <= i < |m.slots| && m.slots[i].Some? ensures m.slots[i].value.id != c.id {
        assert Holds(m, m.slots[i].value);
        HeldBelow(w, m.slots[i].value);
      }
      FlushOk(m);
      FlushStays(m, c.id);
      FlushStepsMoves(m, m.next % |m.slots|, |m.slots|);
      MovesTransitive(w, m, Flush(m));
    }
  }

  /** A flush does not pass an id that no slot holds. */
  lemma FlushStays(w: Win, id: int)
    requires InWindow(w, 0) && w.next <= id
    requires forall i | 0 <= i < |w.slots| && w.slots[i].Some? :: w.slots[i].value.id != id
    ensures Flush(w).next <= id
  {
    FlushStepsStay(w, id, |w.slots|);
  }

  lemma {:induction false} FlushStepsStay(w: Win, id: int, k: nat)
    requires InWindow(w, 0) && w.next <= id
    requires forall i | 0 <= i < |w.slots| && w.slots[i].Some? :: w.slots[i].value.id != id
    ensures FlushSteps(w, w.next % |w.slots|, k).next <= id
    decreases k
  {
    var i := w.next % |w.slots|;
    if k > 0 && w.slots[i].Some? {
      FreeNext(w);
      NextSlot(|w.slots|, w.next);
      FlushStepsStay(Free(w, i), id, k - 1);
    }
  }

  /** The next chunk is played, and then what waits behind it. */
  lemma PlaysNext(w: Win, c: Chunk, m: Win)
    requires Inv(w) && c.id == w.next && m == Win(w.slots, w.next + 1, w.log + [c])
    ensures InWindow(m, 0) && Inv(Flush(m)) && Flush(m).next >= m.next
    ensures Flush(m).next - |Flush(m).log| == w.next - |w.log|
    ensures Moves(m, Flush(m)) && Flush(m).log[..|w.log|] == w.log
  {
    forall i | 0 <= i < |m.slots| ensures SlotOk(m, i, 0) {
      assert SlotOk(w, i, 1);
    }
    FlushOk(m);
    FlushStepsMoves(m, m.next % |m.slots|, |m.slots|);
    assert Flush(m).log[..|w.log|] == m.log[..|w.log|];
  }

  lemma PlaceOk(w: Win, c: Chunk)
    requires Inv(w) && w.next <= c.id < w.next + |w.slots|
    ensures var (r, v) := Place(w, c);
            && Inv(r) && r.next >= w.next && v != Crash
            && r.next - |r.log| == w.next - |w.log|
            && |w.log| <= |r.log| && r.log[..|w.log|] == w.log
            && (forall x | Holds(r, x) :: Holds(w, x) || x == c)
  {
    var s := c.id % |w.slots|;
    assert SlotOk(w, s, 1);
    if c.id == w.next {
      PlaysNext(w, c, Win(w.slots, w.next + 1, w.log + [c]));
    } else if w.slots[s].Some? {
      SameSlot(|w.slots|, c.id, w.slots[s].value.id);
    } else {
      var m := w.(slots := w.slots[s := Some(c)]);
      forall i | 0 <= i < |m.slots| ensures SlotOk(m, i, 1) {
        assert SlotOk(w, i, 1);
      }
    }
  }

  /** The window policy keeps its invariant, never comes to its crash, and never plays out of order. */
  lemma DeliverOk(w: Win, c: Chunk)
    requires Inv(w)
    ensures var (r, v) := Deliver(w, c);
            && Inv(r) && r.next >= w.next && v != Crash
            && |w.log| <= |r.log| && r.log[..|w.log|] == w.log
            && (forall x | Holds(r, x) :: Holds(w, x) || x == c)
  {
    if c.id >= w.next {
      var f := Fit(w, c);
      FitOk(w, c);
      PlaceOk(f, c);
      var r := Deliver(w, c).0;
      assert r.log[..|w.log|] == f.log[..|w.log|];
    }
  }
}
