/**
 The window policy loses nothing: whatever arrives in time for its turn is played or waits,
 also when a chunk beyond the window makes it give up the ids before.
*/
module WindowKeeps {
  import opened Chunks
  import opened Window
  import opened Residues
  import opened WindowRuns

  /** A chunk with this id was played or waits in a slot. */
  ghost predicate HoldsId(w: Win, id: int) {
    exists c :: Holds(w, c) && c.id == id
  }

  ghost predicate Keeps(w: Win, r: Win) {
    forall c | Holds(w, c) :: Holds(r, c)
  }

  lemma FreeKeeps(w: Win, i: int)
    requires 0 <= i < |w.slots| && w.slots[i].Some?
    ensures Keeps(w, Free(w, i))
  {
    var r := Free(w, i);
    forall c | Holds(w, c) ensures Holds(r, c) {
      if Some(c) in w.slots {
        var j :| 0 <= j < |w.slots| && w.slots[j] == Some(c);
        assert j != i ==> r.slots[j] == Some(c);
      }
    }
  }

  lemma {:induction false} FlushStepsKeeps(w: Win, i: int, k: nat)
    requires 0 <= i < |w.slots|
    ensures Keeps(w, FlushSteps(w, i, k))
    decreases k
  {
    if k > 0 && w.slots[i].Some? {
      FreeKeeps(w, i);
      FlushStepsKeeps(Free(w, i), (i + 1) % |w.slots|, k - 1);
    }
  }

  lemma FlushKeeps(w: Win)
    requires |w.slots| > 0
    ensures Keeps(w, Flush(w))
  {
    FlushStepsKeeps(w, w.next % |w.slots|, |w.slots|);
  }

  lemma {:induction false} MakeRoomKeeps(w: Win, i: int, hi: int)
    requires |w.slots| > 0
    ensures Keeps(w, MakeRoom(w, i, hi))
    decreases hi + 1 - i
  {
    if i <= hi {
      var s := i % |w.slots|;
      if w.slots[s].Some? {
        FreeKeeps(w, s);
        MakeRoomKeeps(Free(w, s), i + 1, hi);
      } else {
        MakeRoomKeeps(w.(next := w.next + 1), i + 1, hi);
      }
    }
  }

  lemma FitKeeps(w: Win, c: Chunk)
    requires |w.slots| > 0
    ensures Keeps(w, Fit(w, c))
  {
    if c.id >= w.next + |w.slots| {
      MakeRoomKeeps(w, w.next, c.id - |w.slots|);
      FlushKeeps(MakeRoom(w, w.next, c.id - |w.slots|));
    }
  }

  /** What there was is kept, and a chunk that is accepted is there. */
  lemma PlaceKeeps(w: Win, c: Chunk)
    requires |w.slots| > 0
    ensures Keeps(w, Place(w, c).0)
    ensures Place(w, c).1 == Accepted ==> Holds(Place(w, c).0, c)
  {
    var s, r := c.id % |w.slots|, Place(w, c).0;
    if c.id == w.next {
      FlushKeeps(Win(w.slots, w.next + 1, w.log + [c]));
    } else if w.slots[s].None? {
      assert r.slots[s] == Some(c);
      forall x | Holds(w, x) ensures Holds(r, x) {
        if Some(x) in w.slots {
          var j :| 0 <= j < |w.slots| && w.slots[j] == Some(x);
          assert r.slots[j] == Some(x);
        }
      }
    }
  }

  lemma DeliverKeeps(w: Win, c: Chunk)
    requires |w.slots| > 0
    ensures Keeps(w, Deliver(w, c).0)
    ensures c.id >= w.next && Deliver(w, c).1 == Accepted ==> Holds(Deliver(w, c).0, c)
  {
    if c.id >= w.next {
      FitKeeps(w, c);
      PlaceKeeps(Fit(w, c), c);
    }
  }

  // ---- Making room ----

  /** What becomes of the slots: the ids up to `hi` are played, the others stay where they are. */
  ghost predicate GivesUp(w: Win, hi: int, r: Win)
    requires |r.slots| == |w.slots|
  {
    && |w.log| <= |r.log| && r.log[..|w.log|] == w.log
    && forall i | 0 <= i < |w.slots| && w.slots[i].Some? ::
         if w.slots[i].value.id <= hi then w.slots[i].value in r.log && r.slots[i].None?
         else r.slots[i] == w.slots[i]
  }

  lemma {:induction false} MakeRoomExact(w: Win, hi: int)
    requires InWindow(w, 0) && w.next <= hi + 1
    ensures GivesUp(w, hi, MakeRoom(w, w.next, hi))
    decreases hi + 1 - w.next
  {
    var r := MakeRoom(w, w.next, hi);
    if w.next > hi {
      forall i | 0 <= i < |w.slots| && w.slots[i].Some? ensures w.slots[i].value.id > hi {
        assert SlotOk(w, i, 0);
      }
    } else {
      var s := w.next % |w.slots|;
      if w.slots[s].Some? {
        var f := Free(w, s);
        FreeNext(w);
        MakeRoomExact(f, hi);
        FirstGivenUp(w, s, f, hi, r);
      } else {
        SkipNext(w);
        MakeRoomExact(w.(next := w.next + 1), hi);
      }
    }
  }

  lemma FirstGivenUp(w: Win, s: int, f: Win, hi: int, r: Win)
    requires InWindow(w, 0) && s == w.next % |w.slots| && w.slots[s].Some? && f == Free(w, s) && w.next <= hi
    requires |r.slots| == |w.slots| && GivesUp(f, hi, r) && MakeRoom(f, f.next, hi) == r
    requires InWindow(f, 0) && f.next == w.next + 1
    ensures GivesUp(w, hi, r)
  {
    var c := w.slots[s].value;
    assert SlotOk(w, s, 0);
    assert r.log[..|w.log|] == r.log[..|f.log|][..|w.log|];
    assert r.log[|w.log|] == r.log[..|f.log|][|w.log|] == c;
    assert f.slots[s].None?;
    MakeRoomStaysEmpty(f, f.next, hi, s);
    forall i | 0 <= i < |w.slots| && w.slots[i].Some? && i != s ensures f.slots[i] == w.slots[i] {
    }
  }

  lemma {:induction false} MakeRoomStaysEmpty(w: Win, i: int, hi: int, s: int)
    requires |w.slots| > 0 && 0 <= s < |w.slots| && w.slots[s].None?
    ensures MakeRoom(w, i, hi).slots[s].None?
    decreases hi + 1 - i
  {
    if i <= hi {
      var t := i % |w.slots|;
      MakeRoomStaysEmpty(if w.slots[t].Some? then Free(w, t) else w.(next := w.next + 1), i + 1, hi, s);
    }
  }

  // ---- Where `next` comes to stand ----

  /** A flush passes by no id that is missing. */
  lemma {:induction false} FlushStepsPlay(w: Win, k: nat, id: int)
    requires InWindow(w, 0) && w.next <= id < FlushSteps(w, w.next % |w.slots|, k).next
    ensures SlotHas(w, id)
    decreases k
  {
    var i := w.next % |w.slots|;
    if k > 0 && w.slots[i].Some? {
      assert SlotOk(w, i, 0);
      FreeNext(w);
      NextSlot(|w.slots|, w.next);
      SameSlot(|w.slots|, w.next, w.slots[i].value.id);
      if id > w.next {
        FlushStepsPlay(Free(w, i), k - 1, id);
      }
    }
  }

  lemma SlotIsHeld(w: Win, id: int)
    requires |w.slots| > 0 && SlotHas(w, id)
    ensures HoldsId(w, id)
  {
    assert w.slots[id % |w.slots|] in w.slots;
    assert Holds(w, w.slots[id % |w.slots|].value);
  }

  lemma KeepsId(w: Win, r: Win, id: int)
    requires Keeps(w, r) && HoldsId(w, id)
    ensures HoldsId(r, id)
  {
    var c :| Holds(w, c) && c.id == id;
    assert Holds(r, c);
  }

  /** The first id that a chunk beyond the window leaves in it, or the next to play. */
  function Base(w: Win, c: Chunk): int {
    if c.id >= w.next + |w.slots| then c.id - |w.slots| + 1 else w.next
  }

  lemma FitNext(w: Win, c: Chunk, id: int)
    requires Inv(w) && c.id >= w.next
    ensures Base(w, c) <= Fit(w, c).next
    ensures Base(w, c) <= id < Fit(w, c).next ==> HoldsId(w, id)
  {
    if c.id >= w.next + |w.slots| {
      Weaken(w);
      var hi := c.id - |w.slots|;
      var m := MakeRoom(w, w.next, hi);
      MakeRoomOk(w, hi);
      FlushOk(m);
      if Base(w, c) <= id < Fit(w, c).next {
        FlushStepsPlay(m, |m.slots|, id);
        SlotIsHeld(m, id);
        MakeRoomMoves(w, w.next, hi);
        var x :| Holds(m, x) && x.id == id;
        assert Holds(w, x);
      }
    }
  }

  lemma PlaceNext(w: Win, c: Chunk, id: int)
    requires Inv(w) && w.next <= c.id < w.next + |w.slots|
    ensures w.next <= Place(w, c).0.next
    ensures w.next <= id < Place(w, c).0.next ==> id == c.id || HoldsId(w, id)
  {
    if c.id == w.next {
      var m := Win(w.slots, w.next + 1, w.log + [c]);
      PlaysNext(w, c, m);
      if m.next <= id < Flush(m).next {
        FlushStepsPlay(m, |m.slots|, id);
        assert SlotHas(w, id);
        SlotIsHeld(w, id);
      }
    }
  }

  lemma NextIsMissing(w: Win)
    requires Inv(w)
    ensures !HoldsId(w, w.next)
  {
    forall c | Holds(w, c) ensures c.id != w.next {
      if Some(c) in w.slots {
        var i :| 0 <= i < |w.slots| && w.slots[i] == Some(c);
        assert SlotOk(w, i, 1);
      }
    }
  }

  // ---- One delivery ----

  /** Exactly which ids are held after a delivery. */
  lemma DeliverHoldsIff(w: Win, c: Chunk, id: int)
    requires Inv(w)
    ensures HoldsId(Deliver(w, c).0, id) <==> HoldsId(w, id) || (id == c.id && c.id >= w.next)
  {
    var r := Deliver(w, c).0;
    DeliverOk(w, c);
    DeliverKeeps(w, c);
    if HoldsId(w, id) {
      KeepsId(w, r, id);
    }
    if id == c.id && c.id >= w.next {
      TakesIn(w, c);
    }
    if HoldsId(r, id) && c.id < w.next {
      assert r == w;
    }
  }

  /** A chunk not too old is there afterwards, or was there with its id before. */
  lemma TakesIn(w: Win, c: Chunk)
    requires Inv(w) && c.id >= w.next
    ensures HoldsId(Deliver(w, c).0, c.id)
  {
    var f, r := Fit(w, c), Deliver(w, c).0;
    DeliverOk(w, c);
    DeliverKeeps(w, c);
    if Deliver(w, c).1 == Accepted {
      assert Holds(r, c);
    } else {
      FitOk(w, c);
      assert r == f && SlotHas(f, c.id);
      SlotIsHeld(f, c.id);
    }
  }

  /** `next` comes to stand at the first id from the base on that is missing. */
  lemma DeliverNext(w: Win, c: Chunk)
    requires Inv(w) && c.id >= w.next
    ensures var r := Deliver(w, c).0;
            && Base(w, c) <= r.next && !HoldsId(r, r.next)
            && forall id | Base(w, c) <= id < r.next :: HoldsId(r, id)
  {
    var f, r := Fit(w, c), Deliver(w, c).0;
    DeliverOk(w, c);
    NextIsMissing(r);
    FitOk(w, c);
    FitNext(w, c, 0);
    PlaceNext(f, c, 0);
    forall id | Base(w, c) <= id < r.next ensures HoldsId(r, id) {
      FitNext(w, c, id);
      PlaceNext(f, c, id);
      DeliverHoldsIff(w, c, id);
      if f.next <= id && id != c.id {
        var x :| Holds(f, x) && x.id == id;
        assert Holds(w, x);
      }
    }
  }

  // ---- Whole runs ----

  /** The ids that arrive at or above the next to play, whatever became of the window. */
  function TakenIds(w: Win, cs: seq<Chunk>): set<int>
    requires |w.slots| > 0
    decreases |cs|
  {
    if cs == [] then {}
    else (if cs[0].id >= w.next then {cs[0].id} else {}) + TakenIds(Deliver(w, cs[0]).0, cs[1..])
  }

  lemma {:induction false} RunHoldsIff(w: Win, cs: seq<Chunk>, id: int)
    requires Inv(w)
    ensures HoldsId(Run(w, cs), id) <==> HoldsId(w, id) || id in TakenIds(w, cs)
    decreases |cs|
  {
    if cs != [] {
      DeliverOk(w, cs[0]);
      DeliverHoldsIff(w, cs[0], id);
      RunHoldsIff(Deliver(w, cs[0]).0, cs[1..], id);
    }
  }

  /** Chunks below `next` were played, those above wait in their slots. */
  lemma PlayedIff(w: Win, id: int)
    requires Inv(w)
    ensures (exists c | c in w.log :: c.id == id) <==> HoldsId(w, id) && id < w.next
    ensures SlotHas(w, id) <==> HoldsId(w, id) && id >= w.next
  {
    if SlotHas(w, id) {
      assert SlotOk(w, id % |w.slots|, 1);
      SlotIsHeld(w, id);
    }
    if c :| c in w.log && c.id == id {
      assert Holds(w, c);
    }
    if HoldsId(w, id) {
      var c :| Holds(w, c) && c.id == id;
      if c !in w.log {
        var i :| 0 <= i < |w.slots| && w.slots[i] == Some(c);
        assert SlotOk(w, i, 1);
      }
    }
  }

  /**
   Any run from the start, jumps and duplicates included: of the ids that arrived in time for
   their turn, those below `next` are what was played, in rising order, and the others are
   what waits.
  */
  lemma NothingLost(size: nat, first: nat, cs: seq<Chunk>)
    requires size > 0
    ensures var w, r := Start(size, first), Run(Start(size, first), cs);
            && Increasing(r.log)
            && (forall id :: (exists c | c in r.log :: c.id == id) <==> id in TakenIds(w, cs) && id < r.next)
            && (forall id :: SlotHas(r, id) <==> id in TakenIds(w, cs) && id >= r.next)
  {
    var w, r := Start(size, first), Run(Start(size, first), cs);
    StartOk(size, first);
    RunOk(w, cs);
    forall id ensures HoldsId(r, id) <==> id in TakenIds(w, cs) {
      RunHoldsIff(w, cs, id);
      NothingAtFirst(size, first, id);
    }
    forall id ensures (exists c | c in r.log :: c.id == id) <==> id in TakenIds(w, cs) && id < r.next {
      PlayedIff(r, id);
    }
    forall id ensures SlotHas(r, id) <==> id in TakenIds(w, cs) && id >= r.next {
      PlayedIff(r, id);
    }
  }

  lemma NothingAtFirst(size: nat, first: nat, id: int)
    ensures !HoldsId(Start(size, first), id)
  {
  }

  /** With four slots and 0 awaited, 1 and 2 wait; 6 arrives and they are played. */
  lemma JumpPlaysWaiting(c1: Chunk, c2: Chunk, c6: Chunk)
    requires c1.id == 1 && c2.id == 2 && c6.id == 6
    ensures Run(Start(4, 0), [c1, c2, c6]).log == [c1, c2]
  {
    var w1 := Win([None, Some(c1), None, None], 0, []);
    var w2 := Win([None, Some(c1), Some(c2), None], 0, []);
    var m := Win([None, None, None, None], 3, [c1, c2]);
    assert Deliver(Start(4, 0), c1).0 == w1;
    assert Deliver(w1, c2).0 == w2;
    JumpMakesRoom(w2, c1, c2, m);
    assert Fit(w2, c6) == m;
    assert [c1, c2, c6][1..] == [c2, c6] && [c2, c6][1..] == [c6] && [c6][1..] == [];
    var w3 := Deliver(w2, c6).0;
    assert w3.log == [c1, c2];
    assert Run(w3, []) == w3;
    assert Run(w2, [c6]) == w3;
    assert Run(w1, [c2, c6]) == w3;
  }

  lemma JumpMakesRoom(w: Win, c1: Chunk, c2: Chunk, m: Win)
    requires c1.id == 1 && c2.id == 2 && w == Win([None, Some(c1), Some(c2), None], 0, [])
    requires m == Win([None, None, None, None], 3, [c1, c2])
    ensures MakeRoom(w, 0, 2) == m
  {
    var a := w.(next := 1);
    var b := Free(a, 1);
    assert Free(b, 2) == m;
    assert MakeRoom(m, 3, 2) == m;
    assert MakeRoom(b, 2, 2) == m;
    assert MakeRoom(a, 1, 2) == m;
  }
}
