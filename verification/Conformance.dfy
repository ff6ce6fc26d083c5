/** When a delivery of the code as written does what the window policy prescribes. */
module Conformance {
  import opened Chunks
  import O = Output
  import OutputOrder
  import W = Window
  import R = WindowRuns
  import Residues

  function Played(log: seq<O.Write>): seq<Chunk> {
    seq(|log|, i requires 0 <= i < |log| => log[i].c)
  }

  /** The state of the window policy that a state of the code stands for. */
  function Abs(o: O.Out): W.Win {
    W.Win(o.slots, o.played + 1, Played(o.log))
  }

  /** The guard, on the state before the call. */
  predicate Conforms(o: O.Out, first: int, c: Chunk)
    requires |o.slots| > 0 && o.played >= 0
  {
    var n, p, q := |o.slots|, o.played % |o.slots|, c.id % |o.slots|;
    || c.id <= o.played
    || (c.id == o.played + 1 && o.slots[(c.id + 1) % n].None?)
    || (o.played + 1 < c.id == first && n == 1)
    || (o.played + 1 < c.id <= o.played + n && c.id != first &&
        if o.slots[q].None? then p == 0 || p + 1 == n || (o.slots[0].None? && q != 0)
        else if p <= q then OutputOrder.NoneIn(o, p, q)
        else OutputOrder.NoneIn(o, 0, q))
  }

  /** The cleanup loop lengthens the log exactly if it finds a chunk, and otherwise does nothing. */
  lemma {:induction false} CleanScanIdle(o: O.Out, i: int, hi: int)
    requires 0 <= i && hi <= |o.slots|
    ensures var r := O.CleanScan(o, i, hi);
            && |r.log| >= |o.log|
            && (|r.log| == |o.log| <==> OutputOrder.NoneIn(o, i, hi))
            && (OutputOrder.NoneIn(o, i, hi) ==> r == o)
    decreases hi - i
  {
    if i < hi {
      if o.slots[i].Some? {
        CleanScanIdle(O.Free(o, i).(played := o.slots[i].value.id), i + 1, hi);
      } else {
        CleanScanIdle(o, i + 1, hi);
      }
    }
  }

  /** An in-order chunk: the policy goes on with what waits in the slots. */
  lemma InOrder(o: O.Out, first: int, c: Chunk)
    requires O.Inv(o) && o.played >= 0 && W.Inv(Abs(o)) && c.id == o.played + 1
    ensures Abs(O.Deliver(o, first, c).out) == W.Deliver(Abs(o), c).0 <==> o.slots[(c.id + 1) % |o.slots|].None?
  {
    var a, r := Abs(o), O.Deliver(o, first, c).out;
    var m := W.Win(a.slots, a.next + 1, a.log + [c]);
    assert Abs(r) == m;
    if o.slots[(c.id + 1) % |o.slots|].Some? {
      var i := m.next % |m.slots|;
      W.FlushStepsMoves(W.Free(m, i), (i + 1) % |m.slots|, |m.slots| - 1);
      assert |W.Flush(m).log| > |m.log|;
    }
  }

  function Next(p: int, n: int): int {
    if p + 1 == n then 0 else p + 1
  }

  /** The slot of the next chunk is empty and no other id of the window belongs there. */
  lemma NextSlotFree(o: O.Out, id: int)
    requires O.Inv(o) && o.played >= 0 && W.Inv(Abs(o)) && o.played + 1 < id <= o.played + |o.slots|
    ensures var s := (o.played + 1) % |o.slots|;
            o.slots[s].None? && id % |o.slots| != s && s == Next(o.played % |o.slots|, |o.slots|)
  {
    var n := |o.slots|;
    var s := (o.played + 1) % n;
    assert W.SlotOk(Abs(o), s, 1);
    Residues.NextSlot(n, o.played);
    if id % n == s {
      Residues.SameSlot(n, o.played + 1, id);
      assert false;
    }
    if o.slots[s].Some? {
      Residues.SameSlot(n, o.played + 1, o.slots[s].value.id);
      assert false;
    }
  }

  /** A flush with nothing at the next slot: only its second loop can find something. */
  lemma FlushWithoutNext(s: O.Out)
    requires |s.slots| > 0 && s.played >= 0
    requires s.slots[Next(s.played % |s.slots|, |s.slots|)].None?
    ensures var p := s.played % |s.slots|;
            Abs(O.Flush(s)) == Abs(s) <==> p == 0 || p + 1 == |s.slots| || s.slots[0].None?
  {
    var n, p := |s.slots|, s.played % |s.slots|;
    assert O.FlushScan(s, p + 1, n) == s;
    OutputOrder.FlushScanGrows(s, 0, p);
  }

  /** An early chunk with a free slot: the policy only stores it. */
  lemma EarlyFree(o: O.Out, first: int, c: Chunk)
    requires O.Inv(o) && o.played >= 0 && W.Inv(Abs(o)) && c.id != first
    requires o.played + 1 < c.id <= o.played + |o.slots| && o.slots[c.id % |o.slots|].None?
    ensures Abs(O.Deliver(o, first, c).out) == W.Deliver(Abs(o), c).0 <==> Conforms(o, first, c)
  {
    var q := c.id % |o.slots|;
    var s := O.Noted(o, c).(slots := o.slots[q := Some(c)]);
    NextSlotFree(o, c.id);
    FlushWithoutNext(s);
  }

  /** An early chunk whose slot is taken is a duplicate; the policy ignores it. */
  lemma EarlyTaken(o: O.Out, first: int, c: Chunk)
    requires O.Inv(o) && o.played >= 0 && W.Inv(Abs(o)) && c.id != first
    requires o.played + 1 < c.id <= o.played + |o.slots| && o.slots[c.id % |o.slots|].Some?
    ensures O.Deliver(o, first, c).Done?
    ensures Abs(O.Deliver(o, first, c).out) == W.Deliver(Abs(o), c).0 <==> Conforms(o, first, c)
  {
    var p, q := o.played % |o.slots|, c.id % |o.slots|;
    var m := O.Noted(o, c);
    assert W.SlotOk(Abs(o), q, 1);
    assert W.Deliver(Abs(o), c).0 == Abs(o) == Abs(m);
    CleanScanIdle(m, p, q);
    CleanScanIdle(m, 0, q);
  }

  /** The policy keeps a chunk that it has not seen and that is not too old. */
  lemma PolicyTakes(w: W.Win, c: Chunk)
    requires W.Inv(w) && c.id >= w.next + |w.slots|
    ensures W.Holds(W.Deliver(w, c).0, c) && W.Deliver(w, c).0.next > w.next
  {
    var f := W.Fit(w, c);
    W.FitOk(w, c);
    W.PlaceOk(f, c);
    var s := c.id % |w.slots|;
    if c.id == f.next {
      var m := W.Win(f.slots, f.next + 1, f.log + [c]);
      W.FlushStepsMoves(m, m.next % |m.slots|, |m.slots|);
      var r := W.Flush(m);
      assert r.log[|f.log|] == m.log[|f.log|] == c;
    } else if f.slots[s].Some? {
      assert W.Holds(f, f.slots[s].value);
      W.HeldBelow(w, f.slots[s].value);
      assert false;
    } else {
      assert W.Place(f, c).0.slots[s] == Some(c);
    }
  }

  /** Draining slots brings in no chunk. */
  lemma DrainedHolds(o: O.Out, r: O.Out, x: Chunk)
    requires O.Drained(o, r) && W.Holds(Abs(r), x)
    ensures W.Holds(Abs(o), x)
  {
    if x in Abs(r).log {
      var k :| 0 <= k < |r.log| && r.log[k].c == x;
      if k < |o.log| {
        assert r.log[..|o.log|][k] == o.log[k];
        assert Abs(o).log[k] == x;
      }
    } else {
      var i :| 0 <= i < |r.slots| && r.slots[i] == Some(x);
      assert o.slots[i] == r.slots[i];
    }
  }

  /** Beyond the window the code either stays where it is or loses the chunk. */
  lemma BeyondWindow(o: O.Out, first: int, c: Chunk)
    requires O.Inv(o) && o.played >= 0 && W.Inv(Abs(o)) && c.id != first && c.id > o.played + |o.slots|
    ensures O.Deliver(o, first, c).Done?
    ensures Abs(O.Deliver(o, first, c).out) != W.Deliver(Abs(o), c).0
  {
    var a, q := Abs(o), c.id % |o.slots|;
    PolicyTakes(a, c);
    O.OutOfBoundsIff(o, first, c);
    var r := O.Deliver(o, first, c).out;
    if o.slots[q].None? {
      var s := O.Noted(o, c).(slots := o.slots[q := Some(c)]);
      O.DeliverInv(o, first, c);
      var p := o.played % |o.slots|;
      OutputOrder.FlushScanGrows(s, p + 1, |o.slots|);
      OutputOrder.FlushScanGrows(O.FlushScan(s, p + 1, |o.slots|), 0, p);
      assert r.played == o.played;
    } else {
      O.DeliverDrains(o, first, c);
      if W.Holds(Abs(r), c) {
        DrainedHolds(o, r, c);
        W.HeldBelow(a, c);
        assert false;
      }
    }
  }

  /** With one slot, making room for a chunk skips what is missing and nothing else. */
  lemma {:induction false} MakeRoomEmpty(w: W.Win, i: int, hi: int)
    requires |w.slots| == 1 && w.slots[0].None? && i <= hi + 1
    ensures W.MakeRoom(w, i, hi) == w.(next := w.next + hi + 1 - i)
    decreases hi + 1 - i
  {
    if i <= hi {
      MakeRoomEmpty(w.(next := w.next + 1), i + 1, hi);
    }
  }

  /** With more slots, by the time a chunk beyond the window is next, others were played. */
  lemma FitPlaysOthers(w: W.Win, c: Chunk)
    requires W.Inv(w) && |w.slots| > 1 && c.id > w.next
    ensures var f := W.Fit(w, c); c.id == f.next ==> |f.log| > |w.log|
  {
    var n := |w.slots|;
    if c.id >= w.next + n {
      W.Weaken(w);
      var m := W.MakeRoom(w, w.next, c.id - n);
      W.MakeRoomOk(w, c.id - n);
      W.MakeRoomMoves(w, w.next, c.id - n);
      W.FlushOk(m);
    }
  }

  /** The first chunk ahead of its turn: the code writes it at once and skips what lies between. */
  lemma FirstJumpIff(o: O.Out, c: Chunk)
    requires O.Inv(o) && o.played >= 0 && W.Inv(Abs(o)) && c.id > o.played + 1
    ensures O.Deliver(o, c.id, c).Done?
    ensures Abs(O.Deliver(o, c.id, c).out) == W.Deliver(Abs(o), c).0 <==> |o.slots| == 1
  {
    var a := Abs(o);
    var f := W.Fit(a, c);
    assert Abs(O.Deliver(o, c.id, c).out) == W.Win(a.slots, c.id + 1, a.log + [c]);
    if |o.slots| == 1 {
      assert W.SlotOk(a, 0, 1);
      MakeRoomEmpty(a, a.next, c.id - 1);
      assert W.Deliver(a, c).0 == W.Win(a.slots, c.id + 1, a.log + [c]);
    } else {
      W.FitOk(a, c);
      FitPlaysOthers(a, c);
      var m := W.Win(f.slots, f.next + 1, f.log + [c]);
      W.FlushStepsMoves(m, m.next % |m.slots|, |m.slots|);
      if c.id == f.next {
        assert |W.Place(f, c).0.log| > |a.log| + 1;
      } else {
        assert W.Place(f, c).0.next != c.id + 1;
      }
    }
  }

  /** Exactly when the code as written does what the policy prescribes, once something was played. */
  lemma ConformsIff(o: O.Out, first: int, c: Chunk)
    requires O.Inv(o) && o.played >= 0 && W.Inv(Abs(o))
    ensures O.Deliver(o, first, c).Done?
    ensures Abs(O.Deliver(o, first, c).out) == W.Deliver(Abs(o), c).0 <==> Conforms(o, first, c)
  {
    if c.id == o.played + 1 {
      InOrder(o, first, c);
    } else if c.id == first && c.id > o.played {
      FirstJumpIff(o, c);
    } else if o.played + 1 < c.id <= o.played + |o.slots| {
      if o.slots[c.id % |o.slots|].None? {
        EarlyFree(o, first, c);
      } else {
        EarlyTaken(o, first, c);
      }
    } else if c.id > o.played {
      BeyondWindow(o, first, c);
    }
  }

  // ---- Whole runs ----

  function ChunksOf(ds: seq<O.Delivery>): seq<Chunk> {
    seq(|ds|, i requires 0 <= i < |ds| => ds[i].c)
  }

  /** The guard holds at every delivery of a run of the code. */
  predicate GuardsHold(o: O.Out, ds: seq<O.Delivery>)
    requires O.Inv(o) && o.played >= 0
    decreases |ds|
  {
    ds == [] ||
    (O.NeverOutOfBoundsAgain(o, ds);
     O.DeliverInv(o, ds[0].first, ds[0].c);
     Conforms(o, ds[0].first, ds[0].c) && GuardsHold(O.Deliver(o, ds[0].first, ds[0].c).out, ds[1..]))
  }

  /** Code and policy agree after every delivery of a run. */
  predicate AgreeThroughout(o: O.Out, w: W.Win, ds: seq<O.Delivery>)
    requires O.Inv(o) && o.played >= 0 && |w.slots| > 0
    decreases |ds|
  {
    && Abs(o) == w
    && (ds == [] ||
        (O.NeverOutOfBoundsAgain(o, ds);
         O.DeliverInv(o, ds[0].first, ds[0].c);
         AgreeThroughout(O.Deliver(o, ds[0].first, ds[0].c).out, W.Deliver(w, ds[0].c).0, ds[1..])))
  }

  lemma {:induction false} RunConformsIff(o: O.Out, ds: seq<O.Delivery>)
    requires O.Inv(o) && o.played >= 0 && W.Inv(Abs(o))
    ensures AgreeThroughout(o, Abs(o), ds) <==> GuardsHold(o, ds)
    ensures GuardsHold(o, ds) ==>
              O.Run(o, ds).Done? && Abs(O.Run(o, ds).out) == R.Run(Abs(o), ChunksOf(ds))
    decreases |ds|
  {
    if ds != [] {
      var (first, c) := (ds[0].first, ds[0].c);
      O.NeverOutOfBoundsAgain(o, ds);
      O.DeliverInv(o, first, c);
      ConformsIff(o, first, c);
      assert ChunksOf(ds)[1..] == ChunksOf(ds[1..]);
      if Conforms(o, first, c) {
        W.DeliverOk(Abs(o), c);
        RunConformsIff(O.Deliver(o, first, c).out, ds[1..]);
      }
    }
  }
}
