/**
 When the reorder buffer, as the code stands, plays a stream without a gap from its first
 chunk on, and when it leaves nothing behind in its slots.
*/
module OutputComplete {
  import opened Chunks
  import opened Output
  import opened OutputOrder
  import opened Residues

  /** The chunks have the ids from `id` on. */
  predicate Consecutive(cs: seq<Chunk>, id: int) {
    forall k | 0 <= k < |cs| :: cs[k].id == id + k
  }

  /** What was written so far has the ids from `f` on. */
  predicate Contiguous(o: Out, f: int) {
    forall k | 0 <= k < |o.log| :: o.log[k].c.id == f + k
  }

  /** The first empty slot from `i` on, or `hi`. */
  function RunEnd(slots: seq<Option<Chunk>>, i: int, hi: int): (e: int)
    requires 0 <= i && hi <= |slots|
    ensures i <= e && (e <= hi || e == i)
    ensures forall j | i <= j < e :: slots[j].Some?
    ensures e < hi ==> slots[e].None?
    decreases hi - i
  {
    if i < hi && slots[i].Some? then RunEnd(slots, i + 1, hi) else i
  }

  /** Either loop of the flush writes and clears the occupied slots up to the first empty one. */
  lemma {:induction false} FlushScanWrites(o: Out, i: int, hi: int)
    requires 0 <= i <= |o.slots| && hi <= |o.slots|
    ensures var r, e := FlushScan(o, i, hi), RunEnd(o.slots, i, hi);
            && r.log == o.log + FromSlots(Occupied(o.slots, i, e))
            && r.played == o.played && r.maximum == o.maximum
            && (forall j | 0 <= j < |o.slots| :: r.slots[j] == if i <= j < e then None else o.slots[j])
    decreases hi - i
  {
    if i < hi && o.slots[i].Some? {
      var f, e := Free(o, i), RunEnd(o.slots, i, hi);
      FlushScanWrites(f, i + 1, hi);
      RunEndFrame(f.slots, o.slots, i + 1, hi);
      OccupiedFrame(f.slots, o.slots, i + 1, e);
      WritesOn(o.log, o.slots[i].value, Occupied(o.slots, i + 1, e));
    }
  }

  lemma {:induction false} RunEndFrame(a: seq<Option<Chunk>>, b: seq<Option<Chunk>>, i: int, hi: int)
    requires 0 <= i && hi <= |a| == |b| && forall j | i <= j < hi :: a[j] == b[j]
    ensures RunEnd(a, i, hi) == RunEnd(b, i, hi)
    decreases hi - i
  {
    if i < hi {
      RunEndFrame(a, b, i + 1, hi);
    }
  }

  /** The chunks that a flush writes: those right behind slot `p`, then those from slot 0 on. */
  function FirstRun(slots: seq<Option<Chunk>>, p: int): seq<Chunk>
    requires -1 <= p < |slots|
  {
    Occupied(slots, p + 1, RunEnd(slots, p + 1, |slots|))
  }

  function SecondRun(slots: seq<Option<Chunk>>, p: int): seq<Chunk>
    requires -1 <= p < |slots|
  {
    Occupied(slots, 0, RunEnd(slots, 0, p))
  }

  /** The slot belongs to either run. */
  predicate InRuns(slots: seq<Option<Chunk>>, p: int, j: int)
    requires -1 <= p < |slots|
  {
    p + 1 <= j < RunEnd(slots, p + 1, |slots|) || 0 <= j < RunEnd(slots, 0, p)
  }

  lemma SlotOfPlayed(o: Out)
    requires |o.slots| > 0 && o.played >= -1
    ensures -1 <= CMod(o.played, |o.slots|) < |o.slots|
    ensures o.played >= 0 ==> CMod(o.played, |o.slots|) >= 0
  {
    assert |o.slots| > 1 ==> 1 % |o.slots| == 1;
  }

  /** The second loop finds the slots before the playout position as the first one found them. */
  lemma SecondRunFrame(a: Out, o: Out, p: int)
    requires -1 <= p < |o.slots| == |a.slots| && forall j | 0 <= j < p :: a.slots[j] == o.slots[j]
    ensures RunEnd(a.slots, 0, p) == RunEnd(o.slots, 0, p) && SecondRun(a.slots, p) == SecondRun(o.slots, p)
  {
    RunEndFrame(a.slots, o.slots, 0, p);
    OccupiedFrame(a.slots, o.slots, 0, RunEnd(o.slots, 0, p));
  }

  lemma TwoAppends(log: seq<Write>, x: seq<Chunk>, y: seq<Chunk>)
    ensures (log + FromSlots(x)) + FromSlots(y) == log + FromSlots(x + y)
  {
  }

  lemma FlushWrites(o: Out)
    requires |o.slots| > 0 && o.played >= -1
    ensures var p, r := CMod(o.played, |o.slots|), Flush(o);
            && -1 <= p < |o.slots|
            && r.log == o.log + FromSlots(FirstRun(o.slots, p) + SecondRun(o.slots, p))
            && r.played == o.played
            && forall j | 0 <= j < |o.slots| :: r.slots[j] == if InRuns(o.slots, p, j) then None else o.slots[j]
  {
    var n, p := |o.slots|, CMod(o.played, |o.slots|);
    SlotOfPlayed(o);
    var a := FlushScan(o, p + 1, n);
    FlushScanWrites(o, p + 1, n);
    FlushScanWrites(a, 0, p);
    SecondRunFrame(a, o, p);
    TwoAppends(o.log, FirstRun(o.slots, p), SecondRun(o.slots, p));
  }

  lemma CleanupWrites(o: Out, q: int)
    requires o.played >= -1 && 0 <= q < |o.slots|
    ensures Cleanup(o, q).Done? <==> CMod(o.played, |o.slots|) >= 0
    ensures Cleanup(o, q).Done? ==>
              var p, r := CMod(o.played, |o.slots|), Cleanup(o, q).out;
              var lo := if q < p then 0 else p;
              var cs := Occupied(o.slots, lo, q);
              && r.log == o.log + FromSlots(cs)
              && r.played == LastId(cs, o.played)
              && forall j | 0 <= j < |o.slots| :: r.slots[j] == if lo <= j < q then None else o.slots[j]
  {
    var p := CMod(o.played, |o.slots|);
    if p >= 0 {
      CleanScanWrites(o, if q < p then 0 else p, q);
    }
  }

  // ---- One delivery ----

  /** The guard, on the state before the call: what the delivery writes goes on from the last id written. */
  predicate KeepsContiguous(o: Out, f: int, first: int, c: Chunk)
    requires |o.slots| > 0 && o.played >= -1
  {
    var n, next, q := |o.slots|, f + |o.log|, c.id % |o.slots|;
    var p := CMod(o.played, n);
    if c.id <= o.played then true
    else if c.id == first || c.id == o.played + 1 then c.id == next
    else if o.slots[q].None? then
      var s := o.slots[q := Some(c)];
      -1 <= p < n && Consecutive(FirstRun(s, p), next) && Consecutive(SecondRun(s, p), next + |FirstRun(s, p)|)
    else 0 <= p && Consecutive(Occupied(o.slots, if q < p then 0 else p, q), next)
  }

  lemma ContinuesIff(o: Out, r: Out, f: int, cs: seq<Chunk>)
    requires Contiguous(o, f) && r.log == o.log + FromSlots(cs)
    ensures Contiguous(r, f) <==> Consecutive(cs, f + |o.log|)
  {
    if Contiguous(r, f) {
      forall k | 0 <= k < |cs| ensures cs[k].id == f + |o.log| + k {
        assert r.log[|o.log| + k] == FromSlot(cs[k]);
      }
    }
  }

  lemma ConsecutiveConcat(a: seq<Chunk>, b: seq<Chunk>, id: int)
    ensures Consecutive(a + b, id) <==> Consecutive(a, id) && Consecutive(b, id + |a|)
  {
    if Consecutive(a + b, id) {
      forall k | 0 <= k < |a| ensures a[k].id == id + k {
        assert (a + b)[k] == a[k];
      }
      forall k | 0 <= k < |b| ensures b[k].id == id + |a| + k {
        assert (a + b)[|a| + k] == b[k];
      }
    }
  }

  lemma FlushContiguousIff(s: Out, f: int)
    requires |s.slots| > 0 && s.played >= -1 && Contiguous(s, f)
    ensures var p, next := CMod(s.played, |s.slots|), f + |s.log|;
            && -1 <= p < |s.slots|
            && (Contiguous(Flush(s), f) <==>
                Consecutive(FirstRun(s.slots, p), next) &&
                Consecutive(SecondRun(s.slots, p), next + |FirstRun(s.slots, p)|))
  {
    FlushWrites(s);
    var p := CMod(s.played, |s.slots|);
    var x, y := FirstRun(s.slots, p), SecondRun(s.slots, p);
    ContinuesIff(s, Flush(s), f, x + y);
    ConsecutiveConcat(x, y, f + |s.log|);
  }

  lemma DirectContiguousIff(o: Out, f: int, c: Chunk, r: Out)
    requires Contiguous(o, f) && r.log == o.log + [Direct(c)]
    ensures Contiguous(r, f) <==> c.id == f + |o.log|
  {
    assert r.log[|o.log|].c == c;
  }

  lemma DeliverContiguousIff(o: Out, f: int, first: int, c: Chunk)
    requires Inv(o) && Contiguous(o, f)
    ensures var r := Deliver(o, first, c);
            r.Done? && Contiguous(r.out, f) <==> KeepsContiguous(o, f, first, c)
  {
    var m, q := Noted(o, c), c.id % |o.slots|;
    if Writes(o, first, c) {
      DirectContiguousIff(o, f, c, Deliver(o, first, c).out);
    } else if Stores(o, first, c) {
      FlushContiguousIff(m.(slots := o.slots[q := Some(c)]), f);
    } else if c.id > o.played {
      CleanupWrites(m, q);
      var p := CMod(o.played, |o.slots|);
      if p >= 0 {
        ContinuesIff(o, Cleanup(m, q).out, f, Occupied(o.slots, if q < p then 0 else p, q));
      }
    }
  }

  predicate AllEmpty(slots: seq<Option<Chunk>>) {
    forall j | 0 <= j < |slots| :: slots[j].None?
  }

  /** The guard, on the state before the call, for empty slots after it. */
  predicate EmptiesSlots(o: Out, first: int, c: Chunk)
    requires |o.slots| > 0 && o.played >= -1
  {
    var n, q := |o.slots|, c.id % |o.slots|;
    var p := CMod(o.played, n);
    if c.id <= o.played || c.id == first || c.id == o.played + 1 then AllEmpty(o.slots)
    else if o.slots[q].None? then
      var s := o.slots[q := Some(c)];
      -1 <= p < n && forall j | 0 <= j < n && s[j].Some? :: InRuns(s, p, j)
    else false
  }

  lemma DeliverEmptiesIff(o: Out, first: int, c: Chunk)
    requires Inv(o) && Deliver(o, first, c).Done?
    ensures AllEmpty(Deliver(o, first, c).out.slots) <==> EmptiesSlots(o, first, c)
  {
    var m, q := Noted(o, c), c.id % |o.slots|;
    if Stores(o, first, c) {
      FlushWrites(m.(slots := o.slots[q := Some(c)]));
    } else if c.id > o.played && !Writes(o, first, c) {
      CleanupWrites(m, q);
      assert Deliver(o, first, c).out.slots[q].Some?;
    }
  }

  // ---- Whole runs ----

  /** The guard holds at every delivery of the run. */
  predicate GuardsHold(o: Out, f: int, ds: seq<Delivery>)
    requires Inv(o)
    decreases |ds|
  {
    ds == [] ||
    (KeepsContiguous(o, f, ds[0].first, ds[0].c) &&
     var r := Deliver(o, ds[0].first, ds[0].c);
     r.Done? && (DeliverInv(o, ds[0].first, ds[0].c); GuardsHold(r.out, f, ds[1..])))
  }

  lemma DeliverGrows(o: Out, first: int, c: Chunk)
    requires Inv(o) && Deliver(o, first, c).Done?
    ensures var r := Deliver(o, first, c).out; |o.log| <= |r.log| && r.log[..|o.log|] == o.log
  {
    TakenDrains(o, first, c);
    var t, r := Output.Taken(o, first, c), Deliver(o, first, c).out;
    assert r.log[..|o.log|] == r.log[..|t.log|][..|o.log|];
  }

  lemma {:induction false} RunGrows(o: Out, ds: seq<Delivery>)
    requires Inv(o) && Run(o, ds).Done?
    ensures var r := Run(o, ds).out; |o.log| <= |r.log| && r.log[..|o.log|] == o.log
    decreases |ds|
  {
    if ds != [] {
      var a := Deliver(o, ds[0].first, ds[0].c).out;
      DeliverInv(o, ds[0].first, ds[0].c);
      DeliverGrows(o, ds[0].first, ds[0].c);
      RunGrows(a, ds[1..]);
      var r := Run(o, ds).out;
      assert r.log[..|o.log|] == r.log[..|a.log|][..|o.log|];
    }
  }

  /** A run completes and has played ids without a gap from `f` on exactly if the guard always held. */
  lemma {:induction false} RunContiguousIff(o: Out, f: int, ds: seq<Delivery>)
    requires Inv(o) && Contiguous(o, f)
    ensures Run(o, ds).Done? && Contiguous(Run(o, ds).out, f) <==> GuardsHold(o, f, ds)
    decreases |ds|
  {
    if ds != [] {
      var (first, c) := (ds[0].first, ds[0].c);
      DeliverContiguousIff(o, f, first, c);
      if Deliver(o, first, c).Done? {
        DeliverInv(o, first, c);
        var a := Deliver(o, first, c).out;
        if Contiguous(a, f) {
          RunContiguousIff(a, f, ds[1..]);
        } else if Run(o, ds).Done? {
          RunGrows(a, ds[1..]);
          GapStays(a, Run(o, ds).out, f);
        }
      }
    }
  }

  lemma GapStays(o: Out, r: Out, f: int)
    requires |o.log| <= |r.log| && r.log[..|o.log|] == o.log && !Contiguous(o, f)
    ensures !Contiguous(r, f)
  {
    var k :| 0 <= k < |o.log| && o.log[k].c.id != f + k;
    assert r.log[k] == o.log[k];
  }

  /** The guard for empty slots holds at the last delivery of the run. */
  predicate EmptiesAtEnd(o: Out, ds: seq<Delivery>)
    requires Inv(o)
    decreases |ds|
  {
    if ds == [] then AllEmpty(o.slots)
    else if |ds| == 1 then EmptiesSlots(o, ds[0].first, ds[0].c)
    else
      var r := Deliver(o, ds[0].first, ds[0].c);
      r.Done? && (DeliverInv(o, ds[0].first, ds[0].c); EmptiesAtEnd(r.out, ds[1..]))
  }

  lemma {:induction false} RunEmptiesIff(o: Out, ds: seq<Delivery>)
    requires Inv(o) && Run(o, ds).Done?
    ensures AllEmpty(Run(o, ds).out.slots) <==> EmptiesAtEnd(o, ds)
    decreases |ds|
  {
    if ds != [] {
      var r := Deliver(o, ds[0].first, ds[0].c);
      DeliverInv(o, ds[0].first, ds[0].c);
      if |ds| == 1 {
        DeliverEmptiesIff(o, ds[0].first, ds[0].c);
        assert Run(r.out, ds[1..]) == r;
      } else {
        RunEmptiesIff(r.out, ds[1..]);
      }
    }
  }

  // ---- What is not lost ----

  /** A chunk with this id was written or waits in a slot. */
  ghost predicate Held(o: Out, id: int) {
    (exists w | w in o.log :: w.c.id == id) || (exists x | x in o.slots && x.Some? :: x.value.id == id)
  }

  ghost predicate HeldChunk(o: Out, c: Chunk) {
    Direct(c) in o.log || FromSlot(c) in o.log || Some(c) in o.slots
  }

  lemma HeldByWeights(o: Out, c: Chunk)
    ensures HeldChunk(o, c) <==> Weight(o, c) > 0 || Straight(o, c) > 0
  {
  }

  lemma HeldById(o: Out, id: int)
    ensures Held(o, id) <==> exists c :: HeldChunk(o, c) && c.id == id
  {
    if w :| w in o.log && w.c.id == id {
      assert HeldChunk(o, w.c);
    }
    if x :| x in o.slots && x.Some? && x.value.id == id {
      assert HeldChunk(o, x.value);
    }
  }

  predicate Takes(o: Out, first: int, c: Chunk)
    requires |o.slots| > 0 && o.played >= -1
  {
    Writes(o, first, c) || Stores(o, first, c)
  }

  lemma DeliverHeldChunk(o: Out, first: int, c: Chunk, x: Chunk)
    requires Inv(o) && Deliver(o, first, c).Done?
    ensures HeldChunk(Deliver(o, first, c).out, x) <==> HeldChunk(o, x) || (Takes(o, first, c) && x == c)
  {
    DeliverDrains(o, first, c);
    HeldByWeights(o, x);
    HeldByWeights(Deliver(o, first, c).out, x);
  }

  lemma DeliverHeld(o: Out, first: int, c: Chunk, id: int)
    requires Inv(o) && Deliver(o, first, c).Done?
    ensures Held(Deliver(o, first, c).out, id) <==> Held(o, id) || (Takes(o, first, c) && id == c.id)
  {
    var r := Deliver(o, first, c).out;
    HeldById(o, id);
    HeldById(r, id);
    forall x ensures HeldChunk(r, x) <==> HeldChunk(o, x) || (Takes(o, first, c) && x == c) {
      DeliverHeldChunk(o, first, c, x);
    }
  }

  /** The ids of the chunks that a run takes in, into a slot or straight to the writer. */
  function TakenIds(o: Out, ds: seq<Delivery>): set<int>
    requires Inv(o)
    decreases |ds|
  {
    if ds == [] then {}
    else
      var r := Deliver(o, ds[0].first, ds[0].c);
      (if Takes(o, ds[0].first, ds[0].c) then {ds[0].c.id} else {}) +
      (if r.Done? then (DeliverInv(o, ds[0].first, ds[0].c); TakenIds(r.out, ds[1..])) else {})
  }

  lemma {:induction false} RunHeld(o: Out, ds: seq<Delivery>, id: int)
    requires Inv(o) && Run(o, ds).Done?
    ensures Held(Run(o, ds).out, id) <==> Held(o, id) || id in TakenIds(o, ds)
    decreases |ds|
  {
    if ds != [] {
      DeliverInv(o, ds[0].first, ds[0].c);
      DeliverHeld(o, ds[0].first, ds[0].c, id);
      RunHeld(Deliver(o, ds[0].first, ds[0].c).out, ds[1..], id);
    }
  }

  /** The state has played exactly the ids from `f` to `last`, and keeps nothing. */
  predicate PlayedAll(o: Out, f: int, last: int) {
    Contiguous(o, f) && |o.log| == last + 1 - f && AllEmpty(o.slots)
  }

  /** With nothing left in the slots, the ids held are those played. */
  lemma HeldIsPlayed(o: Out, f: int, id: int)
    requires Contiguous(o, f) && AllEmpty(o.slots)
    ensures Held(o, id) <==> f <= id < f + |o.log|
  {
    if f <= id < f + |o.log| {
      assert o.log[id - f] in o.log && o.log[id - f].c.id == id;
    }
    if w :| w in o.log && w.c.id == id {
      var k :| 0 <= k < |o.log| && o.log[k] == w;
    }
  }

  lemma NothingHeld(size: nat, id: int)
    ensures !Held(Init(size), id)
  {
    assert forall x | x in Init(size).slots :: x == None;
  }

  /** The set holds the ids from `f` to `last`. */
  ghost predicate Exactly(ids: set<int>, f: int, last: int) {
    forall id :: id in ids <==> f <= id <= last
  }

  lemma TakenIsPlayed(size: nat, f: int, ds: seq<Delivery>, id: int)
    requires size > 0 && Run(Init(size), ds).Done?
    requires var r := Run(Init(size), ds).out; Contiguous(r, f) && AllEmpty(r.slots)
    ensures id in TakenIds(Init(size), ds) <==> f <= id < f + |Run(Init(size), ds).out.log|
  {
    var o := Init(size);
    var r := Run(o, ds).out;
    RunHeld(o, ds, id);
    HeldIsPlayed(r, f, id);
    NothingHeld(size, id);
    assert Held(r, id) <==> id in TakenIds(o, ds);
  }

  lemma SameRange(ids: set<int>, f: int, end: int, last: int)
    requires f <= end && f <= last + 1 && Exactly(ids, f, end - 1)
    ensures Exactly(ids, f, last) <==> end == last + 1
  {
    if Exactly(ids, f, last) {
      assert end in ids <==> end <= last;
      assert last + 1 in ids <==> last + 1 < end;
      assert last in ids <==> f <= last;
      assert end - 1 in ids <==> f <= end - 1;
    }
  }

  /**
   From the start, a run plays exactly the ids from `f` to `last`, in order, and empties its
   slots exactly if every delivery goes on from the last id written, the last one empties
   the slots, and the ids taken in are these.
  */
  lemma PlaysAllIff(size: nat, f: int, last: int, ds: seq<Delivery>)
    requires size > 0 && f <= last + 1
    ensures var o := Init(size);
            Run(o, ds).Done? && PlayedAll(Run(o, ds).out, f, last) <==>
            && GuardsHold(o, f, ds) && EmptiesAtEnd(o, ds)
            && Exactly(TakenIds(o, ds), f, last)
  {
    var o := Init(size);
    RunContiguousIff(o, f, ds);
    if GuardsHold(o, f, ds) {
      RunEmptiesIff(o, ds);
      if EmptiesAtEnd(o, ds) {
        var r := Run(o, ds).out;
        forall id ensures id in TakenIds(o, ds) <==> f <= id <= f + |r.log| - 1 {
          TakenIsPlayed(size, f, ds, id);
        }
        SameRange(TakenIds(o, ds), f, f + |r.log|, last);
      }
    }
  }

  // ---- Streams that arrive in the window ----

  /** One past the ids that are in the window. */
  function Edge(o: Out, f: int): int {
    (if o.played >= 0 then o.played else f) + |o.slots|
  }

  predicate InWindow(o: Out, f: int, ds: seq<Delivery>)
    requires Inv(o)
    decreases |ds|
  {
    ds == [] ||
    (ds[0].c.id < Edge(o, f) &&
     var r := Deliver(o, ds[0].first, ds[0].c);
     (r.Done? ==> (DeliverInv(o, ds[0].first, ds[0].c); InWindow(r.out, f, ds[1..]))))
  }

  /** A slot holds a chunk that was passed by; it can no longer be written without a break. */
  predicate Stale(o: Out, f: int) {
    exists j | 0 <= j < |o.slots| && o.slots[j].Some? :: o.slots[j].value.id < f + |o.log|
  }

  /** What holds while the guard does: `played` is an id written, slots are below the edge and never hold `f`. */
  predicate Steady(o: Out, f: int) {
    && Inv(o) && f >= 0 && Contiguous(o, f)
    && (if o.played >= 0 then f <= o.played < f + |o.log| else o.log == [])
    && forall j | 0 <= j < |o.slots| && o.slots[j].Some? :: f != o.slots[j].value.id < Edge(o, f)
  }

  lemma NoneStarts(slots: seq<Option<Chunk>>, i: int, hi: int, f: int)
    requires 0 <= i && hi <= |slots| && Consecutive(Occupied(slots, i, hi), f)
    requires forall j | 0 <= j < |slots| && slots[j].Some? :: slots[j].value.id != f
    ensures Occupied(slots, i, hi) == []
  {
    if Occupied(slots, i, hi) != [] {
      var j := OccupiedAt(slots, i, hi, Occupied(slots, i, hi)[0]);
      assert false;
    }
  }

  /** A flush before anything was played finds nothing while the guard holds, as no slot holds `f`. */
  lemma FlushSteady(s: Out, f: int)
    requires |s.slots| > 0 && s.played == -1 && s.log == []
    requires forall j | 0 <= j < |s.slots| && s.slots[j].Some? :: s.slots[j].value.id != f
    requires Contiguous(Flush(s), f)
    ensures Flush(s).log == []
  {
    FlushContiguousIff(s, f);
    FlushWrites(s);
    var p := CMod(s.played, |s.slots|);
    var x := FirstRun(s.slots, p);
    assert p <= 0 && SecondRun(s.slots, p) == [];
    NoneStarts(s.slots, p + 1, RunEnd(s.slots, p + 1, |s.slots|), f);
  }

  /** Putting a chunk of the window in a slot and flushing keeps `played` an id written. */
  lemma StoreSteady(o: Out, f: int, c: Chunk)
    requires Steady(o, f) && Stores(o, f, c) && c.id < Edge(o, f)
    requires Inv(Deliver(o, f, c).out) && Contiguous(Deliver(o, f, c).out, f)
    ensures Steady(Deliver(o, f, c).out, f)
  {
    var s := Noted(o, c).(slots := o.slots[c.id % |o.slots| := Some(c)]);
    FlushWrites(s);
    if o.played == -1 {
      FlushSteady(s, f);
    }
  }

  lemma CleanupSteady(o: Out, f: int, q: int)
    requires Steady(o, f) && 0 <= q < |o.slots| && Cleanup(o, q).Done?
    requires Inv(Cleanup(o, q).out) && Contiguous(Cleanup(o, q).out, f)
    ensures Steady(Cleanup(o, q).out, f)
  {
    var p, r := CMod(o.played, |o.slots|), Cleanup(o, q).out;
    var cs := Occupied(o.slots, if q < p then 0 else p, q);
    CleanupWrites(o, q);
    if cs != [] {
      assert r.log[|r.log| - 1] == FromSlot(cs[|cs| - 1]);
    }
  }

  lemma DeliverSteady(o: Out, f: int, c: Chunk)
    requires Steady(o, f) && c.id < Edge(o, f) && KeepsContiguous(o, f, f, c)
    ensures Deliver(o, f, c).Done? && Steady(Deliver(o, f, c).out, f)
  {
    DeliverContiguousIff(o, f, f, c);
    DeliverInv(o, f, c);
    if Stores(o, f, c) {
      StoreSteady(o, f, c);
    } else if c.id > o.played && !Writes(o, f, c) {
      NotedInv(o, c);
      CleanupSteady(Noted(o, c), f, c.id % |o.slots|);
    }
  }

  /** The ids from `f` on that were delivered are held, unless some slot is stale. */
  ghost predicate Keeps(o: Out, f: int, ids: set<int>) {
    Stale(o, f) || forall id | id in ids && id >= f :: Held(o, id)
  }

  lemma HeldBelow(o: Out, f: int, id: int)
    requires Contiguous(o, f) && f <= id < f + |o.log|
    ensures Held(o, id)
  {
    assert o.log[id - f] in o.log;
  }

  lemma {:induction false} OccupiedHas(slots: seq<Option<Chunk>>, i: int, hi: int, j: int)
    requires 0 <= i <= j < hi <= |slots| && slots[j].Some?
    ensures slots[j].value in Occupied(slots, i, hi)
    decreases hi - i
  {
    if i < j {
      OccupiedHas(slots, i + 1, hi, j);
    }
  }

  /** A slot whose id lies below `next` is in no stretch that goes on from `next`. */
  lemma PassedBy(slots: seq<Option<Chunk>>, i: int, hi: int, next: int, j: int)
    requires 0 <= i && hi <= |slots| && Consecutive(Occupied(slots, i, hi), next)
    requires 0 <= j < |slots| && slots[j].Some? && slots[j].value.id < next
    ensures !(i <= j < hi)
  {
    if i <= j < hi {
      OccupiedHas(slots, i, hi, j);
    }
  }

  /** A flush that goes on from `next` leaves a slot below it alone. */
  lemma FlushPassesBy(s: Out, f: int, j: int)
    requires |s.slots| > 0 && s.played >= -1 && Contiguous(s, f) && Contiguous(Flush(s), f)
    requires 0 <= j < |s.slots| && s.slots[j].Some? && s.slots[j].value.id < f + |s.log|
    ensures Flush(s).slots[j] == s.slots[j]
  {
    var p, next := CMod(s.played, |s.slots|), f + |s.log|;
    FlushContiguousIff(s, f);
    FlushWrites(s);
    PassedBy(s.slots, p + 1, RunEnd(s.slots, p + 1, |s.slots|), next, j);
    PassedBy(s.slots, 0, RunEnd(s.slots, 0, p), next + |FirstRun(s.slots, p)|, j);
  }

  lemma CleanupPassesBy(o: Out, f: int, q: int, j: int)
    requires o.played >= -1 && 0 <= q < |o.slots| && Contiguous(o, f)
    requires Cleanup(o, q).Done? && Contiguous(Cleanup(o, q).out, f)
    requires 0 <= j < |o.slots| && o.slots[j].Some? && o.slots[j].value.id < f + |o.log|
    ensures Cleanup(o, q).out.slots[j] == o.slots[j]
  {
    var p := CMod(o.played, |o.slots|);
    var lo := if q < p then 0 else p;
    CleanupWrites(o, q);
    ContinuesIff(o, Cleanup(o, q).out, f, Occupied(o.slots, lo, q));
    PassedBy(o.slots, lo, q, f + |o.log|, j);
  }

  /** A stale slot stays so: writing its chunk would break off the ids. */
  lemma StaysStale(o: Out, f: int, first: int, c: Chunk)
    requires Inv(o) && Contiguous(o, f) && Stale(o, f)
    requires Deliver(o, first, c).Done? && Contiguous(Deliver(o, first, c).out, f)
    ensures Stale(Deliver(o, first, c).out, f)
  {
    DeliverGrows(o, first, c);
    var m, q := Noted(o, c), c.id % |o.slots|;
    var j :| 0 <= j < |o.slots| && o.slots[j].Some? && o.slots[j].value.id < f + |o.log|;
    if Stores(o, first, c) {
      FlushPassesBy(m.(slots := o.slots[q := Some(c)]), f, j);
    } else if c.id > o.played && !Writes(o, first, c) {
      CleanupPassesBy(m, f, q, j);
    }
    assert Deliver(o, first, c).out.slots[j] == o.slots[j];
  }

  /** A chunk in the window that finds its slot taken is there already, or the slot is stale. */
  lemma TakenSlot(o: Out, f: int, c: Chunk)
    requires Steady(o, f) && f <= c.id < Edge(o, f) && c.id > o.played
    requires o.slots[c.id % |o.slots|].Some?
    ensures Held(o, c.id) || Stale(o, f)
  {
    var n, q := |o.slots|, c.id % |o.slots|;
    var x := o.slots[q].value;
    assert SlotOk(o, q);
    if x.id > c.id - n {
      SameSlot(n, c.id, x.id);
      assert o.slots[q] in o.slots;
    }
  }

  lemma DeliverKeeps(o: Out, f: int, c: Chunk, ids: set<int>)
    requires Steady(o, f) && c.id < Edge(o, f) && KeepsContiguous(o, f, f, c) && Keeps(o, f, ids)
    ensures Deliver(o, f, c).Done? && Steady(Deliver(o, f, c).out, f)
    ensures Keeps(Deliver(o, f, c).out, f, ids + {c.id})
  {
    DeliverSteady(o, f, c);
    var r := Deliver(o, f, c).out;
    if Stale(o, f) {
      DeliverContiguousIff(o, f, f, c);
      StaysStale(o, f, f, c);
    } else if !Stale(r, f) {
      forall id | id in ids + {c.id} && id >= f ensures Held(r, id) {
        DeliverHeld(o, f, c, id);
        if id !in ids && !Takes(o, f, c) {
          ArrivesHeld(o, f, c);
        }
      }
    }
  }

  lemma ArrivesHeld(o: Out, f: int, c: Chunk)
    requires Steady(o, f) && f <= c.id < Edge(o, f) && !Takes(o, f, c)
    ensures Held(o, c.id) || Stale(o, f)
  {
    if c.id <= o.played {
      HeldBelow(o, f, c.id);
    } else {
      TakenSlot(o, f, c);
    }
  }

  function IdsOf(ds: seq<Delivery>): set<int> {
    set d | d in ds :: d.c.id
  }

  lemma {:induction false} RunKeeps(o: Out, f: int, ds: seq<Delivery>, ids: set<int>)
    requires Steady(o, f) && (forall d | d in ds :: d.first == f) && InWindow(o, f, ds)
    requires GuardsHold(o, f, ds) && Keeps(o, f, ids)
    ensures Run(o, ds).Done? && Steady(Run(o, ds).out, f)
    ensures Keeps(Run(o, ds).out, f, ids + IdsOf(ds))
    decreases |ds|
  {
    if ds == [] {
      assert ids + IdsOf(ds) == ids;
    } else {
      var c := ds[0].c;
      assert ds[0] in ds;
      DeliverInv(o, f, c);
      DeliverKeeps(o, f, c, ids);
      RunKeeps(Deliver(o, f, c).out, f, ds[1..], ids + {c.id});
      assert ids + IdsOf(ds) == ids + {c.id} + IdsOf(ds[1..]) by {
        assert forall d :: d in ds <==> d == ds[0] || d in ds[1..];
      }
    }
  }

  /**
   A stream whose chunks from `f` to `last` all arrive in the window: it is played from the
   first chunk to the last, and nothing is left, exactly if every delivery goes on from the
   last id written and the last one empties the slots. No chunk is lost on the way.
  */
  lemma CompleteIff(size: nat, f: nat, last: int, ds: seq<Delivery>)
    requires size > 0 && f <= last && (forall d | d in ds :: d.first == f && d.c.id <= last)
    requires forall id | f <= id <= last :: id in IdsOf(ds)
    requires InWindow(Init(size), f, ds)
    ensures var o := Init(size);
            Run(o, ds).Done? && PlayedAll(Run(o, ds).out, f, last) <==> GuardsHold(o, f, ds) && EmptiesAtEnd(o, ds)
  {
    var o := Init(size);
    PlaysAllIff(size, f, last, ds);
    if GuardsHold(o, f, ds) && EmptiesAtEnd(o, ds) {
      RunKeeps(o, f, ds, {});
      RunEmptiesIff(o, ds);
      var r := Run(o, ds).out;
      forall id ensures Held(r, id) <==> f <= id <= last {
        HeldIsPlayed(r, f, id);
        RunHeld(o, ds, id);
        NothingHeld(size, id);
        if id in TakenIds(o, ds) {
          TakenAreDelivered(o, ds, id);
        }
      }
      HeldIsPlayed(r, f, f + |r.log|);
      HeldIsPlayed(r, f, last + 1);
      HeldIsPlayed(r, f, last);
    }
  }

  lemma {:induction false} TakenAreDelivered(o: Out, ds: seq<Delivery>, id: int)
    requires Inv(o) && id in TakenIds(o, ds)
    ensures id in IdsOf(ds)
    decreases |ds|
  {
    if ds != [] && !(Takes(o, ds[0].first, ds[0].c) && id == ds[0].c.id) {
      DeliverInv(o, ds[0].first, ds[0].c);
      TakenAreDelivered(Deliver(o, ds[0].first, ds[0].c).out, ds[1..], id);
    }
  }
}
