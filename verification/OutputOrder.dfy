/**
 When the reorder buffer, as the code stands, keeps its state in order: the ids it wrote
 rise, `playedChunk` is the last of them, and the slots lie within one turn above it. When
 the ids alone rise, wherever the rest is left, is in `OutputRises.dfy`.
*/
module OutputOrder {
  import opened Chunks
  import opened Output
  import Residues

  /** Occupied slots hold the right residue and an id within one turn above the last played. */
  predicate Window(o: Out) {
    && |o.slots| > 0 && o.played >= 0
    && forall i | 0 <= i < |o.slots| && o.slots[i].Some? ::
         && o.slots[i].value.id % |o.slots| == i
         && o.played < o.slots[i].value.id < o.played + |o.slots|
  }

  /** The ids written so far rise strictly and the last of them is `played`. */
  predicate Rising(o: Out) {
    && |o.log| > 0 && o.log[|o.log| - 1].c.id == o.played
    && forall i, j | 0 <= i < j < |o.log| :: o.log[i].c.id < o.log[j].c.id
  }

  predicate Ordered(o: Out) {
    Window(o) && Rising(o)
  }

  /** The id that a slot within the window can hold. */
  lemma SlotId(o: Out, i: int)
    requires Window(o) && 0 <= i < |o.slots| && o.slots[i].Some?
    ensures var p := o.played % |o.slots|;
            i != p && o.slots[i].value.id == o.played + (i - p) + if i < p then |o.slots| else 0
  {
    Residues.Distance(|o.slots|, o.played, o.slots[i].value.id);
  }

  /** The chunks in the slots from `i` to `hi`. */
  function Occupied(slots: seq<Option<Chunk>>, i: int, hi: int): seq<Chunk>
    requires 0 <= i && hi <= |slots|
    decreases hi - i
  {
    if i >= hi then []
    else (if slots[i].Some? then [slots[i].value] else []) + Occupied(slots, i + 1, hi)
  }

  function FromSlots(cs: seq<Chunk>): seq<Write> {
    seq(|cs|, i requires 0 <= i < |cs| => FromSlot(cs[i]))
  }

  lemma WritesOn(log: seq<Write>, c: Chunk, cs: seq<Chunk>)
    ensures (log + [FromSlot(c)]) + FromSlots(cs) == log + FromSlots([c] + cs)
  {
  }

  /** Ids in the slots from `i` to `hi` lie above `id` and rise. */
  predicate RisesFrom(slots: seq<Option<Chunk>>, id: int, i: int, hi: int)
    requires 0 <= i && hi <= |slots|
  {
    && (forall j | i <= j < hi && slots[j].Some? :: slots[j].value.id > id)
    && (forall j, k | i <= j < k < hi && slots[j].Some? && slots[k].Some? ::
          slots[j].value.id < slots[k].value.id)
  }

  /** The last of some ids, or `id` if there is none. */
  function LastId(cs: seq<Chunk>, id: int): int {
    if cs == [] then id else cs[|cs| - 1].id
  }

  /** What the cleanup loop writes and clears, and where it leaves `played`. */
  lemma {:induction false} CleanScanWrites(o: Out, i: int, hi: int)
    requires 0 <= i && hi <= |o.slots|
    ensures var r, cs := CleanScan(o, i, hi), Occupied(o.slots, i, hi);
            && r.log == o.log + FromSlots(cs)
            && r.played == LastId(cs, o.played)
            && (forall j | 0 <= j < |o.slots| :: r.slots[j] == if i <= j < hi then None else o.slots[j])
    decreases hi - i
  {
    if i < hi {
      if o.slots[i].Some? {
        var f := Free(o, i).(played := o.slots[i].value.id);
        CleanScanWrites(f, i + 1, hi);
        OccupiedFrame(f.slots, o.slots, i + 1, hi);
        WritesOn(o.log, o.slots[i].value, Occupied(o.slots, i + 1, hi));
      } else {
        CleanScanWrites(o, i + 1, hi);
      }
    }
  }

  lemma {:induction false} OccupiedFrame(a: seq<Option<Chunk>>, b: seq<Option<Chunk>>, i: int, hi: int)
    requires 0 <= i && hi <= |a| == |b| && forall j | i <= j < hi :: a[j] == b[j]
    ensures Occupied(a, i, hi) == Occupied(b, i, hi)
    decreases hi - i
  {
    if i < hi {
      OccupiedFrame(a, b, i + 1, hi);
    }
  }

  /** If the ids in the slots rise, so do those written out of them. */
  lemma {:induction false} OccupiedRises(slots: seq<Option<Chunk>>, id: int, i: int, hi: int)
    requires 0 <= i && hi <= |slots| && RisesFrom(slots, id, i, hi)
    ensures Increasing(Occupied(slots, i, hi))
    ensures forall c | c in Occupied(slots, i, hi) :: c.id > id
    decreases hi - i
  {
    if i < hi {
      if slots[i].Some? {
        var c := slots[i].value;
        OccupiedRises(slots, c.id, i + 1, hi);
        assert Occupied(slots, i, hi) == [c] + Occupied(slots, i + 1, hi);
      } else {
        OccupiedRises(slots, id, i + 1, hi);
      }
    }
  }

  lemma {:induction false} OccupiedAt(slots: seq<Option<Chunk>>, i: int, hi: int, c: Chunk) returns (j: int)
    requires 0 <= i && hi <= |slots| && c in Occupied(slots, i, hi)
    ensures i <= j < hi && slots[j] == Some(c)
    decreases hi - i
  {
    if slots[i] == Some(c) {
      j := i;
    } else {
      j := OccupiedAt(slots, i + 1, hi, c);
    }
  }

  lemma {:induction false} NothingOccupied(slots: seq<Option<Chunk>>, i: int, hi: int)
    requires 0 <= i && hi <= |slots|
    ensures Occupied(slots, i, hi) == [] <==> forall j | i <= j < hi :: slots[j].None?
    decreases hi - i
  {
    if i < hi {
      NothingOccupied(slots, i + 1, hi);
    }
  }

  /** Rising ids above the last one keep the log in order. */
  lemma RisesOn(o: Out, cs: seq<Chunk>, r: Out)
    requires Rising(o) && Increasing(cs) && forall c | c in cs :: c.id > o.played
    requires r.log == o.log + FromSlots(cs) && r.played == LastId(cs, o.played)
    ensures Rising(r)
  {
    forall i, j | 0 <= i < j < |r.log| ensures r.log[i].c.id < r.log[j].c.id {
      if i < |o.log| <= j {
        assert o.log[i].c.id <= o.played < cs[j - |o.log|].id;
      }
    }
  }

  lemma SlotIds(o: Out)
    requires Window(o)
    ensures var p, n := o.played % |o.slots|, |o.slots|;
            && o.slots[p].None?
            && forall j | 0 <= j < n && o.slots[j].Some? ::
                 o.slots[j].value.id == o.played + (j - p) + if j < p then n else 0
  {
    forall j | 0 <= j < |o.slots| && o.slots[j].Some?
      ensures var p, n := o.played % |o.slots|, |o.slots|;
              j != p && o.slots[j].value.id == o.played + (j - p) + if j < p then n else 0
    {
      SlotId(o, j);
    }
  }

  /** What a cleanup writes out of the slots from `lo` to `q`: ids that rise strictly above all passed. */
  ghost predicate WritesInOrder(o: Out, r: Out, lo: int, q: int)
    requires 0 <= lo && q <= |o.slots| == |r.slots|
  {
    var cs := Occupied(o.slots, lo, q);
    && r.log == o.log + FromSlots(cs)
    && Increasing(cs) && (forall c | c in cs :: c.id > o.played)
    && r.played == LastId(cs, o.played) && r.played >= o.played
    && (forall j | 0 <= j < |o.slots| :: r.slots[j] == if lo <= j < q then None else o.slots[j])
  }

  lemma CleanScanInOrder(o: Out, lo: int, q: int)
    requires 0 <= lo && q <= |o.slots| && RisesFrom(o.slots, o.played, lo, q)
    ensures WritesInOrder(o, CleanScan(o, lo, q), lo, q)
  {
    CleanScanWrites(o, lo, q);
    OccupiedRises(o.slots, o.played, lo, q);
    var cs := Occupied(o.slots, lo, q);
    assert cs != [] ==> cs[|cs| - 1] in cs;
  }

  /** The slot whose chunk is written last. */
  lemma LastWritten(o: Out, r: Out, lo: int, q: int) returns (k: int)
    requires 0 <= lo && q <= |o.slots| == |r.slots| && WritesInOrder(o, r, lo, q)
    ensures k == -1 ==> r.played == o.played && forall j | lo <= j < q :: o.slots[j].None?
    ensures k != -1 ==> lo <= k < q && o.slots[k].Some? && r.played == o.slots[k].value.id
  {
    var cs := Occupied(o.slots, lo, q);
    NothingOccupied(o.slots, lo, q);
    k := -1;
    if cs != [] {
      k := OccupiedAt(o.slots, lo, q, cs[|cs| - 1]);
    }
  }

  /** Slots that a cleanup leaves lie above what it wrote, if they do so around the ring. */
  lemma LeavesWindow(o: Out, r: Out, lo: int, q: int)
    requires Window(o) && 0 <= lo && q <= |o.slots| == |r.slots| && WritesInOrder(o, r, lo, q)
    requires forall j, k | 0 <= j < |o.slots| && lo <= k < q && !(lo <= j < q) ::
               o.slots[j].Some? && o.slots[k].Some? ==> o.slots[k].value.id < o.slots[j].value.id
    ensures Window(r)
  {
    var k := LastWritten(o, r, lo, q);
    forall j | 0 <= j < |r.slots| && r.slots[j].Some?
      ensures r.slots[j] == o.slots[j] && r.slots[j].value.id > r.played
    {
    }
  }

  /** Cleaning up to a slot above the playout position, from any state in the window. */
  lemma CleanupWithoutWrap(o: Out, q: int)
    requires Window(o) && o.played % |o.slots| <= q < |o.slots|
    ensures Cleanup(o, q).Done?
    ensures Window(Cleanup(o, q).out) && WritesInOrder(o, Cleanup(o, q).out, o.played % |o.slots|, q)
  {
    var p := o.played % |o.slots|;
    SlotIds(o);
    CleanScanInOrder(o, p, q);
    LeavesWindow(o, Cleanup(o, q).out, p, q);
  }

  /** If the log was in order, it stays so. */
  lemma CleanupKeepsOrder(o: Out, q: int)
    requires Ordered(o) && o.played % |o.slots| <= q < |o.slots|
    ensures Cleanup(o, q).Done? && Ordered(Cleanup(o, q).out)
  {
    CleanupWithoutWrap(o, q);
    RisesOn(o, Occupied(o.slots, o.played % |o.slots|, q), Cleanup(o, q).out);
  }

  /** No slot from `i` to `hi` is occupied. */
  predicate NoneIn(o: Out, i: int, hi: int)
    requires 0 <= i && hi <= |o.slots|
  {
    forall j | i <= j < hi :: o.slots[j].None?
  }

  /** Cleaning up to a slot below the playout position skips the slots above it. */
  lemma CleanupWrapped(o: Out, q: int)
    requires Window(o) && 0 <= q < o.played % |o.slots|
    ensures Cleanup(o, q).Done?
    ensures WritesInOrder(o, Cleanup(o, q).out, 0, q)
    ensures Window(Cleanup(o, q).out) <==>
            NoneIn(o, o.played % |o.slots| + 1, |o.slots|) || NoneIn(o, 0, q)
    ensures Rising(o) ==> Rising(Cleanup(o, q).out)
  {
    var p, n, r := o.played % |o.slots|, |o.slots|, Cleanup(o, q).out;
    SlotIds(o);
    CleanScanInOrder(o, 0, q);
    if Rising(o) {
      RisesOn(o, Occupied(o.slots, 0, q), r);
    }
    if NoneIn(o, p + 1, n) {
      LeavesWindow(o, r, 0, q);
    } else {
      SkippedFallsBehind(o, r, q);
    }
  }

  lemma SkippedFallsBehind(o: Out, r: Out, q: int)
    requires Window(o) && 0 <= q < o.played % |o.slots| && !NoneIn(o, o.played % |o.slots| + 1, |o.slots|)
    requires |r.slots| == |o.slots| && WritesInOrder(o, r, 0, q)
    ensures Window(r) <==> NoneIn(o, 0, q)
  {
    var p, n := o.played % |o.slots|, |o.slots|;
    SlotIds(o);
    var k := LastWritten(o, r, 0, q);
    if k == -1 {
      LeavesWindow(o, r, 0, q);
    } else {
      var j :| p + 1 <= j < n && o.slots[j].Some?;
      assert r.slots[j] == o.slots[j];
    }
  }

  /** Neither loop of the flush finds a chunk at its first slot. */
  predicate FlushIdle(o: Out)
    requires |o.slots| > 0 && o.played >= 0
  {
    var p := o.played % |o.slots|;
    (p + 1 == |o.slots| || o.slots[p + 1].None?) && (p == 0 || o.slots[0].None?)
  }

  lemma {:induction false} FlushScanGrows(o: Out, i: int, hi: int)
    requires 0 <= i && hi <= |o.slots|
    ensures var r := FlushScan(o, i, hi);
            && |r.log| >= |o.log| && r.played == o.played
            && (|r.log| == |o.log| ==> r == o)
            && (|r.log| == |o.log| <==> !(i < hi && o.slots[i].Some?))
            && (|r.log| > |o.log| ==> Some(r.log[|r.log| - 1].c) in o.slots)
            && (forall x | x in r.slots :: x in o.slots || x == None)
    decreases hi - i
  {
    if i < hi && o.slots[i].Some? {
      FlushScanGrows(Free(o, i), i + 1, hi);
    }
  }

  /** A flush that finds something leaves `played` behind the last chunk written. */
  lemma FlushKeepsOrderIff(o: Out)
    requires Ordered(o)
    ensures Ordered(Flush(o)) <==> FlushIdle(o)
    ensures FlushIdle(o) ==> Flush(o) == o
  {
    var p, n := o.played % |o.slots|, |o.slots|;
    var a := FlushScan(o, p + 1, n);
    FlushScanGrows(o, p + 1, n);
    FlushScanGrows(a, 0, p);
    var r := Flush(o);
    if !FlushIdle(o) {
      assert |r.log| > |o.log| by {
        if p + 1 == n || o.slots[p + 1].None? {
          assert a == o;
        }
      }
      var last := Some(r.log[|r.log| - 1].c);
      assert last in o.slots;
    }
  }

  /** Ids in the slots lie above `id`. */
  predicate AllAbove(o: Out, id: int) {
    forall i | 0 <= i < |o.slots| && o.slots[i].Some? :: o.slots[i].value.id > id
  }

  /** The guard, on the state before the call, once something was played. */
  predicate KeepsPlaying(o: Out, first: int, c: Chunk)
    requires |o.slots| > 0 && o.played >= 0
  {
    var n, p, q := |o.slots|, o.played % |o.slots|, c.id % |o.slots|;
    if c.id <= o.played then true
    else if c.id == first || c.id == o.played + 1 then AllAbove(o, c.id)
    else if o.slots[q].None? then c.id < o.played + n && FlushIdle(o) && (q != 0 || p == 0)
    else p < q || NoneIn(o, p + 1, n) || NoneIn(o, 0, q)
  }

  /** Nothing was written yet. */
  predicate Fresh(o: Out) {
    o.played == -1 && o.log == []
  }

  /** The guard, on the state before the call, while nothing was written. */
  predicate KeepsWaiting(o: Out, first: int, c: Chunk)
    requires |o.slots| > 0
  {
    var n, q := |o.slots|, c.id % |o.slots|;
    if c.id < 0 then true
    else if c.id == first || c.id == 0 then
      AllAbove(o, c.id) && forall i | 0 <= i < n && o.slots[i].Some? :: o.slots[i].value.id < c.id + n
    else n == 1 || (o.slots[q].None? && q != 0 && o.slots[0].None?)
  }

  /** The state is in order, or nothing was played. */
  predicate InOrder(o: Out) {
    Ordered(o) || Fresh(o)
  }

  predicate KeepsOrder(o: Out, first: int, c: Chunk)
    requires |o.slots| > 0 && o.played >= -1
  {
    if o.played >= 0 then KeepsPlaying(o, first, c) else KeepsWaiting(o, first, c)
  }

  /** Exactly when a delivery of the code as written completes and keeps the state in order. */
  lemma DeliverKeepsOrderIff(o: Out, first: int, c: Chunk)
    requires Inv(o) && InOrder(o)
    ensures var r := Deliver(o, first, c);
            r.Done? && InOrder(r.out) <==> KeepsOrder(o, first, c)
  {
    OutOfBoundsIff(o, first, c);
    if o.played >= 0 {
      PlayingIff(o, first, c);
      DeliverInv(o, first, c);
    } else {
      WaitingIff(o, first, c);
    }
  }

  lemma PlayingIff(o: Out, first: int, c: Chunk)
    requires Inv(o) && Ordered(o) && Deliver(o, first, c).Done?
    ensures Ordered(Deliver(o, first, c).out) <==> KeepsPlaying(o, first, c)
  {
    var m := Noted(o, c);
    NotedKeepsOrder(o, c);
    if Writes(o, first, c) {
      DirectWriteIff(m, c);
    } else if Stores(o, first, c) {
      StoreAndFlushIff(m, c);
    } else if c.id > o.played {
      TakenSlotIff(m, c.id % |o.slots|);
    }
  }

  lemma NotedKeepsOrder(o: Out, c: Chunk)
    requires Ordered(o)
    ensures Ordered(Noted(o, c))
  {
    assert Rising(Noted(o, c)) && Window(Noted(o, c));
  }

  /** A taken slot: the cleanup keeps the order unless it wraps, skips something and writes something. */
  lemma TakenSlotIff(o: Out, q: int)
    requires Ordered(o) && 0 <= q < |o.slots| && o.slots[q].Some?
    ensures Cleanup(o, q).Done?
    ensures var p, n := o.played % |o.slots|, |o.slots|;
            Ordered(Cleanup(o, q).out) <==> p < q || NoneIn(o, p + 1, n) || NoneIn(o, 0, q)
  {
    SlotId(o, q);
    if o.played % |o.slots| < q {
      CleanupKeepsOrder(o, q);
    } else {
      CleanupWrapped(o, q);
    }
  }

  /** A direct write keeps the order exactly if no slot holds an id that it passes by. */
  lemma DirectWriteIff(o: Out, c: Chunk)
    requires Ordered(o) && c.id > o.played
    ensures Ordered(o.(played := c.id, log := o.log + [Direct(c)])) <==> AllAbove(o, c.id)
  {
    assert Rising(o.(played := c.id, log := o.log + [Direct(c)]));
  }

  /** Before the first chunk: a flush starts at slot 0, a taken slot is out of bounds. */
  lemma WaitingIff(o: Out, first: int, c: Chunk)
    requires Inv(o) && Fresh(o)
    ensures var r := Deliver(o, first, c);
            r.Done? && InOrder(r.out) <==> KeepsWaiting(o, first, c)
  {
    OutOfBoundsIff(o, first, c);
    var n, q := |o.slots|, c.id % |o.slots|;
    if Writes(o, first, c) {
      FirstWriteIff(o, c);
    } else if Stores(o, first, c) {
      FirstStoreIff(o, first, c);
    } else if c.id >= 0 && n == 1 {
      assert CMod(-1, 1) == 0;
      assert Deliver(o, first, c) == Done(Noted(o, c));
    }
  }

  lemma FirstWriteIff(o: Out, c: Chunk)
    requires Inv(o) && Fresh(o) && c.id >= 0
    ensures var n, m := |o.slots|, Noted(o, c);
            InOrder(m.(played := c.id, log := o.log + [Direct(c)])) <==>
            AllAbove(o, c.id) && forall i | 0 <= i < n && o.slots[i].Some? :: o.slots[i].value.id < c.id + n
  {
    var r := Noted(o, c).(played := c.id, log := o.log + [Direct(c)]);
    assert Rising(r);
    forall i | 0 <= i < |o.slots| && o.slots[i].Some? ensures r.slots[i].value.id % |r.slots| == i {
      assert SlotOk(o, i);
    }
  }

  lemma FirstStoreIff(o: Out, first: int, c: Chunk)
    requires Inv(o) && Fresh(o) && Stores(o, first, c)
    ensures var n, q := |o.slots|, c.id % |o.slots|;
            InOrder(Deliver(o, first, c).out) <==> n == 1 || (q != 0 && o.slots[0].None?)
  {
    var n, q := |o.slots|, c.id % |o.slots|;
    var s := Noted(o, c).(slots := o.slots[q := Some(c)]);
    FirstFlush(s);
    assert Deliver(o, first, c) == Done(Flush(s));
  }

  /** Before the first chunk the flush finds something exactly if slot 0 is taken and there are others. */
  lemma FirstFlush(s: Out)
    requires |s.slots| > 0 && Fresh(s)
    ensures InOrder(Flush(s)) <==> |s.slots| == 1 || s.slots[0].None?
  {
    var n := |s.slots|;
    assert n > 1 ==> 1 % n == 1;
    assert CMod(-1, n) == if n == 1 then 0 else -1;
    FlushScanGrows(s, 0, n);
    FlushScanGrows(s, 1, n);
  }

  lemma StoreAndFlushIff(o: Out, c: Chunk)
    requires Ordered(o) && c.id > o.played + 1 && o.slots[c.id % |o.slots|].None?
    ensures var n, p, q := |o.slots|, o.played % |o.slots|, c.id % |o.slots|;
            Ordered(Flush(o.(slots := o.slots[q := Some(c)]))) <==>
            c.id < o.played + n && FlushIdle(o) && (q != 0 || p == 0)
  {
    var n, p, q := |o.slots|, o.played % |o.slots|, c.id % |o.slots|;
    var s := o.(slots := o.slots[q := Some(c)]);
    if c.id < o.played + n {
      Residues.Distance(n, o.played, c.id);
      FlushKeepsOrderIff(s);
    } else {
      OutOfWindowStore(s, q);
    }
  }

  /** A chunk stored beyond the window is either left there or written with `played` left behind. */
  lemma OutOfWindowStore(s: Out, q: int)
    requires |s.slots| > 0 && s.played >= 0 && 0 <= q < |s.slots| && s.slots[q].Some?
    requires s.slots[q].value.id >= s.played + |s.slots|
    requires forall x | x in s.slots && x.Some? :: x.value.id > s.played
    ensures !Ordered(Flush(s))
  {
    var p, n := s.played % |s.slots|, |s.slots|;
    var a := FlushScan(s, p + 1, n);
    FlushScanGrows(s, p + 1, n);
    FlushScanGrows(a, 0, p);
    var r := Flush(s);
    if |r.log| > |s.log| {
      assert Some(r.log[|r.log| - 1].c) in s.slots;
    } else {
      assert r.slots[q] == s.slots[q];
    }
  }

  /** The run completes and every state of it is in order. */
  predicate OrderedThroughout(o: Out, ds: seq<Delivery>)
    requires Inv(o)
    decreases |ds|
  {
    && InOrder(o)
    && (ds == [] ||
        var r := Deliver(o, ds[0].first, ds[0].c);
        r.Done? && (DeliverInv(o, ds[0].first, ds[0].c); OrderedThroughout(r.out, ds[1..])))
  }

  /** The guard holds at every delivery of the run. */
  predicate GuardsHold(o: Out, ds: seq<Delivery>)
    requires Inv(o)
    decreases |ds|
  {
    ds == [] ||
    (KeepsOrder(o, ds[0].first, ds[0].c) &&
     var r := Deliver(o, ds[0].first, ds[0].c);
     r.Done? && (DeliverInv(o, ds[0].first, ds[0].c); GuardsHold(r.out, ds[1..])))
  }

  /** From the initial state, or any state in order: a whole run stays in order exactly if the guard always holds. */
  lemma {:induction false} RunKeepsOrderIff(o: Out, ds: seq<Delivery>)
    requires Inv(o) && InOrder(o)
    ensures OrderedThroughout(o, ds) <==> GuardsHold(o, ds)
    decreases |ds|
  {
    if ds != [] {
      var (first, c) := (ds[0].first, ds[0].c);
      DeliverKeepsOrderIff(o, first, c);
      if KeepsOrder(o, first, c) {
        DeliverInv(o, first, c);
        RunKeepsOrderIff(Deliver(o, first, c).out, ds[1..]);
      }
    }
  }

  /** Deliveries 0, 1, 3, 2 with three slots: the flush starts over at slot 0, and 3 overtakes 2. */
  lemma Overtakes(c0: Chunk, c1: Chunk, c2: Chunk, c3: Chunk)
    requires IsVideo(c0) && IsVideo(c1) && IsVideo(c2) && IsVideo(c3)
    requires c0.id == 0 && c1.id == 1 && c2.id == 2 && c3.id == 3
    ensures var r := Run(Init(3), [Delivery(0, c0), Delivery(0, c1), Delivery(0, c3), Delivery(0, c2)]);
            r.Done? && r.out.log == [Direct(c0), Direct(c1), FromSlot(c3), Direct(c2)]
  {
    var d0, d1, d2, d3 := Delivery(0, c0), Delivery(0, c1), Delivery(0, c2), Delivery(0, c3);
    var none := [None, None, None];
    var o1 := Out(none, 0, 0, [Direct(d0.c)]);
    var o2 := Out(none, 1, 1, [Direct(d0.c), Direct(d1.c)]);
    var full := Out([Some(d3.c), None, None], 1, 3, o2.log);
    var o3 := Out(none, 1, 3, o2.log + [FromSlot(d3.c)]);
    var o4 := Out(none, 2, 3, o3.log + [Direct(d2.c)]);
    assert Flush(full) == o3;
    assert Deliver(o2, 0, d3.c) == Done(o3);
    assert Run(o4, []) == Done(o4);
    assert Run(o3, [d2]) == Done(o4);
    assert [d3, d2][1..] == [d2];
    assert Run(o2, [d3, d2]) == Done(o4);
    assert [d1, d3, d2][1..] == [d3, d2];
    assert Deliver(o1, 0, d1.c) == Done(o2);
    assert Run(o1, [d1, d3, d2]) == Done(o4);
    assert [d0, d1, d3, d2][1..] == [d1, d3, d2];
    assert Deliver(Init(3), 0, d0.c) == Done(o1);
  }
}
