/**
 The reorder buffer as the code stands: which chunks the output module hands to the
 ring writer, in which order, and what stays in its slots.
*/
module Output {
  import opened Chunks

  /** A chunk handed to the ring writer: straight from the delivery, or out of a slot. */
  datatype Write = Direct(c: Chunk) | FromSlot(c: Chunk)

  /** The output context, with the chunks handed to the ring writer so far. */
  datatype Out = Out(slots: seq<Option<Chunk>>, played: int, maximum: int, log: seq<Write>)

  /** A delivery either completes or reads the slot array outside its bounds. */
  datatype Outcome = Done(out: Out) | OutOfBounds

  /** The remainder of C, which takes the sign of the dividend. */
  function CMod(a: int, n: int): int
    requires n > 0
  {
    if a >= 0 then a % n else -((-a) % n)
  }

  function Init(size: nat): Out {
    Out(seq(size, _ => None), -1, -1, [])
  }

  /** `buffer_free` for an occupied slot: write the chunk and clear the slot. */
  function Free(o: Out, i: int): Out
    requires 0 <= i < |o.slots| && o.slots[i].Some?
  {
    o.(slots := o.slots[i := None], log := o.log + [FromSlot(o.slots[i].value)])
  }

  /** Either loop of `buffer_flush`: free slots from `i` on up to the first empty one. */
  function FlushScan(o: Out, i: int, hi: int): (r: Out)
    requires 0 <= i && hi <= |o.slots|
    ensures |r.slots| == |o.slots|
    decreases hi - i
  {
    if i < hi && o.slots[i].Some? then FlushScan(Free(o, i), i + 1, hi) else o
  }

  function Flush(o: Out): (r: Out)
    requires |o.slots| > 0 && o.played >= -1
    ensures |r.slots| == |o.slots|
  {
    var p := CMod(o.played, |o.slots|);
    FlushScan(FlushScan(o, p + 1, |o.slots|), 0, p)
  }

  /** Either loop of `buffer_cleanup`: write every occupied slot from `i` to `hi`. */
  function CleanScan(o: Out, i: int, hi: int): (r: Out)
    requires 0 <= i && hi <= |o.slots|
    ensures |r.slots| == |o.slots|
    decreases hi - i
  {
    if i >= hi then o
    else if o.slots[i].Some? then CleanScan(Free(o, i).(played := o.slots[i].value.id), i + 1, hi)
    else CleanScan(o, i + 1, hi)
  }

  /** With nothing played yet the first loop starts at slot -1. */
  function Cleanup(o: Out, position: int): (r: Outcome)
    requires o.played >= -1 && 0 <= position < |o.slots|
    ensures r.Done? ==> |r.out.slots| == |o.slots|
  {
    var p := CMod(o.played, |o.slots|);
    if p < 0 then OutOfBounds
    else
      var r := CleanScan(o, p, position);
      Done(if position < p then CleanScan(r, 0, position) else r)
  }

  /** The highest id seen, updated for an arriving chunk that is not too old. */
  function Noted(o: Out, c: Chunk): Out {
    if c.id > o.played && o.maximum < c.id then o.(maximum := c.id) else o
  }

  /** `output_ffmpeg_deliver`; `first` is the global `firstChunk`. */
  function Deliver(o: Out, first: int, c: Chunk): (r: Outcome)
    requires |o.slots| > 0 && o.played >= -1
    ensures r.Done? ==> |r.out.slots| == |o.slots|
  {
    if c.id <= o.played then Done(o)
    else
      var m := Noted(o, c);
      if c.id == first || c.id == o.played + 1 then
        Done(m.(played := c.id, log := o.log + [Direct(c)]))
      else
        var q := c.id % |o.slots|;
        if o.slots[q].None? then Done(Flush(m.(slots := o.slots[q := Some(c)])))
        else Cleanup(m, q)
  }

  /** The delivery puts its chunk in a slot. */
  predicate Stores(o: Out, first: int, c: Chunk)
    requires |o.slots| > 0 && o.played >= -1
  {
    c.id > o.played && c.id != first && c.id != o.played + 1 && o.slots[c.id % |o.slots|].None?
  }

  /** The delivery writes its chunk at once. */
  predicate Writes(o: Out, first: int, c: Chunk) {
    c.id > o.played && (c.id == first || c.id == o.played + 1)
  }

  // ---- Slots and bounds ----

  /** What holds of an occupied slot. */
  predicate SlotOk(o: Out, i: int)
    requires 0 <= i < |o.slots|
  {
    o.slots[i].Some? ==>
      0 <= o.slots[i].value.id <= o.maximum && o.slots[i].value.id % |o.slots| == i
  }

  predicate Inv(o: Out) {
    && |o.slots| > 0
    && -1 <= o.played <= o.maximum
    && forall i | 0 <= i < |o.slots| :: SlotOk(o, i)
  }

  lemma {:induction false} FlushScanInv(o: Out, i: int, hi: int)
    requires Inv(o) && 0 <= i && hi <= |o.slots|
    ensures var r := FlushScan(o, i, hi); Inv(r) && r.played == o.played && r.maximum == o.maximum
    decreases hi - i
  {
    if i < hi && o.slots[i].Some? {
      var f := Free(o, i);
      assert forall j | 0 <= j < |f.slots| :: SlotOk(o, j) ==> SlotOk(f, j);
      FlushScanInv(f, i + 1, hi);
    }
  }

  lemma {:induction false} CleanScanInv(o: Out, i: int, hi: int)
    requires Inv(o) && 0 <= i && hi <= |o.slots|
    ensures var r := CleanScan(o, i, hi); Inv(r) && r.maximum == o.maximum && (o.played >= 0 ==> r.played >= 0)
    decreases hi - i
  {
    if i < hi {
      if o.slots[i].Some? {
        assert SlotOk(o, i);
        var f := Free(o, i).(played := o.slots[i].value.id);
        assert forall j | 0 <= j < |f.slots| :: SlotOk(o, j) ==> SlotOk(f, j);
        CleanScanInv(f, i + 1, hi);
      } else {
        CleanScanInv(o, i + 1, hi);
      }
    }
  }

  lemma FlushInv(o: Out)
    requires Inv(o)
    ensures Inv(Flush(o)) && Flush(o).played == o.played && Flush(o).maximum == o.maximum
  {
    var p := CMod(o.played, |o.slots|);
    FlushScanInv(o, p + 1, |o.slots|);
    FlushScanInv(FlushScan(o, p + 1, |o.slots|), 0, p);
  }

  lemma CleanupInv(o: Out, q: int)
    requires Inv(o) && 0 <= q < |o.slots| && Cleanup(o, q).Done?
    ensures var r := Cleanup(o, q).out; Inv(r) && r.maximum == o.maximum && (o.played >= 0 ==> r.played >= 0)
  {
    var p := CMod(o.played, |o.slots|);
    CleanScanInv(o, p, q);
    CleanScanInv(CleanScan(o, p, q), 0, q);
  }

  lemma NotedInv(o: Out, c: Chunk)
    requires Inv(o)
    ensures Inv(Noted(o, c)) && (c.id > o.played ==> c.id <= Noted(o, c).maximum)
  {
    assert forall j | 0 <= j < |o.slots| :: SlotOk(o, j) ==> SlotOk(Noted(o, c), j);
  }

  lemma DeliverInv(o: Out, first: int, c: Chunk)
    requires Inv(o) && Deliver(o, first, c).Done?
    ensures var r := Deliver(o, first, c).out;
            && Inv(r)
            && r.maximum == (if c.id > o.played && c.id > o.maximum then c.id else o.maximum)
            && (o.played >= 0 ==> r.played >= 0)
  {
    NotedInv(o, c);
    var m := Noted(o, c);
    var q := c.id % |o.slots|;
    if Writes(o, first, c) {
      var r := Deliver(o, first, c).out;
      assert forall j | 0 <= j < |o.slots| :: SlotOk(m, j) ==> SlotOk(r, j);
    } else if Stores(o, first, c) {
      var s := m.(slots := m.slots[q := Some(c)]);
      assert forall j | 0 <= j < |s.slots| :: SlotOk(m, j) ==> SlotOk(s, j);
      FlushInv(s);
    } else if c.id > o.played {
      CleanupInv(m, q);
    }
  }

  /** Exactly when a delivery leaves the slot array: a slot is taken before anything was played. */
  lemma OutOfBoundsIff(o: Out, first: int, c: Chunk)
    requires Inv(o)
    ensures Deliver(o, first, c).OutOfBounds? <==>
            o.played == -1 && |o.slots| > 1 && c.id > 0 && c.id != first && o.slots[c.id % |o.slots|].Some?
  {
    assert |o.slots| > 1 ==> 1 % |o.slots| == 1;
  }

  // ---- Conservation ----

  /** How often `c` sits in a slot or has been written out of one. */
  ghost function Weight(o: Out, c: Chunk): int {
    multiset(o.slots)[Some(c)] + multiset(o.log)[FromSlot(c)]
  }

  ghost predicate SameWeights(o: Out, r: Out) {
    forall c :: Weight(o, c) == Weight(r, c)
  }

  /** `r` differs from `o` only by slots that were written out. */
  ghost predicate Drained(o: Out, r: Out) {
    && |r.slots| == |o.slots|
    && SameWeights(o, r)
    && (forall i | 0 <= i < |o.slots| :: r.slots[i] == o.slots[i] || (o.slots[i].Some? && r.slots[i].None?))
    && |o.log| <= |r.log| && r.log[..|o.log|] == o.log
    && (forall k | |o.log| <= k < |r.log| :: r.log[k].FromSlot? && Some(r.log[k].c) in o.slots)
  }

  lemma DrainedWeight(o: Out, r: Out, c: Chunk)
    requires Drained(o, r)
    ensures Weight(o, c) == Weight(r, c)
  {
  }

  lemma FreeDrains(o: Out, i: int)
    requires 0 <= i < |o.slots| && o.slots[i].Some?
    ensures Drained(o, Free(o, i))
  {
    var r := Free(o, i);
    forall c ensures Weight(o, c) == Weight(r, c) {
      assert multiset(r.slots) == multiset(o.slots)[o.slots[i] := multiset(o.slots)[o.slots[i]] - 1] + multiset{None};
    }
  }

  lemma DrainedTransitive(a: Out, b: Out, c: Out)
    requires Drained(a, b) && Drained(b, c)
    ensures Drained(a, c)
  {
    forall x ensures Weight(a, x) == Weight(c, x) {
      DrainedWeight(a, b, x);
      DrainedWeight(b, c, x);
    }
    assert c.log[..|a.log|] == c.log[..|b.log|][..|a.log|];
    forall k | |a.log| <= k < |c.log| ensures c.log[k].FromSlot? && Some(c.log[k].c) in a.slots {
      if k < |b.log| {
        assert c.log[k] == b.log[k];
      } else {
        SlotsWere(a, b, Some(c.log[k].c));
      }
    }
  }

  lemma SlotsWere(o: Out, r: Out, x: Option<Chunk>)
    requires Drained(o, r) && x in r.slots && x.Some?
    ensures x in o.slots
  {
    var j :| 0 <= j < |r.slots| && r.slots[j] == x;
    assert o.slots[j] == x;
  }

  /** Only slots and log matter. */
  lemma DrainedFrame(o: Out, r: Out, o': Out, r': Out)
    requires Drained(o, r)
    requires o'.slots == o.slots && o'.log == o.log && r'.slots == r.slots && r'.log == r.log
    ensures Drained(o', r')
  {
    forall c ensures Weight(o', c) == Weight(r', c) {
      DrainedWeight(o, r, c);
    }
  }

  lemma FreeAndNoteDrains(o: Out, i: int, played: int)
    requires 0 <= i < |o.slots| && o.slots[i].Some?
    ensures Drained(o, Free(o, i).(played := played))
  {
    FreeDrains(o, i);
    DrainedFrame(o, Free(o, i), o, Free(o, i).(played := played));
  }

  lemma NothingDrained(o: Out)
    ensures Drained(o, o)
  {
  }

  lemma {:induction false} FlushScanDrains(o: Out, i: int, hi: int)
    requires 0 <= i && hi <= |o.slots|
    ensures Drained(o, FlushScan(o, i, hi))
    decreases hi - i
  {
    if i < hi && o.slots[i].Some? {
      var f := Free(o, i);
      assert Drained(o, f) by {
        FreeDrains(o, i);
      }
      var r := FlushScan(f, i + 1, hi);
      assert Drained(f, r) by {
        FlushScanDrains(f, i + 1, hi);
      }
      DrainedTransitive(o, f, r);
    } else {
      NothingDrained(o);
    }
  }

  lemma {:induction false} CleanScanDrains(o: Out, i: int, hi: int)
    requires 0 <= i && hi <= |o.slots|
    ensures Drained(o, CleanScan(o, i, hi))
    decreases hi - i
  {
    if i >= hi {
      NothingDrained(o);
    } else if o.slots[i].Some? {
      var f := Free(o, i).(played := o.slots[i].value.id);
      assert Drained(o, f) by {
        FreeAndNoteDrains(o, i, f.played);
      }
      var r := CleanScan(f, i + 1, hi);
      assert Drained(f, r) by {
        CleanScanDrains(f, i + 1, hi);
      }
      DrainedTransitive(o, f, r);
    } else {
      CleanScanDrains(o, i + 1, hi);
    }
  }

  lemma TwoScansDrain(o: Out, i: int, p: int)
    requires 0 <= i && p <= |o.slots|
    ensures Drained(o, FlushScan(FlushScan(o, i, |o.slots|), 0, p))
  {
    var a := FlushScan(o, i, |o.slots|);
    var b := FlushScan(a, 0, p);
    assert Drained(o, a) by {
      FlushScanDrains(o, i, |o.slots|);
    }
    assert Drained(a, b) by {
      FlushScanDrains(a, 0, p);
    }
    DrainedTransitive(o, a, b);
  }

  lemma FlushDrains(o: Out)
    requires |o.slots| > 0 && o.played >= -1
    ensures Drained(o, Flush(o))
  {
    TwoScansDrain(o, CMod(o.played, |o.slots|) + 1, CMod(o.played, |o.slots|));
  }

  lemma CleanupDrains(o: Out, q: int)
    requires o.played >= -1 && 0 <= q < |o.slots| && Cleanup(o, q).Done?
    ensures Drained(o, Cleanup(o, q).out)
  {
    var p := CMod(o.played, |o.slots|);
    var a := CleanScan(o, p, q);
    assert Drained(o, a) by {
      CleanScanDrains(o, p, q);
    }
    if q < p {
      assert Drained(a, CleanScan(a, 0, q)) by {
        CleanScanDrains(a, 0, q);
      }
      DrainedTransitive(o, a, CleanScan(a, 0, q));
    }
  }

  /** The state between putting the chunk in a slot, or writing it, and draining slots. */
  function Taken(o: Out, first: int, c: Chunk): (r: Out)
    requires |o.slots| > 0 && o.played >= -1
  {
    if Writes(o, first, c) then o.(log := o.log + [Direct(c)])
    else if Stores(o, first, c) then o.(slots := o.slots[c.id % |o.slots| := Some(c)])
    else o
  }

  lemma TakenWeight(o: Out, first: int, c: Chunk, x: Chunk)
    requires |o.slots| > 0 && o.played >= -1
    ensures Weight(Taken(o, first, c), x) == Weight(o, x) + if Stores(o, first, c) && x == c then 1 else 0
  {
    if Stores(o, first, c) {
      var q := c.id % |o.slots|;
      assert multiset(o.slots[q := Some(c)]) ==
             multiset(o.slots)[None := multiset(o.slots)[None] - 1] + multiset{Some(c)};
    }
  }

  /** How often `c` was written straight from its delivery. */
  ghost function Straight(o: Out, c: Chunk): int {
    multiset(o.log)[Direct(c)]
  }

  lemma DrainedStraight(o: Out, r: Out, c: Chunk)
    requires Drained(o, r)
    ensures Straight(o, c) == Straight(r, c)
  {
    var more := r.log[|o.log|..];
    assert r.log == o.log + more;
    assert Direct(c) !in more;
  }

  lemma TakenDrains(o: Out, first: int, c: Chunk)
    requires Inv(o) && Deliver(o, first, c).Done?
    ensures Drained(Taken(o, first, c), Deliver(o, first, c).out)
  {
    var t, r := Taken(o, first, c), Deliver(o, first, c).out;
    var m := Noted(o, c).(slots := t.slots, log := t.log);
    if Stores(o, first, c) {
      FlushDrains(m);
      DrainedFrame(m, r, t, r);
    } else if c.id > o.played && !Writes(o, first, c) {
      assert m == Noted(o, c);
      CleanupDrains(m, c.id % |o.slots|);
      DrainedFrame(m, r, t, r);
    } else {
      NothingDrained(t);
      DrainedFrame(t, t, t, r);
    }
  }

  /**
   A delivery takes its chunk in at most once, never over an occupied slot, and apart from
   that only moves chunks from slots to the writer. A chunk that it neither writes nor stores
   is lost: it is then in no slot, and nowhere in the log, where it was not before.
  */
  lemma DeliverDrains(o: Out, first: int, c: Chunk)
    requires Inv(o) && Deliver(o, first, c).Done?
    ensures Drained(Taken(o, first, c), Deliver(o, first, c).out)
    ensures forall x :: Weight(Deliver(o, first, c).out, x) ==
                        Weight(o, x) + if Stores(o, first, c) && x == c then 1 else 0
    ensures forall x :: Straight(Deliver(o, first, c).out, x) ==
                        Straight(o, x) + if Writes(o, first, c) && x == c then 1 else 0
  {
    var t, r := Taken(o, first, c), Deliver(o, first, c).out;
    TakenDrains(o, first, c);
    forall x ensures Weight(r, x) == Weight(o, x) + if Stores(o, first, c) && x == c then 1 else 0 {
      TakenWeight(o, first, c, x);
      DrainedWeight(t, r, x);
    }
    forall x ensures Straight(r, x) == Straight(o, x) + if Writes(o, first, c) && x == c then 1 else 0 {
      DrainedStraight(t, r, x);
    }
  }

  // ---- Whole runs ----

  /** A delivery and the value of `firstChunk` when it happens. */
  datatype Delivery = Delivery(first: int, c: Chunk)

  function Run(o: Out, ds: seq<Delivery>): (r: Outcome)
    requires Inv(o)
    decreases |ds|
  {
    if ds == [] then Done(o)
    else
      var r := Deliver(o, ds[0].first, ds[0].c);
      if r.OutOfBounds? then r
      else
        DeliverInv(o, ds[0].first, ds[0].c);
        Run(r.out, ds[1..])
  }

  /** The chunks that a run puts into slots. */
  function StoredBy(o: Out, ds: seq<Delivery>): multiset<Chunk>
    requires Inv(o) && Run(o, ds).Done?
    decreases |ds|
  {
    if ds == [] then multiset{}
    else
      var (first, c) := (ds[0].first, ds[0].c);
      DeliverInv(o, first, c);
      (if Stores(o, first, c) then multiset{c} else multiset{}) + StoredBy(Deliver(o, first, c).out, ds[1..])
  }

  /**
   Over any run: what was ever stored is what was written out of slots plus what is still
   there; slots and bounds stay in order and the highest id seen never falls.
  */
  lemma {:induction false} RunConserves(o: Out, ds: seq<Delivery>)
    requires Inv(o) && Run(o, ds).Done?
    ensures var r := Run(o, ds).out;
            && Inv(r) && r.maximum >= o.maximum
            && (o.played >= 0 ==> r.played >= 0)
            && forall x :: Weight(r, x) == Weight(o, x) + StoredBy(o, ds)[x]
    decreases |ds|
  {
    if ds != [] {
      DeliverInv(o, ds[0].first, ds[0].c);
      DeliverDrains(o, ds[0].first, ds[0].c);
      RunConserves(Deliver(o, ds[0].first, ds[0].c).out, ds[1..]);
    }
  }

  /** From the initial state: each stored chunk leaves its slot at most once. */
  lemma RunFromInit(size: nat, ds: seq<Delivery>)
    requires size > 0 && Run(Init(size), ds).Done?
    ensures var r := Run(Init(size), ds).out;
            forall x :: multiset(r.slots)[Some(x)] + multiset(r.log)[FromSlot(x)] == StoredBy(Init(size), ds)[x]
  {
    RunConserves(Init(size), ds);
    assert forall x: Chunk :: Some(x) !in Init(size).slots;
    var r := Run(Init(size), ds).out;
    assert forall x :: Weight(r, x) == Weight(Init(size), x) + StoredBy(Init(size), ds)[x];
  }

  /** Once something has been played no delivery leaves the slot array. */
  lemma {:induction false} NeverOutOfBoundsAgain(o: Out, ds: seq<Delivery>)
    requires Inv(o) && o.played >= 0
    ensures Run(o, ds).Done?
    decreases |ds|
  {
    if ds != [] {
      OutOfBoundsIff(o, ds[0].first, ds[0].c);
      DeliverInv(o, ds[0].first, ds[0].c);
      NeverOutOfBoundsAgain(Deliver(o, ds[0].first, ds[0].c).out, ds[1..]);
    }
  }

  /** Before that a repeated early chunk is enough: chunk 7 twice while chunk 5 is awaited. */
  lemma OutOfBoundsHappens(c: Chunk)
    requires IsVideo(c) && c.id == 7
    ensures Run(Init(4), [Delivery(5, c), Delivery(5, c)]).OutOfBounds?
  {
    var d := Delivery(5, c);
    var r := Deliver(Init(4), 5, c).out;
    assert r.slots[3].Some? && r.played == -1;
    assert [d, d][1..] == [d];
  }
}
