/**
 Exactly when the code as written plays chunks in order: the ids it writes rise, wherever
 `playedChunk` and the slots are left.
*/
module OutputRises {
  import opened Chunks
  import opened Output
  import opened OutputOrder
  import opened OutputComplete

  /** The ids written so far rise strictly. */
  predicate IdsRise(log: seq<Write>) {
    forall i, j | 0 <= i < j < |log| :: log[i].c.id < log[j].c.id
  }

  /** The chunks can be written behind the log: their ids rise, from above the last one written. */
  predicate GoOn(log: seq<Write>, cs: seq<Chunk>) {
    Increasing(cs) && (log == [] || cs == [] || log[|log| - 1].c.id < cs[0].id)
  }

  /** The guard, on the state before the call: what the delivery writes goes on above the last id written. */
  predicate KeepsRising(o: Out, first: int, c: Chunk)
    requires |o.slots| > 0 && o.played >= -1
  {
    var n, q := |o.slots|, c.id % |o.slots|;
    var p := CMod(o.played, n);
    if c.id <= o.played then true
    else if c.id == first || c.id == o.played + 1 then GoOn(o.log, [c])
    else if o.slots[q].None? then
      var s := o.slots[q := Some(c)];
      -1 <= p < n && GoOn(o.log, FirstRun(s, p) + SecondRun(s, p))
    else 0 <= p && GoOn(o.log, Occupied(o.slots, if q < p then 0 else p, q))
  }

  /** Writing chunks behind a log keeps its ids rising exactly if they can go on there. */
  lemma GoesOnIff(log: seq<Write>, cs: seq<Chunk>, all: seq<Write>)
    requires IdsRise(log) && |all| == |log| + |cs| && all[..|log|] == log
    requires forall k | 0 <= k < |cs| :: all[|log| + k].c == cs[k]
    ensures IdsRise(all) <==> GoOn(log, cs)
  {
    assert forall k | 0 <= k < |log| :: all[k] == log[k];
    if IdsRise(all) {
      forall i, j | 0 <= i < j < |cs| ensures cs[i].id < cs[j].id {
        assert all[|log| + i].c == cs[i] && all[|log| + j].c == cs[j];
      }
      assert log != [] && cs != [] ==> all[|log| - 1].c.id < all[|log| + 0].c.id;
    }
    if GoOn(log, cs) {
      forall i, j | 0 <= i < j < |all| ensures all[i].c.id < all[j].c.id {
        if i < |log| <= j {
          AboveLast(log, cs, i, j - |log|);
        } else if |log| <= i {
          assert all[i].c == cs[i - |log|] && all[j].c == cs[j - |log|];
        }
      }
    }
  }

  lemma AboveLast(log: seq<Write>, cs: seq<Chunk>, i: nat, k: nat)
    requires IdsRise(log) && GoOn(log, cs) && i < |log| && k < |cs|
    ensures log[i].c.id < cs[k].id
  {
    assert i < |log| - 1 ==> log[i].c.id < log[|log| - 1].c.id;
    assert 0 < k ==> cs[0].id < cs[k].id;
  }

  lemma SlotsGoOnIff(log: seq<Write>, cs: seq<Chunk>)
    requires IdsRise(log)
    ensures IdsRise(log + FromSlots(cs)) <==> GoOn(log, cs)
  {
    GoesOnIff(log, cs, log + FromSlots(cs));
  }

  lemma FlushRisesIff(s: Out)
    requires |s.slots| > 0 && s.played >= -1 && IdsRise(s.log)
    ensures var p := CMod(s.played, |s.slots|);
            && -1 <= p < |s.slots|
            && (IdsRise(Flush(s).log) <==> GoOn(s.log, FirstRun(s.slots, p) + SecondRun(s.slots, p)))
  {
    var p := CMod(s.played, |s.slots|);
    FlushWrites(s);
    SlotsGoOnIff(s.log, FirstRun(s.slots, p) + SecondRun(s.slots, p));
  }

  lemma CleanupRisesIff(o: Out, q: int)
    requires o.played >= -1 && 0 <= q < |o.slots| && IdsRise(o.log)
    ensures var p := CMod(o.played, |o.slots|);
            Cleanup(o, q).Done? && IdsRise(Cleanup(o, q).out.log) <==>
            0 <= p && GoOn(o.log, Occupied(o.slots, if q < p then 0 else p, q))
  {
    var p := CMod(o.played, |o.slots|);
    CleanupWrites(o, q);
    if p >= 0 {
      SlotsGoOnIff(o.log, Occupied(o.slots, if q < p then 0 else p, q));
    }
  }

  /** A delivery completes and leaves the ids rising exactly if the guard holds. */
  lemma DeliverRisesIff(o: Out, first: int, c: Chunk)
    requires Inv(o) && IdsRise(o.log)
    ensures var r := Deliver(o, first, c);
            r.Done? && IdsRise(r.out.log) <==> KeepsRising(o, first, c)
  {
    var m, q := Noted(o, c), c.id % |o.slots|;
    if Writes(o, first, c) {
      GoesOnIff(o.log, [c], o.log + [Direct(c)]);
    } else if Stores(o, first, c) {
      FlushRisesIff(m.(slots := o.slots[q := Some(c)]));
    } else if c.id > o.played {
      CleanupRisesIff(m, q);
    }
  }

  /** The guard holds at every delivery of the run. */
  predicate RisingGuardsHold(o: Out, ds: seq<Delivery>)
    requires Inv(o)
    decreases |ds|
  {
    ds == [] ||
    (KeepsRising(o, ds[0].first, ds[0].c) &&
     var r := Deliver(o, ds[0].first, ds[0].c);
     r.Done? && (DeliverInv(o, ds[0].first, ds[0].c); RisingGuardsHold(r.out, ds[1..])))
  }

  lemma DisorderStays(log: seq<Write>, all: seq<Write>)
    requires |log| <= |all| && all[..|log|] == log && !IdsRise(log)
    ensures !IdsRise(all)
  {
    var i, j :| 0 <= i < j < |log| && log[i].c.id >= log[j].c.id;
    assert all[i] == log[i] && all[j] == log[j];
  }

  /** A run completes with all ids written in rising order exactly if the guard holds at every delivery. */
  lemma {:induction false} RunRisesIff(o: Out, ds: seq<Delivery>)
    requires Inv(o) && IdsRise(o.log)
    ensures Run(o, ds).Done? && IdsRise(Run(o, ds).out.log) <==> RisingGuardsHold(o, ds)
    decreases |ds|
  {
    if ds != [] {
      var (first, c) := (ds[0].first, ds[0].c);
      DeliverRisesIff(o, first, c);
      if Deliver(o, first, c).Done? {
        DeliverInv(o, first, c);
        var a := Deliver(o, first, c).out;
        if IdsRise(a.log) {
          RunRisesIff(a, ds[1..]);
        } else if Run(o, ds).Done? {
          RunGrows(a, ds[1..]);
          DisorderStays(a.log, Run(o, ds).out.log);
        }
      }
    }
  }
}
