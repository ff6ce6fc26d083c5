/** What the window policy plays over whole runs. */
module WindowRuns {
  import opened Chunks
  import opened Window
  import opened Residues

  function Run(w: Win, cs: seq<Chunk>): (r: Win)
    requires |w.slots| > 0
    ensures |r.slots| == |w.slots|
    decreases |cs|
  {
    if cs == [] then w else Run(Deliver(w, cs[0]).0, cs[1..])
  }

  lemma StartOk(size: nat, first: nat)
    requires size > 0
    ensures Inv(Start(size, first))
  {
  }

  /** Any run at all: ids handed to the ring writer rise strictly, and only delivered chunks are played. */
  lemma {:induction false} RunOk(w: Win, cs: seq<Chunk>)
    requires Inv(w)
    ensures Inv(Run(w, cs)) && Increasing(Run(w, cs).log)
    ensures forall x | Holds(Run(w, cs), x) :: Holds(w, x) || x in cs
    decreases |cs|
  {
    if cs != [] {
      DeliverOk(w, cs[0]);
      RunOk(Deliver(w, cs[0]).0, cs[1..]);
    }
  }

  /** Every chunk arrives less than `size` ahead of the next to play. */
  predicate InTime(w: Win, cs: seq<Chunk>)
    requires |w.slots| > 0
    decreases |cs|
  {
    cs == [] || (cs[0].id < w.next + |w.slots| && InTime(Deliver(w, cs[0]).0, cs[1..]))
  }

  predicate SlotHas(w: Win, id: int)
    requires |w.slots| > 0
  {
    w.slots[id % |w.slots|].Some? && w.slots[id % |w.slots|].value.id == id
  }

  /** The log is the ids from `first` to `next`, all in `ids`; later members of `ids` are in the slots. */
  ghost predicate Tracks(w: Win, first: int, ids: set<int>)
    requires |w.slots| > 0
  {
    && w.next == first + |w.log|
    && (forall k | 0 <= k < |w.log| :: w.log[k].id == first + k)
    && (forall id | first <= id < w.next :: id in ids)
    && (forall id | id >= w.next :: id in ids <==> SlotHas(w, id))
  }

  lemma FreeNextTracks(w: Win, first: int, ids: set<int>)
    requires InWindow(w, 0) && w.slots[w.next % |w.slots|].Some? && Tracks(w, first, ids)
    ensures Tracks(Free(w, w.next % |w.slots|), first, ids)
  {
    FreeNext(w);
    var i := w.next % |w.slots|;
    var r := Free(w, i);
    forall id | id >= r.next ensures id in ids <==> SlotHas(r, id) {
      assert id in ids <==> SlotHas(w, id);
      assert id % |w.slots| != i ==> r.slots[id % |w.slots|] == w.slots[id % |w.slots|];
    }
    assert w.next in ids by {
      assert SlotHas(w, w.next);
    }
  }

  lemma {:induction false} FlushStepsTracks(w: Win, k: nat, first: int, ids: set<int>)
    requires InWindow(w, 0) && Tracks(w, first, ids)
    ensures Tracks(FlushSteps(w, w.next % |w.slots|, k), first, ids)
    decreases k
  {
    var i := w.next % |w.slots|;
    if k > 0 && w.slots[i].Some? {
      FreeNext(w);
      FreeNextTracks(w, first, ids);
      NextSlot(|w.slots|, w.next);
      FlushStepsTracks(Free(w, i), k - 1, first, ids);
    }
  }

  /** The ids from `first` on that a list of chunks brings. */
  function IdsFrom(first: int, cs: seq<Chunk>): set<int> {
    set c | c in cs && c.id >= first :: c.id
  }

  lemma DeliverTracks(w: Win, c: Chunk, first: int, ids: set<int>)
    requires Inv(w) && first <= w.next && Tracks(w, first, ids) && c.id < w.next + |w.slots|
    ensures Tracks(Deliver(w, c).0, first, ids + IdsFrom(first, [c]))
  {
    var ids' := ids + IdsFrom(first, [c]);
    assert c.id >= first ==> ids' == ids + {c.id};
    assert c.id < first ==> ids' == ids;
    if c.id == w.next {
      var m := Win(w.slots, w.next + 1, w.log + [c]);
      forall i | 0 <= i < |m.slots| ensures SlotOk(m, i, 0) {
        assert SlotOk(w, i, 1);
      }
      assert InWindow(m, 0);
      assert forall id | id >= m.next :: SlotHas(m, id) <==> SlotHas(w, id);
      FlushStepsTracks(m, |m.slots|, first, ids');
    } else if c.id > w.next {
      var s := c.id % |w.slots|;
      assert SlotOk(w, s, 1);
      if w.slots[s].Some? {
        SameSlot(|w.slots|, c.id, w.slots[s].value.id);
        assert SlotHas(w, c.id);
      } else {
        var m := w.(slots := w.slots[s := Some(c)]);
        forall id | id >= m.next ensures id in ids' <==> SlotHas(m, id) {
          assert id in ids <==> SlotHas(w, id);
        }
      }
    } else if c.id >= first {
      assert c.id in ids;
    }
  }

  lemma {:induction false} RunTracks(w: Win, cs: seq<Chunk>, first: int, ids: set<int>)
    requires Inv(w) && first <= w.next && Tracks(w, first, ids) && InTime(w, cs)
    ensures Tracks(Run(w, cs), first, ids + IdsFrom(first, cs))
    decreases |cs|
  {
    if cs == [] {
      assert ids + IdsFrom(first, cs) == ids;
    } else {
      var r := Deliver(w, cs[0]).0;
      DeliverOk(w, cs[0]);
      DeliverTracks(w, cs[0], first, ids);
      RunTracks(r, cs[1..], first, ids + IdsFrom(first, [cs[0]]));
      assert cs == [cs[0]] + cs[1..];
      assert ids + IdsFrom(first, cs) == ids + IdsFrom(first, [cs[0]]) + IdsFrom(first, cs[1..]);
    }
  }

  /**
   Deliveries in time, in any order and with duplicates: what is played is exactly the ids
   from `first` up to the first one never delivered, and the slots hold exactly the later ones.
  */
  lemma PlaysUpToFirstGap(size: nat, first: nat, cs: seq<Chunk>)
    requires size > 0 && InTime(Start(size, first), cs)
    ensures var r, ids := Run(Start(size, first), cs), IdsFrom(first, cs);
            && (forall k | 0 <= k < |r.log| :: r.log[k].id == first + k && r.log[k] in cs)
            && (forall id | first <= id < first + |r.log| :: id in ids)
            && first + |r.log| !in ids && r.next == first + |r.log|
            && (forall id | id > first + |r.log| :: id in ids <==> SlotHas(r, id))
            && (forall i | 0 <= i < size && r.slots[i].Some? ::
                  r.slots[i].value in cs && r.slots[i].value.id > first + |r.log|)
  {
    var w := Start(size, first);
    StartOk(size, first);
    RunOk(w, cs);
    assert Tracks(w, first, {});
    RunTracks(w, cs, first, {});
    var r, ids := Run(w, cs), IdsFrom(first, cs);
    assert {} + ids == ids;
    assert r.next !in ids by {
      assert SlotOk(r, r.next % size, 1);
    }
    forall k | 0 <= k < |r.log| ensures r.log[k] in cs {
      assert Holds(r, r.log[k]);
    }
    forall i | 0 <= i < size && r.slots[i].Some?
      ensures r.slots[i].value in cs && r.slots[i].value.id > first + |r.log|
    {
      assert SlotOk(r, i, 1);
      assert Holds(r, r.slots[i].value);
    }
  }

  /** If everything from `first` to `last` is delivered and nothing beyond, exactly that is played. */
  lemma Complete(size: nat, first: nat, last: int, cs: seq<Chunk>)
    requires size > 0 && first <= last + 1 && InTime(Start(size, first), cs)
    requires forall id | first <= id <= last :: id in IdsFrom(first, cs)
    requires forall c | c in cs :: c.id <= last
    ensures var r := Run(Start(size, first), cs);
            && |r.log| == last + 1 - first
            && (forall k | 0 <= k < |r.log| :: r.log[k].id == first + k && r.log[k] in cs)
            && (forall i | 0 <= i < size :: r.slots[i].None?)
  {
    PlaysUpToFirstGap(size, first, cs);
    var r := Run(Start(size, first), cs);
    assert last + 1 !in IdsFrom(first, cs);
  }

  /** The order of arrival does not matter. */
  lemma OrderIrrelevant(size: nat, first: nat, cs: seq<Chunk>, ds: seq<Chunk>)
    requires size > 0 && InTime(Start(size, first), cs) && InTime(Start(size, first), ds)
    requires IdsFrom(first, cs) == IdsFrom(first, ds)
    ensures var r, s := Run(Start(size, first), cs), Run(Start(size, first), ds);
            |r.log| == |s.log| && forall k | 0 <= k < |r.log| :: r.log[k].id == s.log[k].id
  {
    PlaysUpToFirstGap(size, first, cs);
    PlaysUpToFirstGap(size, first, ds);
    var r, s := Run(Start(size, first), cs), Run(Start(size, first), ds);
    assert first + |r.log| !in IdsFrom(first, ds);
    assert first + |s.log| !in IdsFrom(first, cs);
  }
}
