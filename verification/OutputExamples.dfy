/** Short arrivals that show what the reorder buffer, as the code stands, plays of a stream. */
module OutputExamples {
  import opened Chunks
  import opened Output
  import opened OutputComplete
  import OutputOrder
  import OutputRises

  /** A chunk of one byte, delivered while the first chunk is 0. */
  function Of(id: int): (d: Delivery)
    ensures d.first == 0 && d.c.id == id && IsVideo(d.c)
  {
    Delivery(0, OneByteChunk(id, 0))
  }

  /** Two deliveries, and a run after them. */
  lemma RunTwo(o: Out, d: Delivery, a: Out, e: Delivery, b: Out, ds: seq<Delivery>, r: Out)
    requires Inv(o) && Inv(a) && Inv(b)
    requires Deliver(o, d.first, d.c) == Done(a) && Deliver(a, e.first, e.c) == Done(b)
    requires Run(b, ds) == Done(r)
    ensures Run(o, [d, e] + ds) == Done(r)
  {
    assert ([d, e] + ds)[1..] == [e] + ds && ([e] + ds)[1..] == ds;
  }

  /** After 0, after 0 and 2, and after 0, 2 and 1. */
  function One(): Out {
    Out([None, None, None, None], 0, 0, [Direct(Of(0).c)])
  }

  function Two(): Out {
    Out([None, None, Some(Of(2).c), None], 0, 2, [Direct(Of(0).c)])
  }

  function Three(): Out {
    Out([None, None, Some(Of(2).c), None], 1, 2, [Direct(Of(0).c), Direct(Of(1).c)])
  }

  lemma ZeroArrives(size: nat)
    requires size == 4
    ensures Inv(One()) && Deliver(Init(size), 0, Of(0).c) == Done(One())
  {
  }

  lemma TwoArrives()
    ensures Inv(Two()) && Deliver(One(), 0, Of(2).c) == Done(Two())
  {
    assert One().slots[2 := Some(Of(2).c)] == Two().slots;
  }

  lemma FirstTwo(size: nat, ds: seq<Delivery>, r: Out)
    requires size == 4 && Inv(Two()) && Run(Two(), ds) == Done(r)
    ensures Run(Init(size), [Of(0), Of(2)] + ds) == Done(r)
  {
    ZeroArrives(size);
    TwoArrives();
    RunTwo(Init(size), Of(0), One(), Of(2), Two(), ds, r);
  }

  lemma FlushTwo(log: seq<Write>)
    ensures var c2, c3 := Of(2).c, Of(3).c;
            Flush(Out([None, None, Some(c2), Some(c3)], 1, 3, log)) ==
            Out([None, None, None, None], 1, 3, log + [FromSlot(c2), FromSlot(c3)])
  {
    var c2, c3 := Of(2).c, Of(3).c;
    var s := Out([None, None, Some(c2), Some(c3)], 1, 3, log);
    var a := Out([None, None, None, Some(c3)], 1, 3, log + [FromSlot(c2)]);
    var b := Out([None, None, None, None], 1, 3, log + [FromSlot(c2), FromSlot(c3)]);
    assert Free(s, 2) == a && Free(a, 3) == b;
    assert FlushScan(b, 4, 4) == b;
    assert FlushScan(a, 3, 4) == b;
    assert FlushScan(s, 2, 4) == b;
  }

  lemma ThreeArrives() returns (r: Out)
    ensures Deliver(Three(), 0, Of(3).c) == Done(r) && Inv(r)
    ensures r.slots == [None, None, None, None]
    ensures r.log == Three().log + [FromSlot(Of(2).c), FromSlot(Of(3).c)]
  {
    assert Three().slots[3 := Some(Of(3).c)] == [None, None, Some(Of(2).c), Some(Of(3).c)];
    FlushTwo(Three().log);
    r := Deliver(Three(), 0, Of(3).c).out;
  }

  lemma OneArrives()
    ensures Inv(Two()) && Inv(Three()) && Deliver(Two(), 0, Of(1).c) == Done(Three())
  {
  }

  /** Chunk 2 arrives early and is played in its turn. */
  lemma EarlyArrival(size: nat)
    requires size == 4
    ensures var r := Run(Init(size), [Of(0), Of(2)] + [Of(1), Of(3)]);
            r.Done? && PlayedAll(r.out, 0, 3)
  {
    OneArrives();
    var r := ThreeArrives();
    RunTwo(Two(), Of(1), Three(), Of(3), r, [], r);
    assert [Of(1), Of(3)] + [] == [Of(1), Of(3)];
    FirstTwo(size, [Of(1), Of(3)], r);
  }

  /** The ids rise in that run, though its last delivery leaves `playedChunk` behind. */
  lemma RisesOutOfOrder() returns (r: Out)
    ensures Inv(Three()) && OutputOrder.InOrder(Three()) && Deliver(Three(), 0, Of(3).c) == Done(r)
    ensures !OutputOrder.KeepsOrder(Three(), 0, Of(3).c) && !OutputOrder.InOrder(r)
    ensures OutputRises.KeepsRising(Three(), 0, Of(3).c) && OutputRises.IdsRise(r.log)
  {
    r := ThreeArrives();
    OneArrives();
    OutputOrder.DeliverKeepsOrderIff(Three(), 0, Of(3).c);
    OutputRises.DeliverRisesIff(Three(), 0, Of(3).c);
  }

  /** Without chunk 3 behind it, it stays in its slot. */
  lemma StaysIncomplete(size: nat)
    requires size == 4
    ensures var r := Run(Init(size), [Of(0), Of(2)] + [Of(1)]);
            && r.Done? && r.out.log == [Direct(Of(0).c), Direct(Of(1).c)]
            && r.out.slots == [None, None, Some(Of(2).c), None]
  {
    OneArrives();
    assert [Of(1)][1..] == [];
    assert Run(Three(), []) == Done(Three());
    assert Run(Two(), [Of(1)]) == Done(Three());
    FirstTwo(size, [Of(1)], Three());
  }

  // ---- Three slots: a chunk beyond the window is lost ----

  function Lost0(): Out {
    Out([None, Some(Of(1).c), Some(Of(2).c)], -1, 2, [])
  }

  function Lost1(): Out {
    Out([None, Some(Of(1).c), Some(Of(2).c)], 0, 2, [Direct(Of(0).c)])
  }

  function Lost2(): Out {
    Out([None, None, Some(Of(2).c)], 1, 4, [Direct(Of(0).c), FromSlot(Of(1).c)])
  }

  function Lost3(): Out {
    Out([None, None, None], 1, 4, [Direct(Of(0).c), FromSlot(Of(1).c), FromSlot(Of(2).c), FromSlot(Of(3).c)])
  }

  lemma OneAndTwoWait(size: nat, ds: seq<Delivery>, r: Out)
    requires size == 3 && Inv(Lost0()) && Run(Lost0(), ds) == Done(r)
    ensures Run(Init(size), [Of(1), Of(2)] + ds) == Done(r)
  {
    var a := Out([None, Some(Of(1).c), None], -1, 1, []);
    assert Init(size).slots[1 := Some(Of(1).c)] == a.slots;
    assert a.slots[2 := Some(Of(2).c)] == Lost0().slots;
    assert Deliver(Init(size), 0, Of(1).c) == Done(a);
    assert Deliver(a, 0, Of(2).c) == Done(Lost0());
    RunTwo(Init(size), Of(1), a, Of(2), Lost0(), ds, r);
  }

  lemma ZeroPlayed()
    ensures Inv(Lost0()) && Inv(Lost1()) && Deliver(Lost0(), 0, Of(0).c) == Done(Lost1())
  {
  }

  lemma FourRefused()
    ensures Inv(Lost1().(maximum := 4)) && Deliver(Lost1(), 0, Of(4).c) == Done(Lost1().(maximum := 4))
  {
    var b := Lost1().(maximum := 4);
    assert CleanScan(b, 0, 1) == b;
  }

  lemma ZeroAndFour(ds: seq<Delivery>, r: Out)
    requires Inv(Lost1().(maximum := 4)) && Run(Lost1().(maximum := 4), ds) == Done(r)
    ensures Inv(Lost0()) && Run(Lost0(), [Of(0), Of(4)] + ds) == Done(r)
  {
    ZeroPlayed();
    FourRefused();
    RunTwo(Lost0(), Of(0), Lost1(), Of(4), Lost1().(maximum := 4), ds, r);
  }

  lemma TwoCleansUp()
    ensures Inv(Lost1().(maximum := 4)) && Inv(Lost2())
    ensures Deliver(Lost1().(maximum := 4), 0, Of(2).c) == Done(Lost2())
  {
    var b := Lost1().(maximum := 4);
    assert Free(b, 1).(played := 1) == Lost2();
    assert CleanScan(Lost2(), 2, 2) == Lost2();
    assert CleanScan(b, 1, 2) == Lost2();
    assert CleanScan(b, 0, 2) == Lost2();
  }

  lemma ThreeFlushes()
    ensures Inv(Lost2()) && Inv(Lost3()) && Deliver(Lost2(), 0, Of(3).c) == Done(Lost3())
  {
    var s := Out([Some(Of(3).c), None, Some(Of(2).c)], 1, 4, Lost2().log);
    var a := Out([Some(Of(3).c), None, None], 1, 4, Lost2().log + [FromSlot(Of(2).c)]);
    assert Lost2().slots[0 := Some(Of(3).c)] == s.slots;
    assert Free(s, 2) == a && Free(a, 0) == Lost3();
    assert FlushScan(a, 3, 3) == a;
    assert FlushScan(s, 2, 3) == a;
    assert FlushScan(Lost3(), 1, 1) == Lost3();
    assert FlushScan(a, 0, 1) == Lost3();
  }

  lemma LostRun(size: nat, ds: seq<Delivery>)
    requires size == 3 && ds == [Of(1), Of(2)] + ([Of(0), Of(4)] + [Of(2), Of(3)])
    ensures Run(Init(size), ds) == Done(Lost3())
  {
    var rest := [Of(2), Of(3)];
    TwoCleansUp();
    ThreeFlushes();
    RunTwo(Lost1().(maximum := 4), Of(2), Lost2(), Of(3), Lost3(), [], Lost3());
    assert rest + [] == rest;
    ZeroAndFour(rest, Lost3());
    OneAndTwoWait(size, [Of(0), Of(4)] + rest, Lost3());
  }

  lemma LostPlays()
    ensures PlayedAll(Lost3(), 0, 3)
  {
  }

  lemma LostIds(ds: seq<Delivery>)
    requires |ds| == 6 && ds[0] == Of(1) && ds[1] == Of(2) && ds[2] == Of(0) && ds[3] == Of(4) && ds[5] == Of(3)
    ensures forall id | 0 <= id <= 4 :: id in IdsOf(ds)
  {
  }

  /** 4 arrives while its slot holds 1. In the end all others are played, and no slot keeps it. */
  lemma LostBeyondWindow(size: nat, ds: seq<Delivery>)
    requires size == 3 && ds == [Of(1), Of(2)] + ([Of(0), Of(4)] + [Of(2), Of(3)])
    ensures forall id | 0 <= id <= 4 :: id in IdsOf(ds)
    ensures Run(Init(size), ds).Done? && PlayedAll(Run(Init(size), ds).out, 0, 3)
  {
    LostRun(size, ds);
    LostPlays();
    LostIds(ds);
  }
}
