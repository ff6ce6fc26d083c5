/**
 Which turns come to an end. While the receive thread waits for room in the ring, nothing
 but the player can help it: the threads that need the chunk buffer stop behind it. The
 player needs the ring's mutex alone, and enough of its passes end the wait.
*/
module LocksProgress {
  import opened Chunks
  import opened Locks
  import Ring

  // ---- Where nothing can go on ----

  /** Thread `i` is at the wait for room, and there is none. */
  predicate LacksRoom(s: System, i: nat) {
    && i < |s.threads| && s.threads[i].todo.Do? && s.threads[i].todo.op.Store?
    && !Fits(s.count, s.threads[i].todo.op)
  }

  /** It sleeps there: waking up now, it would find no room and go back to sleep. */
  predicate WaitsForRoom(s: System, i: nat) {
    LacksRoom(s, i) && s.threads[i].asleep
  }

  /** No thread can do anything but wake up in vain. */
  predicate NoProgress(s: System) {
    forall i: nat | i < |s.threads| :: CanMove(s, i) ==> WaitsForRoom(s, i)
  }

  predicate PlayersDone(s: System) {
    forall i | 0 <= i < |s.threads| && s.threads[i].role == Player :: s.threads[i].todo.Done?
  }

  predicate AllDone(s: System) {
    forall i | 0 <= i < |s.threads| :: s.threads[i].todo.Done?
  }

  /** Thread `i` has ended its turn, or needs a mutex that is taken. */
  predicate Stopped(s: System, i: nat)
    requires i < |s.threads|
  {
    s.threads[i].todo.Done? || exists j: nat | j < |s.threads| :: WaitsFor(s, i, j)
  }

  /** Thread `w` waits for room, no player's turn is under way, and every other thread is stopped. */
  predicate RoomNeeded(s: System, w: nat) {
    && WaitsForRoom(s, w) && PlayersDone(s)
    && forall i: nat | i < |s.threads| && i != w :: Stopped(s, i)
  }

  /** If a thread is in the middle of a turn, some thread can move. */
  lemma {:induction false} SomeoneMoves(s: System, i: nat) returns (j: nat)
    requires Inv(s) && i < |s.threads| && s.threads[i].todo.Do?
    ensures CanMove(s, j)
    decreases if Target(s.threads[i]) >= 0 then 4 - Target(s.threads[i]) else 0
  {
    if CanMove(s, i) {
      j := i;
    } else {
      var m := Wants(s.threads[i]).value;
      var h: nat :| h < |s.threads| && s.threads[h].held.Has(m);
      assert ThreadOk(s.threads[h]);
      assert WaitsFor(s, i, h);
      WaitsUpwards(s, i, h);
      j := SomeoneMoves(s, h);
    }
  }

  /** Whoever waits for room holds the chunk buffer's mutex. */
  lemma WaiterHolds(s: System, w: nat)
    requires Inv(s) && LacksRoom(s, w)
    ensures s.threads[w].held.chunkBuffer && s.threads[w].role == Receiver
    ensures s.threads[w].asleep || s.threads[w].held.ring
  {
    assert ThreadOk(s.threads[w]);
  }

  lemma OnlyWaiter(s: System, v: nat, w: nat)
    requires Inv(s) && LacksRoom(s, v) && LacksRoom(s, w)
    ensures v == w
  {
    WaiterHolds(s, v);
    WaiterHolds(s, w);
    OnlyHolder(s, ChunkBuffer, v, w);
  }

  /** A player in its turn can move as soon as the ring is free. */
  lemma PlayerNeedsRingOnly(s: System, i: nat)
    requires Inv(s) && i < |s.threads| && s.threads[i].role == Player && s.threads[i].todo.Do?
    ensures Wants(s.threads[i]) == None || Wants(s.threads[i]) == Some(RingMutex)
    ensures !s.threads[i].todo.op.Store?
  {
    assert ThreadOk(s.threads[i]);
  }

  /**
   Exactly where no thread can make progress: where all is done, or the receive thread needs
   room while no player reads and everybody else is done or stopped at a mutex.
  */
  lemma NoProgressIff(s0: System, actions: seq<Action>, s: System)
    requires Reached(s0, actions, s)
    ensures NoProgress(s) <==> AllDone(s) || exists w: nat :: RoomNeeded(s, w)
    ensures AllDone(s) ==> forall m :: IsFree(s, m)
  {
    ReachedKeeps(s0, actions, s);
    if AllDone(s) {
      assert forall i | 0 <= i < |s.threads| :: ThreadOk(s.threads[i]);
    }
    if NoProgress(s) && !AllDone(s) {
      var i: nat :| i < |s.threads| && s.threads[i].todo.Do?;
      var w := SomeoneMoves(s, i);
      EndsAtWaiter(s, w);
    }
    if w: nat :| RoomNeeded(s, w) {
      forall i: nat | i < |s.threads| && CanMove(s, i) ensures WaitsForRoom(s, i) {
        if i != w {
          assert Stopped(s, i);
        }
      }
    }
  }

  lemma EndsAtWaiter(s: System, w: nat)
    requires Inv(s) && NoProgress(s) && CanMove(s, w)
    ensures RoomNeeded(s, w)
  {
    assert WaitsForRoom(s, w) && IsFree(s, RingMutex);
    forall i: nat | i < |s.threads| && s.threads[i].role == Player ensures s.threads[i].todo.Done? {
      if s.threads[i].todo.Do? {
        PlayerNeedsRingOnly(s, i);
        assert CanMove(s, i);
      }
    }
    forall i: nat | i < |s.threads| && i != w ensures Stopped(s, i) {
      if s.threads[i].todo.Do? {
        if CanMove(s, i) {
          OnlyWaiter(s, i, w);
        } else {
          var j: nat :| j < |s.threads| && s.threads[j].held.Has(Wants(s.threads[i]).value);
          assert WaitsFor(s, i, j);
        }
      }
    }
  }

  // ---- How long it goes on ----

  /** The most moves that an operation takes, waits in vain apart. */
  function OpCost(op: Op): nat {
    if op.Store? || op.Take? then 3 else 1
  }

  function OpsCost(ops: Ops): nat {
    match ops
    case Done => 0
    case Do(op, rest) => OpCost(op) + OpsCost(rest)
  }

  /** The moves left in a thread's turn: two for a wait under way, one for an operation that need not wait. */
  function Cost(t: Thread, count: int): nat {
    match t.todo
    case Done => 0
    case Do(op, rest) => (if t.asleep then 2 else if MustWait(count, op) then 3 else 1) + OpsCost(rest)
  }

  function TotalCost(threads: seq<Thread>, count: int): nat {
    if threads == [] then 0 else Cost(threads[0], count) + TotalCost(threads[1..], count)
  }

  /** If one thread's cost falls by `d`, and no other's rises, so does the total. */
  lemma {:induction false} TotalFalls(a: seq<Thread>, ca: int, b: seq<Thread>, cb: int, i: nat, d: int)
    requires |a| == |b| && i < |a| && Cost(b[i], cb) + d <= Cost(a[i], ca)
    requires forall j | 0 <= j < |a| && j != i :: Cost(b[j], cb) <= Cost(a[j], ca)
    ensures TotalCost(b, cb) + d <= TotalCost(a, ca)
    decreases |a|
  {
    if i == 0 {
      TotalNoMore(a[1..], ca, b[1..], cb);
    } else {
      TotalFalls(a[1..], ca, b[1..], cb, i - 1, d);
    }
  }

  lemma {:induction false} TotalNoMore(a: seq<Thread>, ca: int, b: seq<Thread>, cb: int)
    requires |a| == |b| && forall j | 0 <= j < |a| :: Cost(b[j], cb) <= Cost(a[j], ca)
    ensures TotalCost(b, cb) <= TotalCost(a, ca)
    decreases |a|
  {
    if a != [] {
      TotalNoMore(a[1..], ca, b[1..], cb);
    }
  }

  /** A move costs its thread one; waking up in vain gives one back. */
  lemma OwnCost(t: Thread, count: int, get: int, late: bool)
    requires ThreadOk(t) && t.todo.Do?
    ensures var vain := t.asleep && t.todo.op.Store? && !Fits(count, t.todo.op);
            Cost(ThreadAfter(t, count, late), CountAfter(t, count, get)) + (if vain then -1 else 1) <= Cost(t, count)
  {
    var r := ThreadAfter(t, count, late);
    if !r.asleep && r.todo == t.todo.rest {
      RestCost(r, CountAfter(t, count, get));
    }
  }

  lemma RestCost(t: Thread, count: int)
    requires !t.asleep
    ensures Cost(t, count) <= OpsCost(t.todo)
  {
  }

  /** The count changes only while its mutex is held, so that no other thread is about to use it. */
  lemma OtherCost(s: System, i: nat, j: nat)
    requires Inv(s) && CanMove(s, i) && j < |s.threads| && i != j
    ensures Cost(s.threads[j], CountAfter(s.threads[i], s.count, s.get)) == Cost(s.threads[j], s.count)
  {
    var t, u := s.threads[i], s.threads[j];
    assert ThreadOk(t) && ThreadOk(u);
    if CountAfter(t, s.count, s.get) != s.count && u.todo.Do? && !u.asleep && (u.todo.op.Store? || u.todo.op.Take?) {
      OnlyHolder(s, RingMutex, i, j);
    }
  }

  lemma MoveCost(s: System, i: nat, late: bool)
    requires Inv(s) && CanMove(s, i)
    ensures var r := After(s, Go(i, late));
            TotalCost(r.threads, r.count) + (if WaitsForRoom(s, i) then -1 else 1) <= TotalCost(s.threads, s.count)
  {
    var r := After(s, Go(i, late));
    assert ThreadOk(s.threads[i]);
    OwnCost(s.threads[i], s.count, s.get, late);
    forall j | 0 <= j < |s.threads| && j != i ensures Cost(r.threads[j], r.count) <= Cost(s.threads[j], s.count) {
      OtherCost(s, i, j);
    }
    TotalFalls(s.threads, s.count, r.threads, r.count, i, if WaitsForRoom(s, i) then -1 else 1);
  }

  /** No turn begins. */
  predicate OnlyMoves(actions: seq<Action>) {
    forall a | a in actions :: a.Go?
  }

  /** How often a thread wakes up in vain. */
  function InVain(s: System, actions: seq<Action>): nat
    requires Schedule(s, actions)
    decreases |actions|
  {
    if actions == [] then 0
    else
      (if actions[0].Go? && WaitsForRoom(s, actions[0].i) then 1 else 0) + InVain(After(s, actions[0]), actions[1..])
  }

  lemma {:induction false} MovesAreBounded(s: System, actions: seq<Action>)
    requires Inv(s) && Schedule(s, actions) && OnlyMoves(actions)
    ensures var r := Final(s, actions);
            |actions| + TotalCost(r.threads, r.count) <= TotalCost(s.threads, s.count) + 2 * InVain(s, actions)
    decreases |actions|
  {
    if actions != [] {
      assert actions[0] in actions;
      MoveCost(s, actions[0].i, actions[0].late);
      StepKeeps(s, actions[0]);
      MovesAreBounded(After(s, actions[0]), actions[1..]);
    }
  }

  lemma {:induction false} ScheduleConcat(s: System, a: seq<Action>, b: seq<Action>)
    requires Schedule(s, a) && Schedule(Final(s, a), b)
    ensures Schedule(s, a + b) && Final(s, a + b) == Final(Final(s, a), b)
    decreases |a|
  {
    if a == [] {
      assert a + b == b;
    } else {
      ScheduleConcat(After(s, a[0]), a[1..], b);
      assert (a + b)[0] == a[0] && (a + b)[1..] == a[1..] + b;
    }
  }

  /**
   From every reachable state, under any schedule in which no turn begins: apart from waking
   up in vain, and going back to sleep, there are at most `TotalCost` moves; and where no
   thread can make progress, all are done with every mutex free, or the receive thread needs room.
  */
  lemma EveryScheduleSettles(s0: System, before: seq<Action>, s: System, actions: seq<Action>)
    requires Reached(s0, before, s) && Schedule(s, actions) && OnlyMoves(actions)
    ensures |actions| <= TotalCost(s.threads, s.count) + 2 * InVain(s, actions)
    ensures var r := Final(s, actions);
            NoProgress(r) <==> (AllDone(r) && forall m :: IsFree(r, m)) || exists w: nat :: RoomNeeded(r, w)
  {
    ReachedKeeps(s0, before, s);
    MovesAreBounded(s, actions);
    ScheduleConcat(s0, before, actions);
    NoProgressIff(s0, before + actions, Final(s, actions));
  }

  // ---- The player ----

  /** Only thread `i` acts, or whoever holds the ring's mutex; and no mutex but that one is locked. */
  predicate AtTheRing(s: System, actions: seq<Action>, i: nat)
    requires Schedule(s, actions)
    decreases |actions|
  {
    actions == [] ||
    (var a := actions[0];
     && (a.i == i || (a.Go? && s.threads[a.i].held.ring))
     && (a.Go? ==> Wants(s.threads[a.i]) in {None, Some(RingMutex)})
     && AtTheRing(After(s, a), actions[1..], i))
  }

  /** Whoever holds the ring's mutex needs no other. */
  lemma HolderMoves(s: System, h: nat)
    requires Inv(s) && h < |s.threads| && s.threads[h].held.ring
    ensures CanMove(s, h) && Wants(s.threads[h]) == None && !WaitsForRoom(s, h)
  {
    assert ThreadOk(s.threads[h]);
  }

  /** A player's turn can always be completed without the chunk buffer's mutex, whoever holds that. */
  lemma {:induction false} PlayerFinishes(s: System, i: nat) returns (actions: seq<Action>)
    requires Inv(s) && i < |s.threads| && s.threads[i].role == Player
    ensures Schedule(s, actions) && AtTheRing(s, actions, i) && OnlyMoves(actions)
    ensures |actions| <= TotalCost(s.threads, s.count)
    ensures i < |Final(s, actions).threads| && Final(s, actions).threads[i].todo.Done?
    decreases TotalCost(s.threads, s.count)
  {
    if s.threads[i].todo.Done? {
      return [];
    }
    PlayerNeedsRingOnly(s, i);
    var k := i;
    if !CanMove(s, i) {
      k :| 0 <= k < |s.threads| && s.threads[k].held.ring;
      HolderMoves(s, k);
    }
    StepKeeps(s, Go(k, false));
    MoveCost(s, k, false);
    var more := PlayerFinishes(After(s, Go(k, false)), i);
    actions := [Go(k, false)] + more;
    assert actions[0] == Go(k, false) && actions[1..] == more;
  }

  // ---- The wait for room ----

  /** Thread `w` stays at what it has to do now. */
  predicate Stays(s: System, actions: seq<Action>, w: nat)
    requires Schedule(s, actions)
    decreases |actions|
  {
    actions == [] ||
    (var r := After(s, actions[0]);
     && w < |s.threads| && r.threads[w].todo == s.threads[w].todo
     && Stays(r, actions[1..], w))
  }

  /** The action is a pass of a player, and not the beginning of its wait. */
  predicate IsPass(s: System, a: Action)
    requires Enabled(s, a)
  {
    a.Go? && var t := s.threads[a.i]; !t.asleep && t.todo.op.Take? && !MustWait(s.count, t.todo.op)
  }

  function Passes(s: System, actions: seq<Action>): nat
    requires Schedule(s, actions)
    decreases |actions|
  {
    if actions == [] then 0
    else (if IsPass(s, actions[0]) then 1 else 0) + Passes(After(s, actions[0]), actions[1..])
  }

  /** While the writer is at its wait nobody stores, and every pass makes room if there are bytes. */
  lemma CountFalls(s: System, a: Action, w: nat)
    requires Inv(s) && Enabled(s, a) && w < |s.threads| && s.threads[w].todo.Do? && s.threads[w].todo.op.Store?
    requires After(s, a).threads[w].todo == s.threads[w].todo
    ensures After(s, a).count + (if IsPass(s, a) && s.count > 0 then 1 else 0) <= s.count
  {
    assert ThreadOk(s.threads[w]);
    if a.Go? {
      var t := s.threads[a.i];
      assert ThreadOk(t);
      if !t.asleep && t.todo.op.Store? {
        OnlyHolder(s, ChunkBuffer, a.i, w);
      }
    }
  }

  /**
   Enough passes end the wait: while the writer stays at it, under any schedule, nobody else
   fills the ring, and as many passes as there are bytes missing make room for the chunk, if
   the ring can take it at all. Once there is room it stays.
  */
  lemma {:induction false} EnoughPasses(s: System, actions: seq<Action>, w: nat)
    requires Inv(s) && w < |s.threads| && s.threads[w].todo.Do? && s.threads[w].todo.op.Store?
    requires Schedule(s, actions) && Stays(s, actions, w)
    ensures Final(s, actions).count <= s.count
    ensures var (op, r, passes) := (s.threads[w].todo.op, Final(s, actions), Passes(s, actions));
            op.header + op.payload <= Ring.SIZE ==>
              && (Fits(r.count, op) || r.count + passes <= s.count)
              && (passes >= op.header + op.payload - (Ring.SIZE - s.count) ==> Fits(r.count, op))
    decreases |actions|
  {
    if actions != [] {
      CountFalls(s, actions[0], w);
      StepKeeps(s, actions[0]);
      EnoughPasses(After(s, actions[0]), actions[1..], w);
    }
  }

  /** Thread `w` is at the wait for a chunk that the ring can take, and not about to store it. */
  predicate AtWait(s: System, w: nat) {
    && w < |s.threads| && s.threads[w].todo.Do? && s.threads[w].todo.op.Store?
    && s.threads[w].todo.op.header + s.threads[w].todo.op.payload <= Ring.SIZE
    && (s.threads[w].asleep || !Fits(s.count, s.threads[w].todo.op))
  }

  /** One action before a schedule. */
  lemma Before(s: System, a: Action, more: seq<Action>, i: nat, w: nat)
    requires Enabled(s, a) && w < |s.threads| && After(s, a).threads[w].todo == s.threads[w].todo
    requires a.i == i || (a.Go? && s.threads[a.i].held.ring)
    requires a.Go? ==> Wants(s.threads[a.i]) in {None, Some(RingMutex)}
    requires var r := After(s, a); Schedule(r, more) && AtTheRing(r, more, i) && Stays(r, more, w)
    ensures var all := [a] + more;
            && Schedule(s, all) && AtTheRing(s, all, i) && Stays(s, all, w)
            && Final(s, all) == Final(After(s, a), more)
  {
    assert ([a] + more)[1..] == more;
  }

  /** With the ring free, a player's turn takes bytes if there are any. */
  lemma FreeTurnTakes(s: System, i: nat, more: nat, w: nat) returns (actions: seq<Action>)
    requires Inv(s) && i < |s.threads| && i != w && AtWait(s, w) && s.threads[w].asleep
    requires s.threads[i] == Thread(Player, NOTHING, Work(ReadPass(more)), false) && IsFree(s, RingMutex)
    requires s.count > 0
    ensures Schedule(s, actions) && AtTheRing(s, actions, i) && Stays(s, actions, w)
    ensures Final(s, actions).threads == s.threads[i := Thread(Player, NOTHING, Done, false)]
    ensures Final(s, actions).count < s.count
  {
    var go := Go(i, true);
    var s1 := After(s, go);
    var s2 := After(s1, go);
    Before(s2, go, [], i, w);
    Before(s1, go, [go], i, w);
    Before(s, go, [go] + [go], i, w);
    actions := [go] + ([go] + [go]);
  }

  /** If there are none it waits, and ends at the timeout. */
  lemma FreeTurnWaits(s: System, i: nat, more: nat, w: nat) returns (actions: seq<Action>)
    requires Inv(s) && i < |s.threads| && i != w && AtWait(s, w) && s.threads[w].asleep
    requires s.threads[i] == Thread(Player, NOTHING, Work(ReadPass(more)), false) && IsFree(s, RingMutex)
    requires s.count == 0
    ensures Schedule(s, actions) && AtTheRing(s, actions, i) && Stays(s, actions, w)
    ensures Final(s, actions).threads == s.threads[i := Thread(Player, NOTHING, Done, false)]
    ensures Final(s, actions).count == 0
  {
    var go := Go(i, true);
    var s1 := After(s, go);
    var s2 := After(s1, go);
    assert IsFree(s2, RingMutex);
    var s3 := After(s2, go);
    Before(s3, go, [], i, w);
    Before(s2, go, [go], i, w);
    Before(s1, go, [go] + [go], i, w);
    Before(s, go, [go] + ([go] + [go]), i, w);
    actions := [go] + ([go] + ([go] + [go]));
  }

  /** A player's turn makes room, or there is enough; nothing is waited for but the ring's mutex. */
  lemma {:induction false} TurnHelps(s: System, i: nat, more: nat, w: nat) returns (actions: seq<Action>)
    requires Inv(s) && i < |s.threads| && i != w && AtWait(s, w)
    requires s.threads[i] == Thread(Player, NOTHING, Work(ReadPass(more)), false)
    ensures Schedule(s, actions) && AtTheRing(s, actions, i) && Stays(s, actions, w)
    ensures var r := Final(s, actions);
            && Inv(r) && |r.threads| == |s.threads| && AtWait(r, w) && r.threads[w].todo == s.threads[w].todo
            && r.threads[i] == Thread(Player, NOTHING, Done, false)
            && (r.count < s.count || Fits(r.count, s.threads[w].todo.op))
    decreases TotalCost(s.threads, s.count)
  {
    if h: nat :| h < |s.threads| && s.threads[h].held.ring {
      HolderMoves(s, h);
      var go := Go(h, false);
      var r := After(s, go);
      HolderStep(s, h, w);
      CountFalls(s, go, w);
      StepKeeps(s, go);
      MoveCost(s, h, false);
      var rest := TurnHelps(r, i, more, w);
      Before(s, go, rest, i, w);
      actions := [go] + rest;
    } else {
      assert ThreadOk(s.threads[w]);
      if s.count > 0 {
        actions := FreeTurnTakes(s, i, more, w);
      } else {
        actions := FreeTurnWaits(s, i, more, w);
      }
      RunKeeps(s, actions);
    }
  }

  /** While another holds the ring's mutex the waiting thread sleeps; if it holds it, it goes to sleep. */
  lemma HolderStep(s: System, h: nat, w: nat)
    requires Inv(s) && AtWait(s, w) && h < |s.threads| && s.threads[h].held.ring && CanMove(s, h)
    ensures var r := After(s, Go(h, false)); AtWait(r, w) && r.threads[w].todo == s.threads[w].todo
  {
    assert ThreadOk(s.threads[w]);
    if h != w && !s.threads[w].asleep {
      OnlyHolder(s, RingMutex, h, w);
    }
  }

  /**
   The wait can always be ended from the player's side: turns of any one player lead to a
   state with room for the chunk, whatever the other threads hold, if the ring can take it at all.
  */
  lemma {:induction false} RoomComes(s: System, i: nat, w: nat) returns (actions: seq<Action>)
    requires Inv(s) && i < |s.threads| && i != w && AtWait(s, w)
    requires s.threads[i] == Thread(Player, NOTHING, Done, false)
    ensures Schedule(s, actions) && AtTheRing(s, actions, i) && Stays(s, actions, w)
    ensures Fits(Final(s, actions).count, s.threads[w].todo.op)
    decreases s.count
  {
    if Fits(s.count, s.threads[w].todo.op) {
      return [];
    }
    var begin := Begin(i, ReadPass(0));
    var s1 := After(s, begin);
    StepKeeps(s, begin);
    var turn := TurnHelps(s1, i, 0, w);
    Before(s, begin, turn, i, w);
    actions := [begin] + turn;
    var r := Final(s1, turn);
    if !Fits(r.count, s.threads[w].todo.op) {
      var more := RoomComes(r, i, w);
      OneAfterTheOther(s, actions, more, i, w);
      actions := actions + more;
    }
  }

  lemma {:induction false} OneAfterTheOther(s: System, a: seq<Action>, b: seq<Action>, i: nat, w: nat)
    requires Schedule(s, a) && AtTheRing(s, a, i) && Stays(s, a, w)
    requires var r := Final(s, a); Schedule(r, b) && AtTheRing(r, b, i) && Stays(r, b, w)
    ensures Schedule(s, a + b) && Final(s, a + b) == Final(Final(s, a), b)
    ensures AtTheRing(s, a + b, i) && Stays(s, a + b, w)
    decreases |a|
  {
    if a == [] {
      assert a + b == b;
    } else {
      OneAfterTheOther(After(s, a[0]), a[1..], b, i, w);
      assert (a + b)[0] == a[0] && (a + b)[1..] == a[1..] + b;
    }
  }

  /** No player begins a turn. */
  predicate NoReads(s: System, actions: seq<Action>) {
    forall a | a in actions && a.Begin? :: RoleOf(a.turn) != Player
  }

  /** What one action leaves of the wait, if no player is in its turn or begins one. */
  lemma WaitGoesOn(s: System, a: Action, w: nat)
    requires Inv(s) && LacksRoom(s, w) && PlayersDone(s) && Enabled(s, a)
    requires a.Begin? ==> RoleOf(a.turn) != Player
    ensures var r := After(s, a);
            && LacksRoom(r, w) && PlayersDone(r) && r.count == s.count
            && r.threads[w].todo == s.threads[w].todo
  {
    WaiterHolds(s, w);
    if a.Go? {
      var t := s.threads[a.i];
      assert ThreadOk(t);
      if !t.asleep && t.todo.op.Store? {
        OnlyHolder(s, ChunkBuffer, a.i, w);
      }
    }
  }

  /**
   Without the player the wait never ends: as long as none of its turns is under way or begins,
   under any schedule, the writer stays at its wait, the ring stays as full as it is, and the
   chunk buffer's mutex is held, so that nobody else gets it.
  */
  lemma {:induction false} WaitsForEver(s: System, actions: seq<Action>, w: nat)
    requires Inv(s) && LacksRoom(s, w) && PlayersDone(s)
    requires Schedule(s, actions) && NoReads(s, actions)
    ensures var r := Final(s, actions);
            && LacksRoom(r, w) && r.threads[w].todo == s.threads[w].todo && r.count == s.count
            && forall i | 0 <= i < |r.threads| :: r.threads[i].held.chunkBuffer <==> i == w
    decreases |actions|
  {
    if actions == [] {
      WaiterHolds(s, w);
      forall i | 0 <= i < |s.threads| ensures s.threads[i].held.chunkBuffer <==> i == w {
        if s.threads[i].held.Has(ChunkBuffer) {
          OnlyHolder(s, ChunkBuffer, i, w);
        }
      }
    } else {
      assert actions[0] in actions;
      WaitGoesOn(s, actions[0], w);
      StepKeeps(s, actions[0]);
      WaitsForEver(After(s, actions[0]), actions[1..], w);
    }
  }

  /** The receive thread alone, with the chunk buffer's mutex, in the middle of writing chunks to the ring. */
  function Writing(chunks: seq<Played>, count: int): System {
    System([Thread(Receiver, HOLDS_C, RingWrites(chunks, Do(Write(ChunkMap), FREE_CHUNKS)), false)], count, 0)
  }

  lemma BeginsWriting(chunks: seq<Played>) returns (s0: System, actions: seq<Action>, s: System)
    ensures Reached(s0, actions, s) && s == Writing(chunks, 0)
  {
    var t := Thread(Receiver, NOTHING, Done, false);
    s0, actions, s := System([t], 0, 0), [], System([t], 0, 0);
    actions, s := Continue(s0, actions, s, Begin(0, ChunkMessage(chunks)));
    actions, s := Continue(s0, actions, s, Go(0, false));
    actions, s := Continue(s0, actions, s, Go(0, false));
    actions, s := Continue(s0, actions, s, Go(0, false));
  }

  lemma WritesOne(s0: System, before: seq<Action>, chunks: seq<Played>, count: int)
      returns (actions: seq<Action>, s: System)
    requires Reached(s0, before, Writing(chunks, count)) && chunks != []
    requires Ring.SIZE - count >= chunks[0].header + chunks[0].payload
    ensures Reached(s0, actions, s) && s == Writing(chunks[1..], count + chunks[0].payload)
  {
    actions, s := Continue(s0, before, Writing(chunks, count), Go(0, false));
    actions, s := Continue(s0, actions, s, Go(0, false));
    actions, s := Continue(s0, actions, s, Go(0, false));
    assert HOLDS_C.Set(RingMutex, true).Set(RingMutex, false) == HOLDS_C;
  }

  /** It does come to this: a full ring, a chunk to be played, and nobody who reads. */
  lemma WaitsHoldingChunkBuffer() returns (s0: System, actions: seq<Action>, s: System)
    ensures Reached(s0, actions, s) && RoomNeeded(s, 0) && s.threads[0].held.chunkBuffer
  {
    var chunks := [Played(10, Ring.SIZE - 10), Played(10, 1)];
    s0, actions, s := BeginsWriting(chunks);
    actions, s := WritesOne(s0, actions, chunks, 0);
    actions, s := Continue(s0, actions, s, Go(0, false));
    actions, s := Continue(s0, actions, s, Go(0, false));
  }
}
