/**
 Receive thread and player together: the window policy hands chunks to the ring writer,
 the player reads, and each waits for the other, in every interleaving of their critical
 sections. Stores advance `put` by the length of the payload.
*/
module Pipeline {
  import opened Chunks
  import opened Ring
  import W = Window
  import R = WindowRuns

  /** A thread at the ring: running, waiting on its condition, or woken and about to go on. */
  datatype Sleep = Awake | Asleep | Woken

  datatype Pipe = Pipe(
    win: W.Win,
    pending: seq<Chunk>,  // handed to the ring writer but not yet stored
    ring: Ring,
    returned: seq<byte>,  // what the player's reads have got
    writer: Sleep,
    reader: Sleep)

  datatype Step =
    | Deliver(c: Chunk)
    | WriterStore
    | WriterSleep
    | WriterWake     // its wait times out, or it wakes for no reason
    | ReaderPass(nlen: nat)
    | ReaderSleep
    | ReaderWake
    | ReaderTimeout  // the read returns what it has

  /** A chunk that the writer can parse and that the ring can ever take. */
  predicate Playable(c: Chunk) {
    IsParsable(c) && |c.data| <= SIZE
  }

  predicate NoRoom(s: Pipe) {
    s.pending != [] && IsVideo(s.pending[0]) && SIZE - s.ring.count < |s.pending[0].data|
  }

  /** The writer has a chunk, there is room for it, and it is not in a wait. */
  predicate WriterNeedNotWait(s: Pipe) {
    s.pending != [] && !s.writer.Asleep? && !NoRoom(s)
  }

  predicate Enabled(s: Pipe, step: Step) {
    match step
    case Deliver(c) => s.pending == [] && s.writer.Awake? && Playable(c)
    case WriterStore => WriterNeedNotWait(s) && InRange(s.ring)
    case WriterSleep => !s.writer.Asleep? && NoRoom(s)
    case WriterWake => s.writer.Asleep?
    case ReaderPass(nlen) => nlen > 0 && (s.reader.Woken? || (s.reader.Awake? && s.ring.count > 0))
    case ReaderSleep => s.reader.Awake? && s.ring.count == 0
    case ReaderWake => s.reader.Asleep?
    case ReaderTimeout => s.reader.Asleep?
  }

  /** The condition signal: whoever waits is woken. */
  function Signal(t: Sleep): Sleep {
    if t.Asleep? then Woken else t
  }

  /** The store of the next chunk, with `put` advanced by `advance` if it goes in as one piece. */
  function Stored(s: Pipe, advance: int): Pipe
    requires WaitInv(s) && Enabled(s, WriterStore)
  {
    HeadPlayable(s);
    var c, rest := s.pending[0], s.pending[1..];
    if IsStrange(c) then s.(pending := rest, writer := Awake)
    else s.(pending := rest, ring := Store(s.ring, Payload(c), advance), writer := Awake, reader := Signal(s.reader))
  }

  function Apply(s: Pipe, step: Step): Pipe
    requires WaitInv(s) && Enabled(s, step)
  {
    match step
    case Deliver(c) =>
      W.DeliverOk(s.win, c);
      var w := W.Deliver(s.win, c).0;
      s.(win := w, pending := w.log[|s.win.log|..])
    case WriterStore => Stored(s, |Payload(s.pending[0])|)
    case WriterSleep => s.(writer := Asleep)
    case WriterWake => s.(writer := Woken)
    case ReaderPass(nlen) =>
      var (out, ring) := Pass(s.ring, nlen);
      s.(ring := ring, returned := s.returned + out, reader := Awake, writer := Signal(s.writer))
    case ReaderSleep => s.(reader := Asleep)
    case ReaderWake => s.(reader := Woken)
    case ReaderTimeout => s.(reader := Awake)
  }

  function Start(size: nat, first: int): Pipe {
    Pipe(W.Start(size, first), [], Empty(), [], Awake, Awake)
  }

  /** Every chunk in the policy's log and slots can be played. */
  predicate AllPlayable(w: W.Win) {
    && (forall c | c in w.log :: Playable(c))
    && (forall x: Option<Chunk> | x in w.slots && x.Some? :: Playable(x.value))
  }

  /** Nothing is lost, repeated or reordered between the policy and the player. */
  predicate Conserves(s: Pipe)
    requires Valid(s.ring)
  {
    s.returned + Queued(s.ring) + Payloads(s.pending) == Payloads(s.win.log)
  }

  /** What the waits rest on: of the ring only the bytes unread, wherever `put` may be. */
  predicate WaitInv(s: Pipe) {
    && W.Inv(s.win) && AllPlayable(s.win)
    && |s.ring.buf| == SIZE && 0 <= s.ring.get < SIZE && 0 <= s.ring.count <= SIZE
    && (forall c | c in s.pending :: Playable(c))
    && (s.reader.Asleep? ==> s.ring.count == 0)
    && (s.writer.Asleep? ==> NoRoom(s))
  }

  predicate Inv(s: Pipe) {
    WaitInv(s) && Valid(s.ring) && Conserves(s)
  }

  lemma HeadPlayable(s: Pipe)
    requires WaitInv(s) && s.pending != []
    ensures Playable(s.pending[0])
  {
    assert s.pending[0] in s.pending;
  }

  /** The policy's new chunks are chunks it had, or the delivered one. */
  lemma PolicyPlayable(v: W.Win, c: Chunk)
    requires W.Inv(v) && AllPlayable(v) && Playable(c)
    ensures AllPlayable(W.Deliver(v, c).0)
  {
    var w := W.Deliver(v, c).0;
    W.DeliverOk(v, c);
    forall x | x in w.log ensures Playable(x) {
      assert W.Holds(w, x);
    }
    forall x: Option<Chunk> | x in w.slots && x.Some? ensures Playable(x.value) {
      assert W.Holds(w, x.value);
    }
  }

  lemma DeliverKeeps(s: Pipe, c: Chunk)
    requires Inv(s) && Enabled(s, Deliver(c))
    ensures Inv(Apply(s, Deliver(c)))
  {
    var w, v := W.Deliver(s.win, c).0, s.win;
    W.DeliverOk(v, c);
    PolicyPlayable(v, c);
    var more := w.log[|v.log|..];
    assert w.log == v.log + more;
    PayloadsConcat(v.log, more);
    assert s.returned + Queued(s.ring) + Payloads([]) == s.returned + Queued(s.ring);
  }

  /** A payload moves from the pending chunks to the ring. */
  lemma Regroup(a: seq<byte>, q: seq<byte>, p: seq<byte>, rest: seq<byte>)
    ensures a + (q + p) + rest == a + q + (p + rest)
  {
  }

  lemma StoreKeeps(s: Pipe)
    requires Inv(s) && Enabled(s, WriterStore)
    ensures Inv(Apply(s, WriterStore))
  {
    HeadPlayable(s);
    var c, rest := s.pending[0], s.pending[1..];
    forall x | x in rest ensures Playable(x) {
      assert x in s.pending;
    }
    Regroup(s.returned, Queued(s.ring), Payload(c), Payloads(rest));
    if IsStrange(c) {
      assert Queued(s.ring) + Payload(c) == Queued(s.ring);
    } else {
      StoreIntended(s.ring, Payload(c));
    }
  }

  lemma PassKeeps(s: Pipe, nlen: nat)
    requires Inv(s) && Enabled(s, ReaderPass(nlen))
    ensures Inv(Apply(s, ReaderPass(nlen)))
  {
    PassDequeues(s.ring, nlen);
    var (out, ring) := Pass(s.ring, nlen);
    assert (s.returned + out) + Queued(ring) == s.returned + (out + Queued(ring));
  }

  lemma StepKeeps(s: Pipe, step: Step)
    requires Inv(s) && Enabled(s, step)
    ensures Inv(Apply(s, step))
  {
    match step {
      case Deliver(c) => DeliverKeeps(s, c);
      case WriterStore => StoreKeeps(s);
      case ReaderPass(nlen) => PassKeeps(s, nlen);
      case _ =>
    }
  }

  lemma StartInv(size: nat, first: nat)
    requires size > 0
    ensures Inv(Start(size, first))
  {
  }

  /** `steps` lead from `s` to `t`. */
  predicate Leads(s: Pipe, steps: seq<Step>, t: Pipe)
    requires Inv(s)
    decreases |steps|
  {
    if steps == [] then s == t
    else Enabled(s, steps[0]) && (StepKeeps(s, steps[0]); Leads(Apply(s, steps[0]), steps[1..], t))
  }

  /** `t` is reached from the start by `steps`. */
  predicate Reached(size: nat, first: nat, steps: seq<Step>, t: Pipe) {
    size > 0 && (StartInv(size, first); Leads(Start(size, first), steps, t))
  }

  /** The chunks delivered by a run. */
  function Delivered(steps: seq<Step>): seq<Chunk> {
    if steps == [] then []
    else (if steps[0].Deliver? then [steps[0].c] else []) + Delivered(steps[1..])
  }

  /** What a step hands to the policy, and the rest of the run. */
  lemma PolicyStep(s: Pipe, steps: seq<Step>)
    requires Inv(s) && steps != [] && Enabled(s, steps[0])
    ensures R.Run(s.win, Delivered(steps)) == R.Run(Apply(s, steps[0]).win, Delivered(steps[1..]))
  {
    if steps[0].Deliver? {
      var cs := Delivered(steps);
      assert cs[0] == steps[0].c && cs[1..] == Delivered(steps[1..]);
    } else {
      assert Delivered(steps) == Delivered(steps[1..]);
    }
  }

  lemma {:induction false} RunKeeps(s: Pipe, steps: seq<Step>, t: Pipe)
    requires Inv(s) && Leads(s, steps, t)
    ensures Inv(t) && t.win == R.Run(s.win, Delivered(steps))
    decreases |steps|
  {
    if steps != [] {
      StepKeeps(s, steps[0]);
      PolicyStep(s, steps);
      RunKeeps(Apply(s, steps[0]), steps[1..], t);
    }
  }

  lemma RunFromStart(size: nat, first: nat, steps: seq<Step>, t: Pipe)
    requires Reached(size, first, steps, t)
    ensures Inv(t) && t.win == R.Run(W.Start(size, first), Delivered(steps))
  {
    StartInv(size, first);
    RunKeeps(Start(size, first), steps, t);
  }

  /**
   End to end, in every interleaving: what the player has got, then what is in the ring, then
   what the writer still holds is the payload of the chunks played, whose ids rise strictly.
  */
  lemma EndToEnd(size: nat, first: nat, steps: seq<Step>, t: Pipe)
    requires Reached(size, first, steps, t)
    ensures Inv(t) && Increasing(t.win.log)
    ensures t.returned + Queued(t.ring) + Payloads(t.pending) == Payloads(t.win.log)
    ensures forall c | c in t.win.log :: c in Delivered(steps)
  {
    RunFromStart(size, first, steps, t);
    R.StartOk(size, first);
    R.RunOk(W.Start(size, first), Delivered(steps));
    forall c | c in t.win.log ensures c in Delivered(steps) {
      assert W.Holds(t.win, c);
    }
  }

  /** The payloads of the ids from `first` on, `n` of them, of one stream. */
  function Stream(chunk: int -> Chunk, first: int, n: nat): seq<Chunk> {
    seq(n, i requires 0 <= i < n => chunk(first + i))
  }

  /** From `first` on exactly `n` ids come before the first one that is missing. */
  predicate UpToFirstGap(first: int, n: nat, ids: set<int>) {
    (forall id | first <= id < first + n :: id in ids) && first + n !in ids
  }

  lemma Emptied(t: Pipe)
    requires Inv(t) && t.pending == [] && t.ring.count == 0
    ensures t.returned == Payloads(t.win.log)
  {
    assert Queued(t.ring) == [] && Payloads(t.pending) == [];
  }

  lemma LogIsStream(log: seq<Chunk>, chunk: int -> Chunk, first: int, cs: seq<Chunk>)
    requires forall k | 0 <= k < |log| :: log[k].id == first + k && log[k] in cs
    requires forall c | c in cs :: c == chunk(c.id)
    ensures log == Stream(chunk, first, |log|)
  {
  }

  /** What the policy has played of a stream that arrived in time. */
  lemma StreamPlayed(size: nat, first: nat, cs: seq<Chunk>, chunk: int -> Chunk)
    requires size > 0 && R.InTime(W.Start(size, first), cs) && forall c | c in cs :: c == chunk(c.id)
    ensures var log, ids := R.Run(W.Start(size, first), cs).log, R.IdsFrom(first, cs);
            UpToFirstGap(first, |log|, ids) && log == Stream(chunk, first, |log|)
  {
    R.PlaysUpToFirstGap(size, first, cs);
    LogIsStream(R.Run(W.Start(size, first), cs).log, chunk, first, cs);
  }

  /**
   When everything has been read, the player has got the stream from `first` to the chunk
   before the first one that was never delivered, whatever the order of arrival.
  */
  lemma PlayerGetsStream(size: nat, first: nat, steps: seq<Step>, t: Pipe, chunk: int -> Chunk)
    requires Reached(size, first, steps, t)
    requires R.InTime(W.Start(size, first), Delivered(steps))
    requires forall c | c in Delivered(steps) :: c == chunk(c.id)
    requires t.pending == [] && t.ring.count == 0
    ensures var n, ids := |t.win.log|, R.IdsFrom(first, Delivered(steps));
            UpToFirstGap(first, n, ids) && t.returned == Payloads(Stream(chunk, first, n))
  {
    RunFromStart(size, first, steps, t);
    StreamPlayed(size, first, Delivered(steps), chunk);
    Emptied(t);
  }

  // ---- Waits, in the code as written and as intended ----

  /** A step of the code as written, whose store advances `put` by the whole chunk, or as intended. */
  function ApplyEither(s: Pipe, step: Step, asWritten: bool): Pipe
    requires WaitInv(s) && Enabled(s, step)
  {
    if asWritten && step.WriterStore? then Stored(s, |s.pending[0].data|) else Apply(s, step)
  }

  lemma StoreKeepsWaits(s: Pipe, advance: int)
    requires WaitInv(s) && Enabled(s, WriterStore)
    ensures WaitInv(Stored(s, advance))
  {
    HeadPlayable(s);
    forall x | x in s.pending[1..] ensures Playable(x) {
      assert x in s.pending;
    }
  }

  lemma StepKeepsWaits(s: Pipe, step: Step, asWritten: bool)
    requires WaitInv(s) && Enabled(s, step)
    ensures WaitInv(ApplyEither(s, step, asWritten))
  {
    match step {
      case Deliver(c) =>
        W.DeliverOk(s.win, c);
        PolicyPlayable(s.win, c);
      case WriterStore => StoreKeepsWaits(s, if asWritten then |s.pending[0].data| else |Payload(s.pending[0])|);
      case ReaderPass(nlen) =>
        if s.writer.Asleep? {
          HeadPlayable(s);
        }
      case _ =>
    }
  }

  predicate LeadsEither(s: Pipe, steps: seq<Step>, t: Pipe, asWritten: bool)
    requires WaitInv(s)
    decreases |steps|
  {
    if steps == [] then s == t
    else
      && Enabled(s, steps[0])
      && (StepKeepsWaits(s, steps[0], asWritten);
          LeadsEither(ApplyEither(s, steps[0], asWritten), steps[1..], t, asWritten))
  }

  lemma {:induction false} RunKeepsWaits(s: Pipe, steps: seq<Step>, t: Pipe, asWritten: bool)
    requires WaitInv(s) && LeadsEither(s, steps, t, asWritten)
    ensures WaitInv(t)
    decreases |steps|
  {
    if steps != [] {
      StepKeepsWaits(s, steps[0], asWritten);
      RunKeepsWaits(ApplyEither(s, steps[0], asWritten), steps[1..], t, asWritten);
    }
  }

  lemma SomeoneNeedNotWait(t: Pipe)
    requires WaitInv(t)
    ensures !(t.reader.Asleep? && t.writer.Asleep?)
    ensures t.pending != [] || t.ring.count > 0 ==>
              WriterNeedNotWait(t) || forall nlen: nat | nlen > 0 :: Enabled(t, ReaderPass(nlen))
  {
    if t.pending != [] {
      HeadPlayable(t);
    }
  }

  /**
   No mutual wait and no lost wake-up, in the code as written as well as with the intended
   advance, and from any ring: in no reachable state do both threads wait, and while bytes or
   chunks are left one of them can move on without any wait timing out.
  */
  lemma NoMutualWait(s: Pipe, steps: seq<Step>, t: Pipe, asWritten: bool)
    requires WaitInv(s) && LeadsEither(s, steps, t, asWritten)
    ensures !(t.reader.Asleep? && t.writer.Asleep?)
    ensures t.pending != [] || t.ring.count > 0 ==>
              WriterNeedNotWait(t) || forall nlen: nat | nlen > 0 :: Enabled(t, ReaderPass(nlen))
  {
    RunKeepsWaits(s, steps, t, asWritten);
    SomeoneNeedNotWait(t);
  }

  /** From the start, with the intended advance, the store is always defined. */
  lemma OneGoesOn(size: nat, first: nat, steps: seq<Step>, t: Pipe)
    requires Reached(size, first, steps, t)
    ensures !(t.reader.Asleep? && t.writer.Asleep?)
    ensures t.pending != [] || t.ring.count > 0 ==>
              Enabled(t, WriterStore) || forall nlen: nat | nlen > 0 :: Enabled(t, ReaderPass(nlen))
  {
    RunFromStart(size, first, steps, t);
    SomeoneNeedNotWait(t);
  }

  /** A step that is no new delivery, and no wait timing out or ending for no reason. */
  predicate Quiet(step: Step) {
    step.WriterStore? || step.WriterSleep? || step.ReaderPass? || step.ReaderSleep?
  }

  /** What is left to do, with the steps that a store or a pass may cause besides. */
  function Work(s: Pipe): int {
    3 * |s.pending| + 2 * (s.ring.count + |Payloads(s.pending)|) +
    (if s.reader.Woken? then 2 else if s.reader.Awake? then 1 else 0) + (if s.writer.Asleep? then 0 else 1)
  }

  lemma StoreWorks(s: Pipe)
    requires Inv(s) && Enabled(s, WriterStore)
    ensures Work(Apply(s, WriterStore)) < Work(s)
  {
    HeadPlayable(s);
    var r := Apply(s, WriterStore);
    assert |r.pending| == |s.pending| - 1;
    assert r.ring.count + |Payloads(r.pending)| == s.ring.count + |Payloads(s.pending)|;
  }

  lemma PassWorks(s: Pipe, nlen: nat)
    requires Inv(s) && Enabled(s, ReaderPass(nlen))
    ensures Work(Apply(s, ReaderPass(nlen))) < Work(s)
  {
    PassDequeues(s.ring, nlen);
    var (out, ring) := Pass(s.ring, nlen);
    assert |Queued(s.ring)| == |out| + |Queued(ring)|;
    if s.writer.Asleep? {
      HeadPlayable(s);
      assert s.ring.count > 0;
    }
  }

  lemma QuietStepWorks(s: Pipe, step: Step)
    requires Inv(s) && Enabled(s, step) && Quiet(step)
    ensures Work(Apply(s, step)) < Work(s)
  {
    match step {
      case WriterStore => StoreWorks(s);
      case ReaderPass(nlen) => PassWorks(s, nlen);
      case _ =>
    }
  }

  lemma {:induction false} QuietRunWorks(s: Pipe, steps: seq<Step>, t: Pipe)
    requires Inv(s) && Leads(s, steps, t) && forall step | step in steps :: Quiet(step)
    ensures Inv(t) && |steps| + Work(t) <= Work(s)
    decreases |steps|
  {
    if steps != [] {
      assert steps[0] in steps;
      StepKeeps(s, steps[0]);
      QuietStepWorks(s, steps[0]);
      QuietRunWorks(Apply(s, steps[0]), steps[1..], t);
    }
  }

  /** Neither thread can go on by itself exactly when everything was read and the reader waits. */
  lemma QuietEndIff(t: Pipe)
    requires Inv(t)
    ensures (forall step | Quiet(step) :: !Enabled(t, step)) <==>
            t.pending == [] && t.ring.count == 0 && t.reader.Asleep?
  {
    if t.pending != [] {
      HeadPlayable(t);
      if !NoRoom(t) && !t.writer.Asleep? {
        assert Enabled(t, WriterStore);
      } else if !t.writer.Asleep? {
        assert Enabled(t, WriterSleep);
      } else {
        assert t.ring.count > 0 && Enabled(t, ReaderPass(1));
      }
    } else if t.ring.count > 0 || t.reader.Woken? {
      assert Enabled(t, ReaderPass(1));
    } else if t.reader.Awake? {
      assert Enabled(t, ReaderSleep);
    }
  }

  /**
   From any reached state, while nothing new is delivered and no wait times out: the threads go
   on for at most so many steps, and when they stop the player has got all that was played.
  */
  lemma DrainsWithin(size: nat, first: nat, before: seq<Step>, s: Pipe, steps: seq<Step>, t: Pipe)
    requires Reached(size, first, before, s) && Inv(s) && Leads(s, steps, t)
    requires forall step | step in steps :: Quiet(step)
    ensures |steps| <= 3 * |s.pending| + 2 * (s.ring.count + |Payloads(s.pending)|) + 3
    ensures (forall step | Quiet(step) :: !Enabled(t, step)) ==> t.returned == Payloads(s.win.log)
  {
    QuietRunWorks(s, steps, t);
    NothingNew(s, steps, t);
    if forall step | Quiet(step) :: !Enabled(t, step) {
      QuietEndIff(t);
      Emptied(t);
    }
  }

  lemma {:induction false} NothingNew(s: Pipe, steps: seq<Step>, t: Pipe)
    requires Inv(s) && Leads(s, steps, t) && forall step | step in steps :: Quiet(step)
    ensures t.win == s.win
    decreases |steps|
  {
    if steps != [] {
      assert steps[0] in steps;
      StepKeeps(s, steps[0]);
      NothingNew(Apply(s, steps[0]), steps[1..], t);
    }
  }
}
