/**
 The threads and their locks: what each thread's turn locks, waits for and touches, and the
 steps of any number of such threads on one ring. The receive thread waits for room in the
 ring, for as long as it takes, with the chunk buffer's mutex held; what that blocks, and
 what ends it, is in `LocksProgress.dfy`.
*/
module Locks {
  import opened Chunks
  import Ring

  datatype Mutex = Topology | ChunkBuffer | PeerChunk | RingMutex

  /** Shared data. */
  datatype Shared = Sampler | ChunkMap | FirstChunk | TransId | PeerChunks | RingData | StopFlag

  /**
   `Store` waits with the ring's mutex until a whole chunk would fit, and then adds its payload.
   `Take` waits with it once if the ring is empty, and then takes what there is, up to the end
   of the buffer.
  */
  datatype Op =
    | Lock(m: Mutex)
    | Unlock(m: Mutex)
    | Read(v: Shared)
    | Write(v: Shared)
    | Store(header: nat, payload: nat)
    | Take(want: nat, waited: bool)

  datatype Role = Receiver | TopologySender | Offerer | ChunkSender | Player

  /** What a thread still has to do in its turn. */
  datatype Ops = Done | Do(op: Op, rest: Ops)

  // ---- The bodies ----

  /** A chunk to be written to the ring: what precedes the payload, and the payload, in bytes. */
  datatype Played = Played(header: nat, payload: nat)

  /** The ring writer, once for each chunk that a delivery plays. */
  function RingWrites(chunks: seq<Played>, rest: Ops): Ops {
    if chunks == [] then rest
    else
      var stored := Do(Unlock(RingMutex), RingWrites(chunks[1..], rest));
      Do(Lock(RingMutex), Do(Store(chunks[0].header, chunks[0].payload), stored))
  }

  /** `k` times a pass through a loop that touches `a` and then `b`. */
  function Loop(k: nat, a: Op, b: Op, rest: Ops): Ops {
    if k == 0 then rest else Do(a, Do(b, Loop(k - 1, a, b, rest)))
  }

  /** One way through one turn of a thread's loop. */
  datatype Turn =
    | TopologyMessage
    | ChunkMessage(chunks: seq<Played>)  // the chunks that the delivery plays
    | AcceptOrDeliver(queued: nat)       // chunks put on the send queue
    | OfferMessage(examined: nat)        // ids examined
    | RequestMessage
    | BuffermapMessage
    | RefreshTopology
    | SendOffers(offers: nat)
    | SendChunks(entries: nat)
    | ReadPass(more: nat)                // bytes asked for, beyond the first

  function RoleOf(t: Turn): Role {
    match t
    case RefreshTopology => TopologySender
    case SendOffers(_) => Offerer
    case SendChunks(_) => ChunkSender
    case ReadPass(_) => Player
    case _ => Receiver
  }

  const FREE_TOPOLOGY := Do(Unlock(Topology), Done)
  const FREE_CHUNKS := Do(Unlock(ChunkBuffer), Done)
  const FREE_PEERS := Do(Unlock(PeerChunk), Done)
  const FREE_RING := Do(Unlock(RingMutex), Done)
  const FREE_TWO := Do(Unlock(ChunkBuffer), FREE_TOPOLOGY)
  const FREE_THREE := Do(Unlock(PeerChunk), FREE_TWO)
  const FREE_PEERS_CHUNKS := Do(Unlock(PeerChunk), FREE_CHUNKS)

  /** What the turn does after looking at the stop flag. */
  function Work(t: Turn): Ops {
    match t
    case TopologyMessage => Do(Lock(Topology), Do(Write(Sampler), FREE_TOPOLOGY))
    case ChunkMessage(chunks) =>
      Do(Lock(ChunkBuffer), Do(Read(FirstChunk), RingWrites(chunks, Do(Write(ChunkMap), FREE_CHUNKS))))
    case AcceptOrDeliver(k) => Do(Lock(PeerChunk), Loop(k, Read(ChunkMap), Write(PeerChunks), FREE_PEERS))
    case OfferMessage(k) => Do(Lock(ChunkBuffer), Loop(k, Read(ChunkMap), Write(FirstChunk), FREE_CHUNKS))
    case RequestMessage =>
      var queue := Do(Read(ChunkMap), Do(Write(PeerChunks), FREE_PEERS_CHUNKS));
      Do(Lock(ChunkBuffer), Do(Lock(PeerChunk), queue))
    case BuffermapMessage => Do(Lock(ChunkBuffer), Do(Read(FirstChunk), FREE_CHUNKS))
    case RefreshTopology => Do(Lock(Topology), Do(Write(Sampler), Do(Write(StopFlag), FREE_TOPOLOGY)))
    case SendOffers(k) =>
      var offers := Do(Read(Sampler), Loop(k, Read(ChunkMap), Write(TransId), FREE_TWO));
      Do(Lock(Topology), Do(Lock(ChunkBuffer), offers))
    case SendChunks(k) =>
      var drain := Loop(k, Read(PeerChunks), Read(ChunkMap), Do(Write(PeerChunks), FREE_THREE));
      Do(Lock(Topology), Do(Lock(ChunkBuffer), Do(Lock(PeerChunk), drain)))
    case ReadPass(more) => Do(Lock(RingMutex), Do(Take(more + 1, false), FREE_RING))
  }

  /** What the turn locks and touches, in order; the player knows no stop flag. */
  function Body(t: Turn): Ops {
    if t.ReadPass? then Work(t) else Do(Read(StopFlag), Work(t))
  }

  // ---- What the turns lock, store and touch ----

  function LocksOf(ops: Ops): seq<Mutex> {
    match ops
    case Done => []
    case Do(op, rest) => if op.Lock? then [op.m] + LocksOf(rest) else LocksOf(rest)
  }

  function StoresOf(ops: Ops): seq<Played> {
    match ops
    case Done => []
    case Do(op, rest) => if op.Store? then [Played(op.header, op.payload)] + StoresOf(rest) else StoresOf(rest)
  }

  /** How often the operation occurs. */
  function Times(ops: Ops, op: Op): nat {
    match ops
    case Done => 0
    case Do(o, rest) => (if o == op then 1 else 0) + Times(rest, op)
  }

  /** The mutexes that a turn locks, one after the other. */
  function Locked(t: Turn): seq<Mutex> {
    match t
    case TopologyMessage => [Topology]
    case ChunkMessage(chunks) => [ChunkBuffer] + Rings(|chunks|)
    case AcceptOrDeliver(_) => [PeerChunk]
    case OfferMessage(_) => [ChunkBuffer]
    case RequestMessage => [ChunkBuffer, PeerChunk]
    case BuffermapMessage => [ChunkBuffer]
    case RefreshTopology => [Topology]
    case SendOffers(_) => [Topology, ChunkBuffer]
    case SendChunks(_) => [Topology, ChunkBuffer, PeerChunk]
    case ReadPass(_) => [RingMutex]
  }

  /** How often a turn writes the data that it is there to change. */
  function Changes(t: Turn, v: Shared): nat {
    match (t, v)
    case (TopologyMessage, Sampler) => 1
    case (ChunkMessage(_), ChunkMap) => 1
    case (AcceptOrDeliver(k), PeerChunks) => k
    case (OfferMessage(k), FirstChunk) => k
    case (RequestMessage, PeerChunks) => 1
    case (RefreshTopology, Sampler) => 1
    case (RefreshTopology, StopFlag) => 1
    case (SendOffers(k), TransId) => k
    case (SendChunks(_), PeerChunks) => 1
    case (_, _) => 0
  }

  lemma {:induction false} LoopShape(k: nat, a: Op, b: Op, rest: Ops, op: Op)
    requires !a.Lock? && !b.Lock? && !a.Store? && !b.Store?
    ensures LocksOf(Loop(k, a, b, rest)) == LocksOf(rest) && StoresOf(Loop(k, a, b, rest)) == StoresOf(rest)
    ensures Times(Loop(k, a, b, rest), op) == Times(rest, op) + (if a == op then k else 0) + (if b == op then k else 0)
  {
    if k > 0 {
      LoopShape(k - 1, a, b, rest, op);
    }
  }

  /** The ring writer's part for one chunk. */
  lemma OneWriteShape(chunk: Played, more: Ops, v: Shared)
    ensures var ops := Do(Lock(RingMutex), Do(Store(chunk.header, chunk.payload), Do(Unlock(RingMutex), more)));
            && LocksOf(ops) == [RingMutex] + LocksOf(more) && StoresOf(ops) == [chunk] + StoresOf(more)
            && Times(ops, Write(v)) == Times(more, Write(v))
  {
    var u := Do(Unlock(RingMutex), more);
    var st := Do(Store(chunk.header, chunk.payload), u);
    Prepend(Unlock(RingMutex), more, v);
    Prepend(Store(chunk.header, chunk.payload), u, v);
    Prepend(Lock(RingMutex), st, v);
  }

  function Rings(n: nat): seq<Mutex> {
    seq(n, _ => RingMutex)
  }

  lemma OneMore(n: nat, locks: seq<Mutex>, chunk: Played, a: seq<Played>, b: seq<Played>)
    ensures [RingMutex] + (Rings(n) + locks) == Rings(n + 1) + locks
    ensures [chunk] + (a + b) == ([chunk] + a) + b
  {
  }

  lemma {:induction false} RingWritesShape(chunks: seq<Played>, rest: Ops, v: Shared)
    ensures LocksOf(RingWrites(chunks, rest)) == Rings(|chunks|) + LocksOf(rest)
    ensures StoresOf(RingWrites(chunks, rest)) == chunks + StoresOf(rest)
    ensures Times(RingWrites(chunks, rest), Write(v)) == Times(rest, Write(v))
    decreases chunks
  {
    if chunks == [] {
      assert Rings(0) + LocksOf(rest) == LocksOf(rest) && [] + StoresOf(rest) == StoresOf(rest);
    } else {
      RingWritesShape(chunks[1..], rest, v);
      OneWriteShape(chunks[0], RingWrites(chunks[1..], rest), v);
      OneMore(|chunks| - 1, LocksOf(rest), chunks[0], chunks[1..], StoresOf(rest));
      assert [chunks[0]] + chunks[1..] == chunks;
    }
  }

  /** The shape of a turn: what it locks, in which order, the chunks it stores, and how often it changes what. */
  predicate HasShape(t: Turn, v: Shared) {
    && LocksOf(Body(t)) == Locked(t)
    && StoresOf(Body(t)) == (if t.ChunkMessage? then t.chunks else [])
    && Times(Body(t), Write(v)) == Changes(t, v)
  }

  /** One operation more. */
  lemma Prepend(op: Op, rest: Ops, v: Shared)
    ensures LocksOf(Do(op, rest)) == (if op.Lock? then [op.m] + LocksOf(rest) else LocksOf(rest))
    ensures StoresOf(Do(op, rest)) ==
            (if op.Store? then [Played(op.header, op.payload)] + StoresOf(rest) else StoresOf(rest))
    ensures Times(Do(op, rest), Write(v)) == Times(rest, Write(v)) + if op == Write(v) then 1 else 0
  {
  }

  predicate Plain(ops: Ops, v: Shared) {
    LocksOf(ops) == [] && StoresOf(ops) == [] && Times(ops, Write(v)) == 0
  }

  /** Unlocking locks, stores and changes nothing. */
  lemma UnlocksShape(v: Shared)
    ensures Plain(FREE_TOPOLOGY, v) && Plain(FREE_CHUNKS, v) && Plain(FREE_PEERS, v) && Plain(FREE_RING, v)
    ensures Plain(FREE_TWO, v) && Plain(FREE_THREE, v) && Plain(FREE_PEERS_CHUNKS, v)
  {
    Prepend(Unlock(ChunkBuffer), FREE_TOPOLOGY, v);
    Prepend(Unlock(PeerChunk), FREE_TWO, v);
    Prepend(Unlock(PeerChunk), FREE_CHUNKS, v);
  }

  lemma ChunkMessageShape(chunks: seq<Played>, v: Shared)
    ensures HasShape(ChunkMessage(chunks), v)
  {
    var done := Do(Write(ChunkMap), FREE_CHUNKS);
    var ops := RingWrites(chunks, done);
    UnlocksShape(v);
    Prepend(Write(ChunkMap), FREE_CHUNKS, v);
    RingWritesShape(chunks, done, v);
    Prepend(Read(FirstChunk), ops, v);
    Prepend(Lock(ChunkBuffer), Do(Read(FirstChunk), ops), v);
    Prepend(Read(StopFlag), Work(ChunkMessage(chunks)), v);
    assert Rings(|chunks|) + [] == Rings(|chunks|) && chunks + [] == chunks;
  }

  lemma ReceiveLoopShape(k: nat, v: Shared)
    ensures HasShape(AcceptOrDeliver(k), v) && HasShape(OfferMessage(k), v)
  {
    UnlocksShape(v);
    LoopShape(k, Read(ChunkMap), Write(PeerChunks), FREE_PEERS, Write(v));
    LoopShape(k, Read(ChunkMap), Write(FirstChunk), FREE_CHUNKS, Write(v));
    Prepend(Lock(PeerChunk), Loop(k, Read(ChunkMap), Write(PeerChunks), FREE_PEERS), v);
    Prepend(Lock(ChunkBuffer), Loop(k, Read(ChunkMap), Write(FirstChunk), FREE_CHUNKS), v);
    Prepend(Read(StopFlag), Work(AcceptOrDeliver(k)), v);
    Prepend(Read(StopFlag), Work(OfferMessage(k)), v);
  }

  lemma SendOffersShape(k: nat, v: Shared)
    ensures HasShape(SendOffers(k), v)
  {
    var ops := Loop(k, Read(ChunkMap), Write(TransId), FREE_TWO);
    UnlocksShape(v);
    LoopShape(k, Read(ChunkMap), Write(TransId), FREE_TWO, Write(v));
    Prepend(Read(Sampler), ops, v);
    Prepend(Lock(ChunkBuffer), Do(Read(Sampler), ops), v);
    Prepend(Lock(Topology), Do(Lock(ChunkBuffer), Do(Read(Sampler), ops)), v);
    Prepend(Read(StopFlag), Work(SendOffers(k)), v);
  }

  lemma SendChunksShape(k: nat, v: Shared)
    ensures HasShape(SendChunks(k), v)
  {
    var done := Do(Write(PeerChunks), FREE_THREE);
    var ops := Loop(k, Read(PeerChunks), Read(ChunkMap), done);
    UnlocksShape(v);
    Prepend(Write(PeerChunks), FREE_THREE, v);
    LoopShape(k, Read(PeerChunks), Read(ChunkMap), done, Write(v));
    Prepend(Lock(PeerChunk), ops, v);
    Prepend(Lock(ChunkBuffer), Do(Lock(PeerChunk), ops), v);
    Prepend(Lock(Topology), Do(Lock(ChunkBuffer), Do(Lock(PeerChunk), ops)), v);
    Prepend(Read(StopFlag), Work(SendChunks(k)), v);
  }

  lemma RequestShape(v: Shared)
    ensures HasShape(RequestMessage, v)
  {
    var queue := Do(Write(PeerChunks), FREE_PEERS_CHUNKS);
    UnlocksShape(v);
    Prepend(Write(PeerChunks), FREE_PEERS_CHUNKS, v);
    Prepend(Read(ChunkMap), queue, v);
    Prepend(Lock(PeerChunk), Do(Read(ChunkMap), queue), v);
    Prepend(Lock(ChunkBuffer), Do(Lock(PeerChunk), Do(Read(ChunkMap), queue)), v);
    Prepend(Read(StopFlag), Work(RequestMessage), v);
  }

  lemma RefreshShape(v: Shared)
    ensures HasShape(RefreshTopology, v)
  {
    var stop := Do(Write(StopFlag), FREE_TOPOLOGY);
    UnlocksShape(v);
    Prepend(Write(StopFlag), FREE_TOPOLOGY, v);
    Prepend(Write(Sampler), stop, v);
    Prepend(Lock(Topology), Do(Write(Sampler), stop), v);
    Prepend(Read(StopFlag), Work(RefreshTopology), v);
  }

  lemma ShortShape(t: Turn, v: Shared)
    requires t.TopologyMessage? || t.BuffermapMessage? || t.ReadPass?
    ensures HasShape(t, v)
  {
    UnlocksShape(v);
    Prepend(Read(StopFlag), Work(t), v);
    match t {
      case TopologyMessage =>
        Prepend(Write(Sampler), FREE_TOPOLOGY, v);
        Prepend(Lock(Topology), Do(Write(Sampler), FREE_TOPOLOGY), v);
      case BuffermapMessage =>
        Prepend(Read(FirstChunk), FREE_CHUNKS, v);
        Prepend(Lock(ChunkBuffer), Do(Read(FirstChunk), FREE_CHUNKS), v);
      case ReadPass(more) =>
        Prepend(Take(more + 1, false), FREE_RING, v);
        Prepend(Lock(RingMutex), Do(Take(more + 1, false), FREE_RING), v);
    }
  }

  lemma TurnShape(t: Turn, v: Shared)
    ensures HasShape(t, v)
  {
    match t {
      case ChunkMessage(chunks) => ChunkMessageShape(chunks, v);
      case AcceptOrDeliver(k) => ReceiveLoopShape(k, v);
      case OfferMessage(k) => ReceiveLoopShape(k, v);
      case SendOffers(k) => SendOffersShape(k, v);
      case SendChunks(k) => SendChunksShape(k, v);
      case RequestMessage => RequestShape(v);
      case RefreshTopology => RefreshShape(v);
      case _ => ShortShape(t, v);
    }
  }

  // ---- The lock order ----

  /** The mutexes that a thread holds. */
  datatype Held = Held(topology: bool, chunkBuffer: bool, peerChunk: bool, ring: bool) {
    predicate Has(m: Mutex) {
      match m
      case Topology => topology
      case ChunkBuffer => chunkBuffer
      case PeerChunk => peerChunk
      case RingMutex => ring
    }

    function Set(m: Mutex, b: bool): Held {
      match m
      case Topology => this.(topology := b)
      case ChunkBuffer => this.(chunkBuffer := b)
      case PeerChunk => this.(peerChunk := b)
      case RingMutex => this.(ring := b)
    }

    /** Every mutex held comes before `m` in the lock order. */
    predicate Below(m: Mutex) {
      && (topology ==> Rank(Topology) < Rank(m))
      && (chunkBuffer ==> Rank(ChunkBuffer) < Rank(m))
      && (peerChunk ==> Rank(PeerChunk) < Rank(m))
      && (ring ==> Rank(RingMutex) < Rank(m))
    }
  }

  const NOTHING := Held(false, false, false, false)

  function Rank(m: Mutex): nat {
    match m
    case Topology => 0
    case ChunkBuffer => 1
    case PeerChunk => 2
    case RingMutex => 3
  }

  /** The mutex that guards shared data; the stop flag has none. */
  function Guard(v: Shared): Mutex
    requires v != StopFlag
  {
    match v
    case Sampler => Topology
    case PeerChunks => PeerChunk
    case RingData => RingMutex
    case _ => ChunkBuffer
  }

  /**
   Data is touched under its mutex, except the stop flag, and except that the receive
   thread, which alone writes the chunk buffer, reads it freely.
  */
  predicate MayTouch(role: Role, held: Held, op: Op) {
    match op
    case Read(v) => v == StopFlag || held.Has(Guard(v)) || (role == Receiver && v == ChunkMap)
    case Write(v) => v == StopFlag || (held.Has(Guard(v)) && (v == ChunkMap ==> role == Receiver))
    case Store(_, _) => held.Has(Guard(RingData))
    case Take(_, _) => held.Has(Guard(RingData))
    case _ => true
  }

  /**
   A thread holding `held` locks upwards only and waits only with the topmost mutex it holds.
   Only the receive thread stores, under the chunk buffer's mutex; the player locks the ring
   and nothing else.
  */
  predicate OpOk(role: Role, held: Held, op: Op) {
    && MayTouch(role, held, op)
    && (op.Lock? ==> held.Below(op.m) && (role == Player ==> op.m == RingMutex))
    && (op.Unlock? ==> held.Has(op.m))
    && (op.Store? ==> role == Receiver && held.chunkBuffer && held.Set(RingMutex, false).Below(RingMutex))
    && (op.Take? ==> role == Player && op.want > 0 && held.Set(RingMutex, false).Below(RingMutex))
  }

  function HeldAfter(held: Held, op: Op): Held {
    if op.Lock? then held.Set(op.m, true) else if op.Unlock? then held.Set(op.m, false) else held
  }

  /** From `held` on every operation is in order, and in the end nothing is held. */
  predicate Disciplined(role: Role, held: Held, ops: Ops)
    decreases ops
  {
    match ops
    case Done => held == NOTHING
    case Do(op, rest) => OpOk(role, held, op) && Disciplined(role, HeldAfter(held, op), rest)
  }

  /** Repeating operations that lock nothing. */
  lemma {:induction false} LoopDisciplined(role: Role, held: Held, k: nat, a: Op, b: Op, rest: Ops)
    requires Disciplined(role, held, rest) && OpOk(role, held, a) && OpOk(role, held, b)
    requires HeldAfter(held, a) == held == HeldAfter(held, b)
    ensures Disciplined(role, held, Loop(k, a, b, rest))
    decreases k
  {
    if k > 0 {
      LoopDisciplined(role, held, k - 1, a, b, rest);
    }
  }

  /** The ring writer keeps the order under the chunk buffer's mutex. */
  lemma {:induction false} RingWritesDisciplined(held: Held, chunks: seq<Played>, rest: Ops)
    requires held == NOTHING.(chunkBuffer := true) && Disciplined(Receiver, held, rest)
    ensures Disciplined(Receiver, held, RingWrites(chunks, rest))
    decreases chunks
  {
    if chunks != [] {
      var more := RingWrites(chunks[1..], rest);
      RingWritesDisciplined(held, chunks[1..], rest);
      var with := held.(ring := true);
      assert with.Set(RingMutex, false) == held;
      assert Disciplined(Receiver, with, Do(Unlock(RingMutex), more));
      assert Disciplined(Receiver, with, RingWrites(chunks, rest).rest);
    }
  }

  const HOLDS_C := NOTHING.(chunkBuffer := true)
  const HOLDS_T := NOTHING.(topology := true)
  const HOLDS_P := NOTHING.(peerChunk := true)
  const HOLDS_TC := HOLDS_T.(chunkBuffer := true)
  const HOLDS_TCP := HOLDS_TC.(peerChunk := true)

  lemma ChunkMessageTurn(chunks: seq<Played>)
    ensures Disciplined(Receiver, NOTHING, Work(ChunkMessage(chunks)))
  {
    var done := Do(Write(ChunkMap), FREE_CHUNKS);
    assert Disciplined(Receiver, HOLDS_C, done);
    RingWritesDisciplined(HOLDS_C, chunks, done);
    assert Disciplined(Receiver, HOLDS_C, Work(ChunkMessage(chunks)).rest);
  }

  lemma RequestTurn()
    ensures Disciplined(Receiver, NOTHING, Work(RequestMessage))
  {
    var both := HOLDS_C.(peerChunk := true);
    assert Disciplined(Receiver, both, FREE_PEERS_CHUNKS);
    assert Disciplined(Receiver, both, Work(RequestMessage).rest.rest);
  }

  lemma ReceiverTurns(t: Turn)
    requires RoleOf(t) == Receiver
    ensures Disciplined(Receiver, NOTHING, Work(t))
  {
    match t {
      case ChunkMessage(chunks) => ChunkMessageTurn(chunks);
      case AcceptOrDeliver(k) =>
        LoopDisciplined(Receiver, HOLDS_P, k, Read(ChunkMap), Write(PeerChunks), FREE_PEERS);
      case OfferMessage(k) =>
        LoopDisciplined(Receiver, HOLDS_C, k, Read(ChunkMap), Write(FirstChunk), FREE_CHUNKS);
      case RequestMessage => RequestTurn();
      case TopologyMessage => assert Disciplined(Receiver, HOLDS_T, Work(t).rest);
      case BuffermapMessage => assert Disciplined(Receiver, HOLDS_C, Work(t).rest);
    }
  }

  lemma SendOffersTurn(k: nat)
    ensures Disciplined(Offerer, NOTHING, Work(SendOffers(k)))
  {
    assert Disciplined(Offerer, HOLDS_TC, FREE_TWO);
    LoopDisciplined(Offerer, HOLDS_TC, k, Read(ChunkMap), Write(TransId), FREE_TWO);
    assert Disciplined(Offerer, HOLDS_T, Work(SendOffers(k)).rest);
  }

  /** The drain of the send queue, with all three mutexes. */
  lemma DrainTurn(k: nat)
    ensures var done := Do(Write(PeerChunks), FREE_THREE);
            Disciplined(ChunkSender, HOLDS_TCP, Loop(k, Read(PeerChunks), Read(ChunkMap), done))
  {
    var done := Do(Write(PeerChunks), FREE_THREE);
    assert Disciplined(ChunkSender, HOLDS_TC, FREE_TWO);
    assert Disciplined(ChunkSender, HOLDS_TCP, done);
    LoopDisciplined(ChunkSender, HOLDS_TCP, k, Read(PeerChunks), Read(ChunkMap), done);
  }

  lemma SendChunksTurn(k: nat)
    ensures Disciplined(ChunkSender, NOTHING, Work(SendChunks(k)))
  {
    DrainTurn(k);
    assert Disciplined(ChunkSender, HOLDS_TC, Work(SendChunks(k)).rest.rest);
    assert Disciplined(ChunkSender, HOLDS_T, Work(SendChunks(k)).rest);
  }

  lemma ReadPassTurn(more: nat)
    ensures Disciplined(Player, NOTHING, Work(ReadPass(more)))
  {
    var holds := NOTHING.(ring := true);
    assert Disciplined(Player, holds, FREE_RING);
    assert Disciplined(Player, holds, Work(ReadPass(more)).rest);
  }

  lemma RefreshTurn()
    ensures Disciplined(TopologySender, NOTHING, Work(RefreshTopology))
  {
    assert Disciplined(TopologySender, HOLDS_T, Work(RefreshTopology).rest.rest);
  }

  /** Every body is in order. */
  lemma BodyDisciplined(t: Turn)
    ensures Disciplined(RoleOf(t), NOTHING, Body(t))
  {
    match t {
      case RefreshTopology => RefreshTurn();
      case SendOffers(k) => SendOffersTurn(k);
      case SendChunks(k) => SendChunksTurn(k);
      case ReadPass(more) => ReadPassTurn(more);
      case _ => ReceiverTurns(t);
    }
  }

  // ---- Any number of threads ----

  /** A thread that is asleep has given up the ring's mutex and will take it again. */
  datatype Thread = Thread(role: Role, held: Held, todo: Ops, asleep: bool)

  /** The threads, the bytes in the ring, and where the next one to read lies. */
  datatype System = System(threads: seq<Thread>, count: int, get: int)

  /** A move of thread `i`, whose wait may have come `late`, at its timeout; or the beginning of a turn. */
  datatype Action = Go(i: nat, late: bool) | Begin(i: nat, turn: Turn)

  predicate IsFree(s: System, m: Mutex) {
    forall j | 0 <= j < |s.threads| :: !s.threads[j].held.Has(m)
  }

  /** The mutex that a thread needs for its next move. */
  function Wants(t: Thread): Option<Mutex> {
    if t.todo.Done? then None
    else if t.asleep then Some(RingMutex)
    else if t.todo.op.Lock? then Some(t.todo.op.m)
    else None
  }

  predicate CanMove(s: System, i: nat) {
    && i < |s.threads| && s.threads[i].todo.Do?
    && (Wants(s.threads[i]).Some? ==> IsFree(s, Wants(s.threads[i]).value))
  }

  predicate Enabled(s: System, a: Action) {
    match a
    case Go(i, late) => CanMove(s, i)
    case Begin(i, turn) => i < |s.threads| && s.threads[i].todo.Done? && RoleOf(turn) == s.threads[i].role
  }

  predicate Fits(count: int, op: Op)
    requires op.Store?
  {
    Ring.SIZE - count >= op.header + op.payload
  }

  /** The operation finds that it has to wait. */
  predicate MustWait(count: int, op: Op) {
    (op.Store? && !Fits(count, op)) || (op.Take? && count == 0 && !op.waited)
  }

  /** Thread `t` after its next move, or after waking up. */
  function ThreadAfter(t: Thread, count: int, late: bool): Thread
    requires t.todo.Do?
  {
    var (op, rest) := (t.todo.op, t.todo.rest);
    if t.asleep then
      var todo := if !op.Take? then t.todo else if late then rest else Do(Take(op.want, true), rest);
      t.(held := t.held.Set(RingMutex, true), asleep := false, todo := todo)
    else if MustWait(count, op) then
      t.(held := t.held.Set(RingMutex, false), asleep := true)
    else
      t.(held := HeldAfter(t.held, op), todo := rest)
  }

  /** How many bytes a pass of the player takes. */
  function Bytes(op: Op, count: int, get: int): int
    requires op.Take?
  {
    var n := if op.want > count then count else op.want;
    if get + n > Ring.SIZE then Ring.SIZE - get else n
  }

  /** The bytes in the ring after that. */
  function CountAfter(t: Thread, count: int, get: int): int
    requires t.todo.Do?
  {
    var op := t.todo.op;
    if t.asleep || MustWait(count, op) then count
    else if op.Store? then count + op.payload
    else if op.Take? then count - Bytes(op, count, get)
    else count
  }

  function GetAfter(t: Thread, count: int, get: int): int
    requires t.todo.Do?
  {
    if t.asleep || !t.todo.op.Take? || MustWait(count, t.todo.op) then get
    else
      var next := get + Bytes(t.todo.op, count, get);
      if next >= Ring.SIZE then 0 else next
  }

  function After(s: System, a: Action): System
    requires Enabled(s, a)
  {
    var t := s.threads[a.i];
    match a
    case Go(i, late) =>
      var threads := s.threads[i := ThreadAfter(t, s.count, late)];
      System(threads, CountAfter(t, s.count, s.get), GetAfter(t, s.count, s.get))
    case Begin(i, turn) => s.(threads := s.threads[i := t.(todo := Body(turn))])
  }

  predicate Init(s: System) {
    && s.count == 0 && s.get == 0
    && forall i | 0 <= i < |s.threads| ::
         s.threads[i].held == NOTHING && s.threads[i].todo.Done? && !s.threads[i].asleep
  }

  /** The actions can be taken one after the other. */
  predicate Schedule(s: System, actions: seq<Action>)
    decreases |actions|
  {
    actions == [] || (Enabled(s, actions[0]) && Schedule(After(s, actions[0]), actions[1..]))
  }

  function Final(s: System, actions: seq<Action>): System
    requires Schedule(s, actions)
    decreases |actions|
  {
    if actions == [] then s else Final(After(s, actions[0]), actions[1..])
  }

  /** `s` is reached from a state with no turn under way and an empty ring. */
  predicate Reached(s0: System, actions: seq<Action>, s: System) {
    Init(s0) && Schedule(s0, actions) && s == Final(s0, actions)
  }

  predicate ThreadOk(t: Thread) {
    if t.asleep then
      && !t.held.ring && t.todo.Do? && (t.todo.op.Store? || t.todo.op.Take?)
      && Disciplined(t.role, t.held.Set(RingMutex, true), t.todo)
    else
      Disciplined(t.role, t.held, t.todo)
  }

  /** No mutex has two holders. */
  predicate Exclusive(s: System) {
    forall i, j, m | 0 <= i < j < |s.threads| && s.threads[i].held.Has(m) :: !s.threads[j].held.Has(m)
  }

  predicate Inv(s: System) {
    && 0 <= s.count <= Ring.SIZE && 0 <= s.get < Ring.SIZE
    && (forall i | 0 <= i < |s.threads| :: ThreadOk(s.threads[i]))
    && Exclusive(s)
  }

  lemma OnlyHolder(s: System, m: Mutex, i: nat, j: nat)
    requires Exclusive(s) && i < |s.threads| && j < |s.threads|
    requires s.threads[i].held.Has(m) && s.threads[j].held.Has(m)
    ensures i == j
  {
  }

  lemma ThreadAfterOk(t: Thread, count: int, get: int, late: bool)
    requires ThreadOk(t) && t.todo.Do? && 0 <= count <= Ring.SIZE && 0 <= get < Ring.SIZE
    ensures ThreadOk(ThreadAfter(t, count, late))
    ensures 0 <= CountAfter(t, count, get) <= Ring.SIZE && 0 <= GetAfter(t, count, get) < Ring.SIZE
  {
    var op := t.todo.op;
    if !t.asleep && MustWait(count, op) {
      assert t.held.Set(RingMutex, false).Set(RingMutex, true) == t.held;
    }
  }

  /** A move gains only the mutex it needs. */
  lemma Gains(t: Thread, count: int, late: bool, m: Mutex)
    requires t.todo.Do? && ThreadAfter(t, count, late).held.Has(m)
    ensures t.held.Has(m) || Wants(t) == Some(m)
  {
  }

  lemma GoKeeps(s: System, i: nat, late: bool)
    requires Inv(s) && CanMove(s, i)
    ensures Inv(After(s, Go(i, late)))
  {
    var t, r := s.threads[i], After(s, Go(i, late));
    ThreadAfterOk(t, s.count, s.get, late);
    forall j, k, m | 0 <= j < k < |r.threads| && r.threads[j].held.Has(m) ensures !r.threads[k].held.Has(m) {
      if r.threads[k].held.Has(m) && (i == j || i == k) {
        Gains(t, s.count, late, m);
      }
    }
  }

  lemma StepKeeps(s: System, a: Action)
    requires Inv(s) && Enabled(s, a)
    ensures Inv(After(s, a)) && |After(s, a).threads| == |s.threads|
    ensures forall i | 0 <= i < |s.threads| :: After(s, a).threads[i].role == s.threads[i].role
  {
    match a {
      case Go(i, late) => GoKeeps(s, i, late);
      case Begin(i, turn) =>
        BodyDisciplined(turn);
        assert ThreadOk(s.threads[i]);
    }
  }

  predicate SameRoles(s: System, r: System) {
    |s.threads| == |r.threads| && forall i | 0 <= i < |s.threads| :: s.threads[i].role == r.threads[i].role
  }

  lemma {:induction false} RunKeeps(s: System, actions: seq<Action>)
    requires Inv(s) && Schedule(s, actions)
    ensures Inv(Final(s, actions)) && SameRoles(s, Final(s, actions))
    decreases |actions|
  {
    if actions != [] {
      StepKeeps(s, actions[0]);
      RunKeeps(After(s, actions[0]), actions[1..]);
    }
  }

  lemma ReachedKeeps(s0: System, actions: seq<Action>, s: System)
    requires Reached(s0, actions, s)
    ensures Inv(s) && SameRoles(s0, s)
  {
    RunKeeps(s0, actions);
  }

  /** One action more. */
  lemma {:induction false} Extend(s: System, actions: seq<Action>, a: Action)
    requires Schedule(s, actions) && Enabled(Final(s, actions), a)
    ensures Schedule(s, actions + [a]) && Final(s, actions + [a]) == After(Final(s, actions), a)
    decreases |actions|
  {
    if actions == [] {
      assert Schedule(After(s, a), []) && Final(After(s, a), []) == After(s, a);
      assert [a][0] == a && [a][1..] == [];
      assert actions + [a] == [a];
    } else {
      Extend(After(s, actions[0]), actions[1..], a);
      assert (actions + [a])[0] == actions[0] && (actions + [a])[1..] == actions[1..] + [a];
    }
  }

  // ---- The ring behind the count ----

  /** The player's operation takes as many bytes as a pass over the ring, and leaves the pointer where that does. */
  lemma TakeIsPass(r: Ring.Ring, t: Thread, late: bool)
    requires Ring.InRange(r) && t.todo.Do? && t.todo.op.Take? && !t.asleep && !MustWait(r.count, t.todo.op)
    ensures var s := Ring.Pass(r, t.todo.op.want).1;
            && CountAfter(t, r.count, r.get) == s.count && GetAfter(t, r.count, r.get) == s.get
            && ThreadAfter(t, r.count, late) == t.(todo := t.todo.rest)
  {
  }

  /** The writer's waits exactly while the code's writer does, and then adds what a write adds. */
  lemma StoreIsWrite(r: Ring.Ring, c: Chunk, t: Thread, late: bool)
    requires Ring.InRange(r) && IsVideo(c) && t.todo.Do? && !t.asleep
    requires t.todo.op == Store(Offset(c), |Payload(c)|)
    ensures MustWait(r.count, t.todo.op) <==> !Ring.Ready(r, Ring.Put(c))
    ensures !MustWait(r.count, t.todo.op) ==>
              var s := Ring.AsWritten(r, Ring.Put(c));
              && CountAfter(t, r.count, r.get) == s.count && GetAfter(t, r.count, r.get) == s.get
              && ThreadAfter(t, r.count, late) == t.(todo := t.todo.rest)
  {
  }

  // ---- Deadlock freedom ----

  /** Thread `i` needs a mutex that thread `j` holds. */
  predicate WaitsFor(s: System, i: nat, j: nat) {
    && i < |s.threads| && j < |s.threads|
    && Wants(s.threads[i]).Some? && s.threads[j].held.Has(Wants(s.threads[i]).value)
  }

  predicate IsCycle(s: System, c: seq<nat>) {
    && |c| > 0
    && (forall k | 0 <= k < |c| - 1 :: WaitsFor(s, c[k], c[k + 1]))
    && WaitsFor(s, c[|c| - 1], c[0])
  }

  /** The rank of the mutex a thread needs. */
  function Target(t: Thread): int {
    if Wants(t).Some? then Rank(Wants(t).value) else -1
  }

  /** Whoever is waited for needs, if anything, a mutex of higher rank. */
  lemma WaitsUpwards(s: System, i: nat, j: nat)
    requires Inv(s) && WaitsFor(s, i, j)
    ensures Target(s.threads[j]) >= 0 ==> Target(s.threads[i]) < Target(s.threads[j])
  {
    assert ThreadOk(s.threads[j]);
  }

  /** Along a chain of waiting threads the mutexes needed rise. */
  lemma {:induction false} ChainRises(s: System, c: seq<nat>, k: nat)
    requires Inv(s) && IsCycle(s, c) && k < |c|
    ensures c[0] < |s.threads| && c[k] < |s.threads| && Target(s.threads[c[k]]) >= 0
    ensures Target(s.threads[c[0]]) + k <= Target(s.threads[c[k]])
  {
    assert k < |c| - 1 ==> WaitsFor(s, c[k], c[k + 1]);
    if k > 0 {
      ChainRises(s, c, k - 1);
      assert WaitsFor(s, c[k - 1], c[k - 1 + 1]);
      WaitsUpwards(s, c[k - 1], c[k]);
    }
  }

  /** No reachable state has a cycle of threads that need each other's mutexes. */
  lemma NoDeadlock(s0: System, actions: seq<Action>, s: System, c: seq<nat>)
    requires Reached(s0, actions, s)
    ensures !IsCycle(s, c)
  {
    ReachedKeeps(s0, actions, s);
    if IsCycle(s, c) {
      ChainRises(s, c, 0);
      ChainRises(s, c, |c| - 1);
      WaitsUpwards(s, c[|c| - 1], c[0]);
      assert false;
    }
  }

  // ---- Data races ----

  predicate Writes(op: Op, v: Shared) {
    op == Write(v) || (v == RingData && (op.Store? || op.Take?))
  }

  /** The thread is about to touch the data. */
  predicate Touches(t: Thread, v: Shared) {
    t.todo.Do? && !t.asleep && (t.todo.op == Read(v) || Writes(t.todo.op, v))
  }

  /** Two threads are about to touch the same data and one of them writes. */
  predicate Race(s: System, i: nat, j: nat, v: Shared) {
    && i < |s.threads| && j < |s.threads| && i != j
    && Touches(s.threads[i], v) && Touches(s.threads[j], v) && Writes(s.threads[i].todo.op, v)
  }

  predicate OneReceiver(s: System) {
    forall a, b | 0 <= a < b < |s.threads| :: !(s.threads[a].role == s.threads[b].role == Receiver)
  }

  /** Data is touched under its guard, except that the receive thread reads the chunk buffer. */
  lemma TouchesUnderGuard(t: Thread, v: Shared)
    requires ThreadOk(t) && Touches(t, v) && v != StopFlag
    ensures t.held.Has(Guard(v)) || (t.role == Receiver && v == ChunkMap && !Writes(t.todo.op, v))
    ensures v == ChunkMap && Writes(t.todo.op, v) ==> t.role == Receiver
  {
  }

  /** With one receive thread, nothing but the stop flag is ever raced for. */
  lemma NoRace(s0: System, actions: seq<Action>, s: System, i: nat, j: nat, v: Shared)
    requires Reached(s0, actions, s) && v != StopFlag && OneReceiver(s0)
    ensures !Race(s, i, j, v)
  {
    ReachedKeeps(s0, actions, s);
    if Race(s, i, j, v) {
      TouchesUnderGuard(s.threads[i], v);
      TouchesUnderGuard(s.threads[j], v);
      assert !(s0.threads[i].role == s0.threads[j].role == Receiver);
      OnlyHolder(s, Guard(v), i, j);
      assert false;
    }
  }

  lemma Continue(s0: System, actions: seq<Action>, s: System, a: Action) returns (more: seq<Action>, r: System)
    requires Reached(s0, actions, s) && Enabled(s, a)
    ensures Reached(s0, more, r) && r == After(s, a)
  {
    Extend(s0, actions, a);
    more, r := actions + [a], After(s, a);
  }

  const TOPOLOGY_THREAD := Thread(TopologySender, NOTHING, Done, false)
  const RECEIVE_THREAD := Thread(Receiver, NOTHING, Done, false)

  /** The first of two threads goes on by an operation that needs no wait. */
  lemma FirstGoes(s0: System, before: seq<Action>, t: Thread, u: Thread) returns (actions: seq<Action>, s: System)
    requires Reached(s0, before, System([t, u], 0, 0)) && t.todo.Do? && !t.asleep
    requires match t.todo.op
             case Lock(m) => !t.held.Has(m) && !u.held.Has(m)
             case Read(_) => true
             case _ => false
    ensures Reached(s0, actions, s)
    ensures s == System([t.(held := HeldAfter(t.held, t.todo.op), todo := t.todo.rest), u], 0, 0)
  {
    actions, s := Continue(s0, before, System([t, u], 0, 0), Go(0, false));
  }

  /** The topology thread comes to its update of the cache, with the stop flag next. */
  lemma RefreshGoesOn(s0: System, before: seq<Action>, u: Thread) returns (actions: seq<Action>, s: System)
    requires Reached(s0, before, System([TOPOLOGY_THREAD, u], 0, 0)) && u.held == NOTHING
    ensures Reached(s0, actions, s)
    ensures s == System([TOPOLOGY_THREAD.(held := HOLDS_T, todo := Work(RefreshTopology).rest), u], 0, 0)
  {
    var t := TOPOLOGY_THREAD.(todo := Body(RefreshTopology));
    actions, s := Continue(s0, before, System([TOPOLOGY_THREAD, u], 0, 0), Begin(0, RefreshTopology));
    actions, s := FirstGoes(s0, actions, t, u);
    actions, s := FirstGoes(s0, actions, t.(todo := Work(RefreshTopology)), u);
  }

  /** The stop flag is raced for: a turn of one thread reads it while the topology thread may write it. */
  lemma StopFlagRace() returns (s0: System, actions: seq<Action>, s: System)
    ensures Reached(s0, actions, s) && Race(s, 0, 1, StopFlag)
  {
    var u := Thread(Offerer, NOTHING, Done, false);
    s0 := System([TOPOLOGY_THREAD, u], 0, 0);
    actions, s := Continue(s0, [], s0, Begin(1, SendOffers(0)));
    actions, s := RefreshGoesOn(s0, actions, u.(todo := Body(SendOffers(0))));
    actions, s := Continue(s0, actions, s, Go(0, false));
  }

  /** A receive thread comes to its write of the chunk buffer. */
  lemma MessageGoesOn(s0: System, before: seq<Action>, u: Thread) returns (actions: seq<Action>, s: System)
    requires Reached(s0, before, System([RECEIVE_THREAD, u], 0, 0)) && u.held == HOLDS_P
    ensures Reached(s0, actions, s)
    ensures s == System([Thread(Receiver, HOLDS_C, Do(Write(ChunkMap), FREE_CHUNKS), false), u], 0, 0)
  {
    var t, turn := RECEIVE_THREAD, ChunkMessage([]);
    actions, s := Continue(s0, before, System([t, u], 0, 0), Begin(0, turn));
    actions, s := FirstGoes(s0, actions, t.(todo := Body(turn)), u);
    actions, s := FirstGoes(s0, actions, t.(todo := Work(turn)), u);
    actions, s := FirstGoes(s0, actions, t.(held := HOLDS_C, todo := Work(turn).rest), u);
  }

  /** Another comes to its read of it. */
  lemma AcceptGoesOn(s0: System) returns (actions: seq<Action>, s: System)
    requires s0 == System([RECEIVE_THREAD, RECEIVE_THREAD], 0, 0)
    ensures Reached(s0, actions, s)
    ensures s == System([RECEIVE_THREAD, Thread(Receiver, HOLDS_P, Work(AcceptOrDeliver(1)).rest, false)], 0, 0)
  {
    actions, s := Continue(s0, [], s0, Begin(1, AcceptOrDeliver(1)));
    actions, s := Continue(s0, actions, s, Go(1, false));
    actions, s := Continue(s0, actions, s, Go(1, false));
  }

  /** One receive thread is needed: two of them race for the chunk buffer. */
  lemma TwoReceiversRace() returns (s0: System, actions: seq<Action>, s: System)
    ensures Reached(s0, actions, s) && Race(s, 0, 1, ChunkMap)
  {
    s0 := System([RECEIVE_THREAD, RECEIVE_THREAD], 0, 0);
    actions, s := AcceptGoesOn(s0);
    actions, s := MessageGoesOn(s0, actions, s.threads[1]);
  }
}
