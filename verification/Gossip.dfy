/**
 Any number of peers that offer, accept and send chunks, and a source that produces them.
 A message, once sent, may be received any number of times, at any later time, or never.
*/
module Gossip {
  import opened Chunks
  import opened Offers
  import Q = SendQueue
  import O = Output

  /** The limit that a peer puts into each of its offers. */
  const OFFER_LIMIT := 50

  /** Transaction ids travel in 16 bits. */
  const WIRE := 65536

  datatype Msg =
    | Offer(from: nat, to: nat, ids: seq<int>, limit: int, tid: int)
    | Accept(from: nat, to: nat, ids: seq<int>, tid: int)
    | Want(from: nat, to: nat, ids: seq<int>)  // the deliver signal
    | Data(from: nat, to: nat, c: Chunk)

  /** A peer: chunk buffer, `firstChunk`, offer counter, send queue and output context. */
  datatype Node = Node(cb: map<int, Chunk>, first: int, trans: nat, queue: seq<Q.Entry>, out: O.Out)

  /** The peers, and every message ever sent, in order. */
  datatype World = World(nodes: seq<Node>, sent: seq<Msg>)

  datatype Step =
    | SendOffer(p: nat, q: nat, ids: seq<int>)
    | ReceiveOffer(k: nat)
    | ReceiveRequest(k: nat, peers: set<nat>)  // an accept or deliver message, and the peers known
    | SendWant(p: nat, q: nat, ids: seq<int>)
    | Drain(p: nat)
    | ReceiveData(k: nat, cb: map<int, Chunk>) // and the chunk buffer afterwards
    | Produce(id: nat, cb: map<int, Chunk>)
    | Forget(p: nat, cb: map<int, Chunk>)

  /** The chunk buffer may reject a chunk and may drop others for it. */
  predicate Shrunk(cb: map<int, Chunk>, from: map<int, Chunk>) {
    forall id | id in cb :: id in from && cb[id] == from[id]
  }

  predicate Received(w: World, k: nat) {
    k < |w.sent| && w.sent[k].to < |w.nodes|
  }

  /** Peer 0 is the source; nobody offers anything to it. */
  predicate Enabled(w: World, step: Step) {
    match step
    case SendOffer(p, q, ids) =>
      && p < |w.nodes| && q < |w.nodes| && q != 0 && Distinct(ids)
      && (forall id | id in ids :: id in w.nodes[p].cb)
      && (forall id | id in w.nodes[p].cb :: id in ids)
    case ReceiveOffer(k) => Received(w, k) && w.sent[k].Offer?
    case ReceiveRequest(k, _) => Received(w, k) && (w.sent[k].Accept? || w.sent[k].Want?)
    case SendWant(p, q, _) => p < |w.nodes| && q < |w.nodes|
    case Drain(p) => p < |w.nodes|
    case ReceiveData(k, cb) =>
      && Received(w, k) && w.sent[k].Data?
      && var n, c := w.nodes[w.sent[k].to], w.sent[k].c;
         && |n.out.slots| > 0 && n.out.played >= -1 && O.Deliver(n.out, n.first, c).Done?
         && Shrunk(cb, n.cb[c.id := c])
    case Produce(id, cb) => |w.nodes| > 0
    case Forget(p, cb) => p < |w.nodes| && Shrunk(cb, w.nodes[p].cb)
  }

  /** The chunk messages of a drain. */
  function DataFor(p: nat, entries: seq<Q.Entry>, cb: map<int, Chunk>): seq<Msg> {
    if entries == [] then []
    else (if entries[0].chunk in cb then [Data(p, entries[0].to, cb[entries[0].chunk])] else []) +
         DataFor(p, entries[1..], cb)
  }

  function Update(w: World, p: nat, n: Node, msgs: seq<Msg>): World
    requires p < |w.nodes|
  {
    World(w.nodes[p := n], w.sent + msgs)
  }

  function Apply(w: World, step: Step, stream: int -> Chunk): World
    requires Enabled(w, step)
  {
    match step
    case SendOffer(p, q, ids) =>
      var n := w.nodes[p];
      Update(w, p, n.(trans := n.trans + 1), [Offer(p, q, ids, OFFER_LIMIT, n.trans % WIRE)])
    case ReceiveOffer(k) =>
      var m := w.sent[k];
      var n := w.nodes[m.to];
      var r := Scan(m.ids, n.cb.Keys, n.first, m.limit);
      Update(w, m.to, n.(first := r.first), [Accept(m.to, m.from, r.accepted, m.tid)])
    case ReceiveRequest(k, peers) =>
      var m := w.sent[k];
      var n := w.nodes[m.to];
      Update(w, m.to, n.(queue := n.queue + Q.Added(m.from, m.ids, n.cb.Keys, peers)), [])
    case SendWant(p, q, ids) => World(w.nodes, w.sent + [Want(p, q, ids)])
    case Drain(p) =>
      var n := w.nodes[p];
      Update(w, p, n.(queue := []), DataFor(p, Q.Sent(n.queue, n.cb.Keys), n.cb))
    case ReceiveData(k, cb) =>
      var m := w.sent[k];
      var n := w.nodes[m.to];
      Update(w, m.to, n.(cb := cb, out := O.Deliver(n.out, n.first, m.c).out), [])
    case Produce(id, cb) =>
      var n := w.nodes[0];
      var all := n.cb[id := stream(id)];
      Update(w, 0, n.(cb := if Shrunk(cb, all) then cb else all), [])
    case Forget(p, cb) => Update(w, p, w.nodes[p].(cb := cb), [])
  }

  predicate IsStart(w: World) {
    && w.sent == []
    && forall n | n in w.nodes ::
         && n.cb == map[] && n.first == -1 && n.trans == 1 && n.queue == []
         && |n.out.slots| > 0 && n.out == O.Init(|n.out.slots|)
  }

  // ---- What every message and every peer satisfies ----

  /** Before message `k`, `p` asked `q` for chunk `id`. */
  predicate Asked(msgs: seq<Msg>, k: nat, p: nat, q: nat, id: int) {
    exists j: nat | j < k && j < |msgs| :: Asks(msgs[j], p, q, id)
  }

  predicate Asks(m: Msg, p: nat, q: nat, id: int) {
    (m.Accept? || m.Want?) && m.from == p && m.to == q && id in m.ids
  }

  /** `a` answers the offer `m`. */
  predicate Answers(m: Msg, a: Msg)
    requires a.Accept?
  {
    && m.Offer? && m.from == a.to && m.to == a.from && m.tid == a.tid
    && |a.ids| <= m.limit && forall id | id in a.ids :: id in m.ids
  }

  predicate MsgOk(msgs: seq<Msg>, k: nat, stream: int -> Chunk)
    requires k < |msgs|
  {
    match msgs[k]
    case Offer(_, _, ids, limit, _) => NonNegative(ids) && Distinct(ids) && limit == OFFER_LIMIT
    case Accept(_, _, ids, _) => |ids| <= OFFER_LIMIT && exists j: nat | j < k :: Answers(msgs[j], msgs[k])
    case Want(_, _, _) => true
    case Data(p, q, c) => c.id >= 0 && c == stream(c.id) && Asked(msgs, k, q, p, c.id)
  }

  predicate QueueOk(msgs: seq<Msg>, p: nat, queue: seq<Q.Entry>) {
    forall e | e in queue :: Asked(msgs, |msgs|, e.to, p, e.chunk)
  }

  /** Everything a peer holds or has played is the source's chunk of that id. */
  predicate Genuine(n: Node, stream: int -> Chunk) {
    && (forall id | id in n.cb :: id >= 0 && n.cb[id] == stream(id))
    && (forall x: Option<Chunk> | x in n.out.slots && x.Some? :: x.value == stream(x.value.id))
    && (forall e | e in n.out.log :: e.c == stream(e.c.id))
  }

  predicate NodeOk(w: World, p: nat, stream: int -> Chunk)
    requires p < |w.nodes|
  {
    var n := w.nodes[p];
    Genuine(n, stream) && O.Inv(n.out) && n.first >= -1 && QueueOk(w.sent, p, n.queue)
  }

  /** No peer ever accepts an id below its first chunk. */
  predicate AcceptsFrom(msgs: seq<Msg>, p: nat, first: int) {
    forall m | m in msgs && m.Accept? && m.from == p :: forall id | id in m.ids :: id >= first >= 0
  }

  ghost predicate IsStream(stream: int -> Chunk) {
    forall id :: stream(id).id == id
  }

  predicate Inv(w: World, stream: int -> Chunk) {
    && (forall k: nat | k < |w.sent| :: MsgOk(w.sent, k, stream))
    && (forall p: nat | p < |w.nodes| :: NodeOk(w, p, stream))
    && (forall p: nat | p < |w.nodes| :: AcceptsFrom(w.sent, p, w.nodes[p].first))
  }

  // ---- More messages ----

  lemma AskedGrows(msgs: seq<Msg>, more: seq<Msg>, k: nat, k': nat, p: nat, q: nat, id: int)
    requires Asked(msgs, k, p, q, id) && k <= k'
    ensures Asked(msgs + more, k', p, q, id)
  {
    var j: nat :| j < k && j < |msgs| && Asks(msgs[j], p, q, id);
    assert (msgs + more)[j] == msgs[j];
  }

  lemma MsgOkGrows(msgs: seq<Msg>, more: seq<Msg>, k: nat, stream: int -> Chunk)
    requires k < |msgs| && MsgOk(msgs, k, stream)
    ensures MsgOk(msgs + more, k, stream)
  {
    var all := msgs + more;
    assert all[k] == msgs[k];
    match msgs[k] {
      case Accept(_, _, _, _) =>
        var j: nat :| j < k && Answers(msgs[j], msgs[k]);
        assert Answers(all[j], all[k]);
      case Data(p, q, c) => AskedGrows(msgs, more, k, k, q, p, c.id);
      case _ =>
    }
  }

  lemma QueueOkGrows(msgs: seq<Msg>, more: seq<Msg>, p: nat, queue: seq<Q.Entry>)
    requires QueueOk(msgs, p, queue)
    ensures QueueOk(msgs + more, p, queue)
  {
    forall e | e in queue ensures Asked(msgs + more, |msgs + more|, e.to, p, e.chunk) {
      AskedGrows(msgs, more, |msgs|, |msgs + more|, e.to, p, e.chunk);
    }
  }

  /** It is enough to look at the peer that changes and the messages it adds. */
  lemma UpdateKeeps(w: World, p: nat, n: Node, more: seq<Msg>, stream: int -> Chunk)
    requires Inv(w, stream) && p < |w.nodes|
    requires var r := Update(w, p, n, more);
             && (forall k: nat | |w.sent| <= k < |r.sent| :: MsgOk(r.sent, k, stream))
             && NodeOk(r, p, stream)
    requires n.first == w.nodes[p].first || w.nodes[p].first == -1
    requires forall m | m in more && m.Accept? :: m.from == p && forall id | id in m.ids :: id >= n.first >= 0
    ensures Inv(Update(w, p, n, more), stream)
  {
    var r := Update(w, p, n, more);
    forall k: nat | k < |r.sent| ensures MsgOk(r.sent, k, stream) {
      if k < |w.sent| {
        MsgOkGrows(w.sent, more, k, stream);
      }
    }
    forall x: nat | x < |r.nodes| ensures NodeOk(r, x, stream) {
      if x != p {
        assert NodeOk(w, x, stream);
        QueueOkGrows(w.sent, more, x, w.nodes[x].queue);
      }
    }
    forall x: nat | x < |r.nodes| ensures AcceptsFrom(r.sent, x, r.nodes[x].first) {
      assert AcceptsFrom(w.sent, x, w.nodes[x].first);
    }
  }

  // ---- The steps ----

  lemma SendOfferKeeps(w: World, p: nat, q: nat, ids: seq<int>, stream: int -> Chunk)
    requires Inv(w, stream) && Enabled(w, SendOffer(p, q, ids))
    ensures Inv(Apply(w, SendOffer(p, q, ids), stream), stream)
  {
    var n := w.nodes[p];
    assert NodeOk(w, p, stream);
    assert NonNegative(ids) by {
      forall i | 0 <= i < |ids| ensures ids[i] >= 0 {
        assert ids[i] in ids;
      }
    }
    var m := Offer(p, q, ids, OFFER_LIMIT, n.trans % WIRE);
    QueueOkGrows(w.sent, [m], p, n.queue);
    UpdateKeeps(w, p, n.(trans := n.trans + 1), [m], stream);
  }

  lemma ReceiveOfferKeeps(w: World, k: nat, stream: int -> Chunk)
    requires Inv(w, stream) && Enabled(w, ReceiveOffer(k))
    ensures Inv(Apply(w, ReceiveOffer(k), stream), stream)
  {
    var m := w.sent[k];
    var p := m.to;
    var n := w.nodes[p];
    assert MsgOk(w.sent, k, stream) && NodeOk(w, p, stream);
    ScanSafe(m.ids, n.cb.Keys, n.first, m.limit);
    var r := Scan(m.ids, n.cb.Keys, n.first, m.limit);
    var a := Accept(p, m.from, r.accepted, m.tid);
    var all := w.sent + [a];
    assert MsgOk(all, |w.sent|, stream) by {
      assert Answers(all[k], all[|w.sent|]);
    }
    QueueOkGrows(w.sent, [a], p, n.queue);
    UpdateKeeps(w, p, n.(first := r.first), [a], stream);
  }

  lemma {:induction false} AddedEntries(from: nat, ids: seq<int>, held: set<int>, peers: set<nat>)
    ensures forall e | e in Q.Added(from, ids, held, peers) :: e.to == from && e.chunk in ids
  {
    if ids != [] {
      AddedEntries(from, ids[1..], held, peers);
    }
  }

  lemma ReceiveRequestKeeps(w: World, k: nat, peers: set<nat>, stream: int -> Chunk)
    requires Inv(w, stream) && Enabled(w, ReceiveRequest(k, peers))
    ensures Inv(Apply(w, ReceiveRequest(k, peers), stream), stream)
  {
    var m := w.sent[k];
    var p := m.to;
    var n := w.nodes[p];
    assert NodeOk(w, p, stream);
    var added := Q.Added(m.from, m.ids, n.cb.Keys, peers);
    AddedEntries(m.from, m.ids, n.cb.Keys, peers);
    assert w.sent + [] == w.sent;
    forall e | e in n.queue + added ensures Asked(w.sent, |w.sent|, e.to, p, e.chunk) {
      if e in added {
        assert Asks(w.sent[k], e.to, p, e.chunk);
      }
    }
    UpdateKeeps(w, p, n.(queue := n.queue + added), [], stream);
  }

  lemma {:induction false} DataForOk(w: World, p: nat, entries: seq<Q.Entry>, stream: int -> Chunk)
    requires Inv(w, stream) && p < |w.nodes| && IsStream(stream)
    requires forall e | e in entries :: e in w.nodes[p].queue
    ensures forall m | m in DataFor(p, entries, w.nodes[p].cb) ::
              m.Data? && m.from == p && m.c.id >= 0 && m.c == stream(m.c.id) && Asked(w.sent, |w.sent|, m.to, p, m.c.id)
  {
    if entries != [] {
      DataForOk(w, p, entries[1..], stream);
      assert NodeOk(w, p, stream);
      assert entries[0] in w.nodes[p].queue;
    }
  }

  lemma {:induction false} SentIsQueued(q: seq<Q.Entry>, held: set<int>)
    ensures forall e | e in Q.Sent(q, held) :: e in q
  {
    if q != [] {
      SentIsQueued(q[1..], held);
    }
  }

  /** A drain sends one chunk message for each entry that the send queue gives out, in its order. */
  lemma {:induction false} OneMessageEach(p: nat, q: seq<Q.Entry>, cb: map<int, Chunk>)
    ensures var entries := Q.Sent(q, cb.Keys);
            var msgs := DataFor(p, entries, cb);
            && |msgs| == |entries|
            && forall i | 0 <= i < |msgs| ::
                 entries[i].chunk in cb && msgs[i] == Data(p, entries[i].to, cb[entries[i].chunk])
  {
    if q != [] {
      OneMessageEach(p, q[1..], cb);
      var rest := Q.Sent(q[1..], cb.Keys);
      if q[0].chunk in cb && q[0].known {
        assert Q.Sent(q, cb.Keys) == [q[0]] + rest;
        assert ([q[0]] + rest)[1..] == rest;
      } else {
        assert Q.Sent(q, cb.Keys) == rest;
      }
    }
  }

  lemma DrainKeeps(w: World, p: nat, stream: int -> Chunk)
    requires Inv(w, stream) && Enabled(w, Drain(p)) && IsStream(stream)
    ensures Inv(Apply(w, Drain(p), stream), stream)
  {
    var n := w.nodes[p];
    assert NodeOk(w, p, stream);
    var entries := Q.Sent(n.queue, n.cb.Keys);
    SentIsQueued(n.queue, n.cb.Keys);
    DataForOk(w, p, entries, stream);
    var more := DataFor(p, entries, n.cb);
    var all := w.sent + more;
    forall k: nat | |w.sent| <= k < |all| ensures MsgOk(all, k, stream) {
      var m := more[k - |w.sent|];
      assert m in more && all[k] == m;
      AskedGrows(w.sent, more, |w.sent|, k, m.to, p, m.c.id);
    }
    UpdateKeeps(w, p, n.(queue := []), more, stream);
  }

  /** What a delivery leaves in slots and log it found there, or is its chunk. */
  lemma DeliverGenuine(o: O.Out, first: int, c: Chunk, stream: int -> Chunk)
    requires O.Inv(o) && O.Deliver(o, first, c).Done? && c == stream(c.id)
    requires forall x: Option<Chunk> | x in o.slots && x.Some? :: x.value == stream(x.value.id)
    requires forall e | e in o.log :: e.c == stream(e.c.id)
    ensures var r := O.Deliver(o, first, c).out;
            && (forall x: Option<Chunk> | x in r.slots && x.Some? :: x.value == stream(x.value.id))
            && (forall e | e in r.log :: e.c == stream(e.c.id))
  {
    O.DeliverDrains(o, first, c);
    var t, r := O.Taken(o, first, c), O.Deliver(o, first, c).out;
    forall x: Option<Chunk> | x in r.slots && x.Some? ensures x.value == stream(x.value.id) {
      var i :| 0 <= i < |r.slots| && r.slots[i] == x;
      assert t.slots[i] == x;
      assert x == Some(c) || o.slots[i] == x;
    }
    forall e | e in r.log ensures e.c == stream(e.c.id) {
      var k :| 0 <= k < |r.log| && r.log[k] == e;
      if k < |t.log| {
        assert r.log[..|t.log|][k] == t.log[k];
      } else {
        var i :| 0 <= i < |t.slots| && t.slots[i] == Some(e.c);
        assert t.slots[i] == Some(c) || o.slots[i] == t.slots[i];
      }
    }
  }

  lemma ReceiveDataKeeps(w: World, k: nat, cb: map<int, Chunk>, stream: int -> Chunk)
    requires Inv(w, stream) && Enabled(w, ReceiveData(k, cb)) && IsStream(stream)
    ensures Inv(Apply(w, ReceiveData(k, cb), stream), stream)
  {
    var m := w.sent[k];
    var p := m.to;
    var n := w.nodes[p];
    assert MsgOk(w.sent, k, stream) && NodeOk(w, p, stream);
    O.DeliverInv(n.out, n.first, m.c);
    DeliverGenuine(n.out, n.first, m.c, stream);
    assert w.sent + [] == w.sent;
    UpdateKeeps(w, p, n.(cb := cb, out := O.Deliver(n.out, n.first, m.c).out), [], stream);
  }

  lemma ChunkBufferKeeps(w: World, p: nat, cb: map<int, Chunk>, stream: int -> Chunk)
    requires Inv(w, stream) && p < |w.nodes| && forall id | id in cb :: id >= 0 && cb[id] == stream(id)
    ensures Inv(Update(w, p, w.nodes[p].(cb := cb), []), stream)
  {
    assert NodeOk(w, p, stream);
    assert w.sent + [] == w.sent;
    UpdateKeeps(w, p, w.nodes[p].(cb := cb), [], stream);
  }

  lemma SendWantKeeps(w: World, p: nat, q: nat, ids: seq<int>, stream: int -> Chunk)
    requires Inv(w, stream) && Enabled(w, SendWant(p, q, ids))
    ensures Inv(Apply(w, SendWant(p, q, ids), stream), stream)
  {
    var m := Want(p, q, ids);
    assert NodeOk(w, p, stream);
    QueueOkGrows(w.sent, [m], p, w.nodes[p].queue);
    UpdateKeeps(w, p, w.nodes[p], [m], stream);
    assert w.nodes[p := w.nodes[p]] == w.nodes;
  }

  lemma StepKeeps(w: World, step: Step, stream: int -> Chunk)
    requires Inv(w, stream) && Enabled(w, step) && IsStream(stream)
    ensures Inv(Apply(w, step, stream), stream)
  {
    match step {
      case SendOffer(p, q, ids) => SendOfferKeeps(w, p, q, ids, stream);
      case ReceiveOffer(k) => ReceiveOfferKeeps(w, k, stream);
      case ReceiveRequest(k, peers) => ReceiveRequestKeeps(w, k, peers, stream);
      case SendWant(p, q, ids) => SendWantKeeps(w, p, q, ids, stream);
      case Drain(p) => DrainKeeps(w, p, stream);
      case ReceiveData(k, cb) => ReceiveDataKeeps(w, k, cb, stream);
      case Produce(id, cb) =>
        assert NodeOk(w, 0, stream);
        var all := w.nodes[0].cb[id := stream(id)];
        ChunkBufferKeeps(w, 0, if Shrunk(cb, all) then cb else all, stream);
      case Forget(p, cb) =>
        assert NodeOk(w, p, stream);
        ChunkBufferKeeps(w, p, cb, stream);
    }
  }

  // ---- Whole runs ----

  /** `steps` lead from `w` to `t`. */
  predicate Leads(w: World, steps: seq<Step>, t: World, stream: int -> Chunk)
    decreases |steps|
  {
    if steps == [] then w == t
    else Enabled(w, steps[0]) && Leads(Apply(w, steps[0], stream), steps[1..], t, stream)
  }

  /** What only ever grows, and what is set once. */
  predicate Later(w: World, t: World) {
    && |t.nodes| == |w.nodes|
    && |w.sent| <= |t.sent| && t.sent[..|w.sent|] == w.sent
    && forall p: nat | p < |w.nodes| :: w.nodes[p].first != -1 ==> t.nodes[p].first == w.nodes[p].first
  }

  lemma StepLater(w: World, step: Step, stream: int -> Chunk)
    requires Inv(w, stream) && Enabled(w, step)
    ensures Later(w, Apply(w, step, stream))
  {
    match step {
      case ReceiveOffer(k) =>
        var m := w.sent[k];
        assert MsgOk(w.sent, k, stream) && NodeOk(w, m.to, stream);
        ScanSafe(m.ids, w.nodes[m.to].cb.Keys, w.nodes[m.to].first, m.limit);
      case _ =>
    }
  }

  lemma {:induction false} RunKeeps(w: World, steps: seq<Step>, t: World, stream: int -> Chunk)
    requires Inv(w, stream) && Leads(w, steps, t, stream) && IsStream(stream)
    ensures Inv(t, stream) && Later(w, t)
    decreases |steps|
  {
    if steps != [] {
      var m := Apply(w, steps[0], stream);
      StepKeeps(w, steps[0], stream);
      StepLater(w, steps[0], stream);
      RunKeeps(m, steps[1..], t, stream);
      assert t.sent[..|w.sent|] == t.sent[..|m.sent|][..|w.sent|];
    }
  }

  lemma StartInv(w: World, stream: int -> Chunk)
    requires IsStart(w)
    ensures Inv(w, stream)
  {
    forall p: nat | p < |w.nodes| ensures NodeOk(w, p, stream) {
      assert w.nodes[p] in w.nodes;
    }
  }

  /** Every accept ever sent answers an earlier offer: its id, only its chunks, at most its limit. */
  lemma AcceptsAnswerOffers(w: World, steps: seq<Step>, t: World, k: nat, stream: int -> Chunk)
    requires IsStart(w) && Leads(w, steps, t, stream) && IsStream(stream)
    requires k < |t.sent| && t.sent[k].Accept?
    ensures |t.sent[k].ids| <= OFFER_LIMIT
    ensures exists j: nat | j < k :: Answers(t.sent[j], t.sent[k])
  {
    StartInv(w, stream);
    RunKeeps(w, steps, t, stream);
    assert MsgOk(t.sent, k, stream);
  }

  /** Every chunk ever sent was asked for before by its receiver, and is the source's chunk. */
  lemma ChunksAreSolicited(w: World, steps: seq<Step>, t: World, k: nat, stream: int -> Chunk)
    requires IsStart(w) && Leads(w, steps, t, stream) && IsStream(stream)
    requires k < |t.sent| && t.sent[k].Data?
    ensures t.sent[k].c == stream(t.sent[k].c.id)
    ensures exists j: nat | j < k :: Asks(t.sent[j], t.sent[k].to, t.sent[k].from, t.sent[k].c.id)
  {
    StartInv(w, stream);
    RunKeeps(w, steps, t, stream);
    assert MsgOk(t.sent, k, stream);
  }

  /** Whatever any peer holds, keeps for playing or has played is the source's chunk of that id. */
  lemma ChunksAreGenuine(w: World, steps: seq<Step>, t: World, p: nat, stream: int -> Chunk)
    requires IsStart(w) && Leads(w, steps, t, stream) && IsStream(stream)
    requires p < |t.nodes|
    ensures Genuine(t.nodes[p], stream)
  {
    StartInv(w, stream);
    RunKeeps(w, steps, t, stream);
    assert NodeOk(t, p, stream);
  }

  /** A peer's first chunk is set at most once, and no id below it is ever accepted. */
  lemma FirstChunkIsStable(w: World, early: seq<Step>, t: World, late: seq<Step>, u: World, p: nat,
                           stream: int -> Chunk)
    requires IsStart(w) && IsStream(stream) && p < |w.nodes|
    requires Leads(w, early, t, stream) && Leads(t, late, u, stream)
    ensures |t.nodes| == |u.nodes| == |w.nodes|
    ensures t.nodes[p].first != -1 ==> u.nodes[p].first == t.nodes[p].first
    ensures forall m | m in u.sent && m.Accept? && m.from == p :: forall id | id in m.ids :: id >= u.nodes[p].first >= 0
  {
    StartInv(w, stream);
    RunKeeps(w, early, t, stream);
    RunKeeps(t, late, u, stream);
    assert AcceptsFrom(u.sent, p, u.nodes[p].first);
  }

  // ---- Transaction ids ----

  /** How many offers `p` has made. */
  function OfferCount(p: nat, msgs: seq<Msg>): nat {
    if msgs == [] then 0
    else OfferCount(p, msgs[..|msgs| - 1]) + if msgs[|msgs| - 1].Offer? && msgs[|msgs| - 1].from == p then 1 else 0
  }

  predicate IsOfferOf(p: nat, m: Msg) {
    m.Offer? && m.from == p
  }

  /** An offer carries the number of offers before it, plus one, in 16 bits. */
  predicate NumberedAt(p: nat, msgs: seq<Msg>, k: nat)
    requires k < |msgs|
  {
    IsOfferOf(p, msgs[k]) ==> msgs[k].tid == (1 + OfferCount(p, msgs[..k])) % WIRE
  }

  predicate Numbered(w: World, p: nat)
    requires p < |w.nodes|
  {
    && w.nodes[p].trans == 1 + OfferCount(p, w.sent)
    && forall k: nat | k < |w.sent| :: NumberedAt(p, w.sent, k)
  }

  lemma {:induction false} OfferCountConcat(p: nat, a: seq<Msg>, b: seq<Msg>)
    ensures OfferCount(p, a + b) == OfferCount(p, a) + OfferCount(p, b)
  {
    if b == [] {
      assert a + b == a;
    } else {
      var n := |b| - 1;
      OfferCountConcat(p, a, b[..n]);
      assert (a + b)[..|a + b| - 1] == a + b[..n];
    }
  }

  lemma {:induction false} DataIsNoOffer(p: nat, r: nat, entries: seq<Q.Entry>, cb: map<int, Chunk>)
    ensures OfferCount(p, DataFor(r, entries, cb)) == 0
    ensures forall m | m in DataFor(r, entries, cb) :: m.Data?
  {
    if entries != [] {
      DataIsNoOffer(p, r, entries[1..], cb);
      if entries[0].chunk in cb {
        var head := [Data(r, entries[0].to, cb[entries[0].chunk])];
        assert DataFor(r, entries, cb) == head + DataFor(r, entries[1..], cb);
        OfferCountConcat(p, head, DataFor(r, entries[1..], cb));
        OneMessage(p, head[0]);
      } else {
        assert DataFor(r, entries, cb) == DataFor(r, entries[1..], cb);
      }
    }
  }

  /** Messages that are no offers of `p` leave its numbering as it is. */
  lemma NumberedGrows(w: World, t: World, p: nat, more: seq<Msg>)
    requires p < |w.nodes| && p < |t.nodes| && Numbered(w, p)
    requires t.sent == w.sent + more && t.nodes[p].trans == w.nodes[p].trans
    requires OfferCount(p, more) == 0 && forall m | m in more :: !IsOfferOf(p, m)
    ensures Numbered(t, p)
  {
    OfferCountConcat(p, w.sent, more);
    forall k: nat | k < |t.sent| ensures NumberedAt(p, t.sent, k) {
      if k < |w.sent| {
        assert NumberedAt(p, w.sent, k);
        assert t.sent[..k] == w.sent[..k];
      } else {
        assert more[k - |w.sent|] in more;
      }
    }
  }

  lemma OneMessage(p: nat, m: Msg)
    ensures OfferCount(p, [m]) == if IsOfferOf(p, m) then 1 else 0
  {
    assert [m][..0] == [];
  }

  lemma OwnOfferNumbers(w: World, q: nat, ids: seq<int>, p: nat, stream: int -> Chunk)
    requires Enabled(w, SendOffer(p, q, ids)) && Numbered(w, p)
    ensures Numbered(Apply(w, SendOffer(p, q, ids), stream), p)
  {
    var t := Apply(w, SendOffer(p, q, ids), stream);
    var m := Offer(p, q, ids, OFFER_LIMIT, w.nodes[p].trans % WIRE);
    OneMessage(p, m);
    OfferCountConcat(p, w.sent, [m]);
    forall k: nat | k < |t.sent| ensures NumberedAt(p, t.sent, k) {
      assert k < |w.sent| ==> NumberedAt(p, w.sent, k);
      assert t.sent[..k] == w.sent[..k];
    }
  }

  lemma OneOtherMessage(w: World, t: World, p: nat, m: Msg)
    requires p < |w.nodes| && p < |t.nodes| && Numbered(w, p)
    requires t.sent == w.sent + [m] && t.nodes[p].trans == w.nodes[p].trans && !IsOfferOf(p, m)
    ensures Numbered(t, p)
  {
    OneMessage(p, m);
    NumberedGrows(w, t, p, [m]);
  }

  lemma StepNumbers(w: World, step: Step, p: nat, stream: int -> Chunk)
    requires Enabled(w, step) && p < |w.nodes| && Numbered(w, p)
    ensures |Apply(w, step, stream).nodes| == |w.nodes| && Numbered(Apply(w, step, stream), p)
  {
    var t := Apply(w, step, stream);
    match step {
      case SendOffer(r, q, ids) =>
        if r == p {
          OwnOfferNumbers(w, q, ids, p, stream);
        } else {
          OneOtherMessage(w, t, p, Offer(r, q, ids, OFFER_LIMIT, w.nodes[r].trans % WIRE));
        }
      case ReceiveOffer(k) =>
        var m := w.sent[k];
        var n := w.nodes[m.to];
        OneOtherMessage(w, t, p, Accept(m.to, m.from, Scan(m.ids, n.cb.Keys, n.first, m.limit).accepted, m.tid));
      case SendWant(r, q, ids) => OneOtherMessage(w, t, p, Want(r, q, ids));
      case Drain(r) =>
        var n := w.nodes[r];
        DataIsNoOffer(p, r, Q.Sent(n.queue, n.cb.Keys), n.cb);
        NumberedGrows(w, t, p, DataFor(r, Q.Sent(n.queue, n.cb.Keys), n.cb));
      case _ => NumberedGrows(w, t, p, []);
    }
  }

  lemma {:induction false} RunNumbers(w: World, steps: seq<Step>, t: World, p: nat, stream: int -> Chunk)
    requires Leads(w, steps, t, stream) && p < |w.nodes| && Numbered(w, p)
    ensures p < |t.nodes| && Numbered(t, p)
    decreases |steps|
  {
    if steps != [] {
      StepNumbers(w, steps[0], p, stream);
      RunNumbers(Apply(w, steps[0], stream), steps[1..], t, p, stream);
    }
  }

  /** The offers before `j` are those before `i` and those from `i` on, of which there is one. */
  lemma OffersBetween(p: nat, msgs: seq<Msg>, i: nat, j: nat)
    requires i < j <= |msgs| && IsOfferOf(p, msgs[i])
    ensures OfferCount(p, msgs[..j]) == OfferCount(p, msgs[..i]) + OfferCount(p, msgs[i..j])
    ensures OfferCount(p, msgs[i..j]) > 0
  {
    assert msgs[..j] == msgs[..i] + msgs[i..j];
    OfferCountConcat(p, msgs[..i], msgs[i..j]);
    assert msgs[i..j] == [msgs[i]] + msgs[i + 1..j];
    OfferCountConcat(p, [msgs[i]], msgs[i + 1..j]);
    OneMessage(p, msgs[i]);
  }

  lemma SameResidueIff(a: nat, d: nat)
    ensures (1 + a) % WIRE == (1 + a + d) % WIRE <==> d % WIRE == 0
    ensures 0 < d < WIRE ==> d % WIRE != 0
  {
  }

  lemma SameIdWhenNumbered(t: World, i: nat, j: nat, p: nat)
    requires p < |t.nodes| && Numbered(t, p)
    requires i < j < |t.sent| && IsOfferOf(p, t.sent[i]) && IsOfferOf(p, t.sent[j])
    ensures OfferCount(p, t.sent[i..j]) > 0
    ensures t.sent[i].tid == t.sent[j].tid <==> OfferCount(p, t.sent[i..j]) % WIRE == 0
    ensures t.nodes[p].trans <= WIRE + 1 ==> t.sent[i].tid != t.sent[j].tid
  {
    var d, rest := OfferCount(p, t.sent[i..j]), OfferCount(p, t.sent[j..]);
    OffersBetween(p, t.sent, i, j);
    OffersBetween(p, t.sent, j, |t.sent|);
    assert t.sent[..|t.sent|] == t.sent && t.sent[j..|t.sent|] == t.sent[j..];
    assert d < t.nodes[p].trans - 1;
    assert NumberedAt(p, t.sent, i) && NumberedAt(p, t.sent, j);
    SameResidueIff(OfferCount(p, t.sent[..i]), OfferCount(p, t.sent[i..j]));
  }

  /**
   Two offers of one peer carry the same transaction id exactly if the number of offers from
   the one to the other is a multiple of 65536: up to that many, the id names the offer.
  */
  lemma SameIdIff(w: World, steps: seq<Step>, t: World, i: nat, j: nat, p: nat, stream: int -> Chunk)
    requires IsStart(w) && Leads(w, steps, t, stream) && p < |w.nodes|
    requires i < j < |t.sent| && IsOfferOf(p, t.sent[i]) && IsOfferOf(p, t.sent[j])
    ensures OfferCount(p, t.sent[i..j]) > 0
    ensures t.sent[i].tid == t.sent[j].tid <==> OfferCount(p, t.sent[i..j]) % WIRE == 0
    ensures p < |t.nodes| && (t.nodes[p].trans <= WIRE + 1 ==> t.sent[i].tid != t.sent[j].tid)
  {
    assert w.nodes[p] in w.nodes;
    RunNumbers(w, steps, t, p, stream);
    SameIdWhenNumbered(t, i, j, p);
  }

  predicate OffersFromPeers(w: World) {
    forall m | m in w.sent && m.Offer? :: m.from < |w.nodes|
  }

  lemma {:induction false} RunOffersFromPeers(w: World, steps: seq<Step>, t: World, stream: int -> Chunk)
    requires Leads(w, steps, t, stream) && OffersFromPeers(w)
    ensures OffersFromPeers(t) && |t.nodes| == |w.nodes|
    decreases |steps|
  {
    if steps != [] {
      if steps[0].Drain? {
        var n := w.nodes[steps[0].p];
        DataIsNoOffer(0, steps[0].p, Q.Sent(n.queue, n.cb.Keys), n.cb);
      }
      RunOffersFromPeers(Apply(w, steps[0], stream), steps[1..], t, stream);
    }
  }

  /** Up to 65536 offers of a peer, an accept answers the one offer of that peer that carries its transaction id. */
  lemma AcceptNamesItsOffer(w: World, steps: seq<Step>, t: World, i: nat, k: nat, stream: int -> Chunk)
    requires IsStart(w) && Leads(w, steps, t, stream) && IsStream(stream)
    requires k < |t.sent| && t.sent[k].Accept? && OfferCount(t.sent[k].to, t.sent) <= WIRE
    requires i < |t.sent| && IsOfferOf(t.sent[k].to, t.sent[i]) && t.sent[i].tid == t.sent[k].tid
    ensures i < k && Answers(t.sent[i], t.sent[k])
  {
    var p := t.sent[k].to;
    RunOffersFromPeers(w, steps, t, stream);
    assert t.sent[i] in t.sent && w.nodes[p] in w.nodes;
    AcceptsAnswerOffers(w, steps, t, k, stream);
    var j: nat :| j < k && Answers(t.sent[j], t.sent[k]);
    RunNumbers(w, steps, t, p, stream);
    if i < j {
      SameIdWhenNumbered(t, i, j, p);
    } else if j < i {
      SameIdWhenNumbered(t, j, i, p);
    }
  }

  // ---- One offer too many ----

  /** So many offers of peer 0, which holds nothing, to peer 2. */
  function ManyOffers(n: nat): seq<Step> {
    seq(n, _ => SendOffer(0, 2, []))
  }

  /** Message `j` is one of them, made after `from` messages with the counter at `trans`. */
  predicate OneOfMany(m: Msg, j: int, from: int, trans: nat) {
    m == Offer(0, 2, [], OFFER_LIMIT, (trans + j - from) % WIRE)
  }

  lemma OneOfManyMade(w: World, stream: int -> Chunk) returns (m: World)
    requires |w.nodes| > 2 && w.nodes[0].cb == map[]
    ensures Enabled(w, SendOffer(0, 2, [])) && m == Apply(w, SendOffer(0, 2, []), stream)
    ensures |m.nodes| == |w.nodes| && m.nodes[1] == w.nodes[1]
    ensures m.nodes[0] == w.nodes[0].(trans := w.nodes[0].trans + 1)
    ensures |m.sent| == |w.sent| + 1 && m.sent[..|w.sent|] == w.sent
    ensures OneOfMany(m.sent[|w.sent|], |w.sent|, |w.sent|, w.nodes[0].trans)
  {
    m := Apply(w, SendOffer(0, 2, []), stream);
  }

  lemma {:induction false} OffersLead(w: World, n: nat, stream: int -> Chunk) returns (t: World)
    requires |w.nodes| > 2 && w.nodes[0].cb == map[]
    ensures Leads(w, ManyOffers(n), t, stream)
    ensures |t.nodes| == |w.nodes| && t.nodes[1] == w.nodes[1] && |t.sent| == |w.sent| + n
    ensures t.sent[..|w.sent|] == w.sent
    ensures forall j | |w.sent| <= j < |t.sent| :: OneOfMany(t.sent[j], j, |w.sent|, w.nodes[0].trans)
    decreases n
  {
    if n == 0 {
      t := w;
    } else {
      var m := OneOfManyMade(w, stream);
      t := OffersLead(m, n - 1, stream);
      assert ManyOffers(n)[0] == SendOffer(0, 2, []) && ManyOffers(n)[1..] == ManyOffers(n - 1);
      assert t.sent[..|w.sent|] == t.sent[..|m.sent|][..|w.sent|];
      assert t.sent[|w.sent|] == t.sent[..|m.sent|][|w.sent|];
      forall j | |w.sent| <= j < |t.sent| ensures OneOfMany(t.sent[j], j, |w.sent|, w.nodes[0].trans) {
        if j > |w.sent| {
          assert OneOfMany(t.sent[j], j, |m.sent|, m.nodes[0].trans);
        }
      }
    }
  }

  lemma {:induction false} LeadsConcat(w: World, a: seq<Step>, m: World, b: seq<Step>, t: World, stream: int -> Chunk)
    requires Leads(w, a, m, stream) && Leads(m, b, t, stream)
    ensures Leads(w, a + b, t, stream)
    decreases |a|
  {
    if a == [] {
      assert a + b == b;
    } else {
      LeadsConcat(Apply(w, a[0], stream), a[1..], m, b, t, stream);
      assert (a + b)[0] == a[0] && (a + b)[1..] == a[1..] + b;
    }
  }

  lemma OneStep(w: World, step: Step, stream: int -> Chunk)
    requires Enabled(w, step)
    ensures Leads(w, [step], Apply(w, step, stream), stream)
  {
    var t := Apply(w, step, stream);
    assert [step][0] == step && [step][1..] == [];
    assert Leads(t, [], t, stream);
  }

  /** Peer 1, which holds nothing, accepts none of the first offer. */
  lemma FirstAccepted(u: World, tid: nat, stream: int -> Chunk) returns (t: World)
    requires |u.nodes| > 1 && u.nodes[1].cb == map[]
    requires u.sent != [] && u.sent[0] == Offer(0, 1, [], OFFER_LIMIT, tid)
    ensures Leads(u, [ReceiveOffer(0)], t, stream)
    ensures t.sent == u.sent + [Accept(1, 0, [], tid)]
  {
    OneStep(u, ReceiveOffer(0), stream);
    t := Apply(u, ReceiveOffer(0), stream);
  }

  /**
   After 65536 offers the ids come round: peer 0 makes an offer to peer 1, and 65536 to peer 2.
   The last carries the id of the first, and so does the accept of peer 1, which does not answer it.
  */
  lemma IdsComeRound(w: World, stream: int -> Chunk) returns (steps: seq<Step>, t: World)
    requires IsStart(w) && |w.nodes| > 2
    ensures Leads(w, steps, t, stream) && |t.sent| == WIRE + 2
    ensures IsOfferOf(0, t.sent[0]) && IsOfferOf(0, t.sent[WIRE]) && t.sent[0].tid == t.sent[WIRE].tid
    ensures var a := t.sent[WIRE + 1];
            && a.Accept? && a.to == 0 && a.tid == t.sent[WIRE].tid
            && Answers(t.sent[0], a) && !Answers(t.sent[WIRE], a)
  {
    var first := SendOffer(0, 1, []);
    assert w.nodes[0] in w.nodes && w.nodes[1] in w.nodes;
    OneStep(w, first, stream);
    var m := Apply(w, first, stream);
    assert m.sent == [Offer(0, 1, [], OFFER_LIMIT, 1)];
    var u := OffersLead(m, WIRE, stream);
    assert u.sent[0] == u.sent[..1][0] == m.sent[0];
    assert OneOfMany(u.sent[WIRE], WIRE, 1, 2);
    t := FirstAccepted(u, 1, stream);
    assert t.sent[0] == u.sent[0] && t.sent[WIRE] == u.sent[WIRE];
    LeadsConcat(w, [first], m, ManyOffers(WIRE), u, stream);
    LeadsConcat(w, [first] + ManyOffers(WIRE), u, [ReceiveOffer(0)], t, stream);
    steps := [first] + ManyOffers(WIRE) + [ReceiveOffer(0)];
  }
}
