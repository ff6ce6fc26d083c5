/**
 What each step of the peer protocol does, and that together they bring a chunk across: from
 any reachable state, a peer that lacks a chunk gets it from one that holds it.
*/
module GossipSteps {
  import opened Chunks
  import opened Offers
  import opened Gossip
  import Q = SendQueue
  import O = Output
  import C = OutputComplete

  /** Only peer `p` may have changed. */
  predicate OnlyPeer(w: World, t: World, p: nat) {
    |t.nodes| == |w.nodes| && forall i: nat | i < |w.nodes| && i != p :: t.nodes[i] == w.nodes[i]
  }

  /** The messages so far are still there, with `n` more. */
  predicate More(w: World, t: World, n: nat) {
    |t.sent| == |w.sent| + n && t.sent[..|w.sent|] == w.sent
  }

  /** An offer lists exactly what is held, each id once, and takes the next transaction id. */
  lemma SendOfferDoes(w: World, p: nat, q: nat, ids: seq<int>, stream: int -> Chunk)
    requires Enabled(w, SendOffer(p, q, ids))
    ensures var t, n := Apply(w, SendOffer(p, q, ids), stream), w.nodes[p];
            && OnlyPeer(w, t, p) && t.nodes[p] == n.(trans := n.trans + 1)
            && More(w, t, 1)
            && var m := t.sent[|w.sent|];
               && m.Offer? && m.from == p && m.to == q && m.limit == OFFER_LIMIT && m.tid == n.trans % WIRE
               && Distinct(m.ids) && (forall id :: id in m.ids <==> id in n.cb)
  {
  }

  /** An accept names the first ids of the offer that are wanted, up to its limit; an unset first chunk is set. */
  lemma ReceiveOfferDoes(w: World, k: nat, stream: int -> Chunk)
    requires Inv(w, stream) && Enabled(w, ReceiveOffer(k))
    ensures var t, m := Apply(w, ReceiveOffer(k), stream), w.sent[k];
            var n := w.nodes[m.to];
            var f := FirstAfter(m.ids, n.cb.Keys, n.first, m.limit);
            && OnlyPeer(w, t, m.to) && t.nodes[m.to] == n.(first := f)
            && More(w, t, 1)
            && var a := t.sent[|w.sent|];
               && a.Accept? && a.from == m.to && a.to == m.from && a.tid == m.tid
               && a.ids == Take(Wanted(m.ids, n.cb.Keys, f), m.limit)
  {
    var m := w.sent[k];
    assert MsgOk(w.sent, k, stream);
    ScanMeetsSpec(m.ids, w.nodes[m.to].cb.Keys, w.nodes[m.to].first, m.limit);
  }

  /** A request appends, in its order, a pair for each of its ids that is held, once for each time it occurs. */
  lemma ReceiveRequestDoes(w: World, k: nat, peers: set<nat>, stream: int -> Chunk)
      returns (tail: seq<Q.Entry>, js: seq<nat>)
    requires Enabled(w, ReceiveRequest(k, peers))
    ensures var t, m := Apply(w, ReceiveRequest(k, peers), stream), w.sent[k];
            var n := w.nodes[m.to];
            && OnlyPeer(w, t, m.to) && t.nodes[m.to] == n.(queue := n.queue + tail) && More(w, t, 0)
            && Q.PairsAt(m.from, m.from in peers, m.ids, js, tail)
            && Q.Lists(js, |m.ids|, Q.HeldAt(m.ids, n.cb.Keys))
  {
    var m := w.sent[k];
    var n := w.nodes[m.to];
    tail := Q.Added(m.from, m.ids, n.cb.Keys, peers);
    js := Q.AddedInOrder(m.from, m.ids, n.cb.Keys, peers);
  }

  /** A drain empties the queue and sends one chunk message for each entry that can be sent, in their order. */
  lemma DrainDoes(w: World, p: nat, stream: int -> Chunk) returns (js: seq<nat>)
    requires Enabled(w, Drain(p))
    ensures var t, n := Apply(w, Drain(p), stream), w.nodes[p];
            && OnlyPeer(w, t, p) && t.nodes[p] == n.(queue := [])
            && Q.Lists(js, |n.queue|, Q.SendableAt(n.queue, n.cb.Keys))
            && More(w, t, |js|)
            && forall i | 0 <= i < |js| ::
                 && js[i] < |n.queue| && n.queue[js[i]].chunk in n.cb
                 && t.sent[|w.sent| + i] == Data(p, n.queue[js[i]].to, n.cb[n.queue[js[i]].chunk])
  {
    var n := w.nodes[p];
    js := Q.SentInOrder(n.queue, n.cb.Keys);
    OneMessageEach(p, n.queue, n.cb);
    var t, msgs := Apply(w, Drain(p), stream), DataFor(p, Q.Sent(n.queue, n.cb.Keys), n.cb);
    forall i | 0 <= i < |js| ensures t.sent[|w.sent| + i] == msgs[i] {
    }
  }

  /**
   A chunk message puts its chunk into the chunk buffer, unless that drops it, and hands it to
   the output; there it is in a slot or written afterwards exactly if the output takes it, or
   was before.
  */
  lemma ReceiveDataDoes(w: World, k: nat, cb: map<int, Chunk>, stream: int -> Chunk)
    requires Inv(w, stream) && Enabled(w, ReceiveData(k, cb))
    ensures var t, m := Apply(w, ReceiveData(k, cb), stream), w.sent[k];
            var n, r := w.nodes[m.to], t.nodes[m.to];
            && OnlyPeer(w, t, m.to) && More(w, t, 0)
            && r.first == n.first && r.trans == n.trans && r.queue == n.queue && r.cb == cb
            && (m.c.id in cb ==> r.cb[m.c.id] == m.c)
            && (forall id | id in r.cb && id != m.c.id :: id in n.cb && r.cb[id] == n.cb[id])
            && (forall x :: C.HeldChunk(r.out, x) <==>
                            C.HeldChunk(n.out, x) || (C.Takes(n.out, n.first, m.c) && x == m.c))
  {
    var m := w.sent[k];
    var n := w.nodes[m.to];
    assert NodeOk(w, m.to, stream);
    var r := Apply(w, ReceiveData(k, cb), stream).nodes[m.to];
    forall x ensures C.HeldChunk(r.out, x) <==> C.HeldChunk(n.out, x) || (C.Takes(n.out, n.first, m.c) && x == m.c) {
      C.DeliverHeldChunk(n.out, n.first, m.c, x);
    }
  }

  /** The source holds what it produces, unless its chunk buffer drops it; a chunk buffer only ever drops. */
  lemma ProduceDoes(w: World, id: nat, cb: map<int, Chunk>, stream: int -> Chunk)
    requires Enabled(w, Produce(id, cb)) && Shrunk(cb, w.nodes[0].cb[id := stream(id)])
    ensures var t, n := Apply(w, Produce(id, cb), stream), w.nodes[0];
            && OnlyPeer(w, t, 0) && More(w, t, 0) && t.nodes[0] == n.(cb := cb)
            && (id in cb ==> t.nodes[0].cb[id] == stream(id))
  {
  }

  lemma ForgetDoes(w: World, p: nat, cb: map<int, Chunk>, stream: int -> Chunk)
    requires Enabled(w, Forget(p, cb))
    ensures var t, n := Apply(w, Forget(p, cb), stream), w.nodes[p];
            && OnlyPeer(w, t, p) && More(w, t, 0) && t.nodes[p] == n.(cb := cb)
            && forall id | id in cb :: id in n.cb && cb[id] == n.cb[id]
  {
  }

  /** A deliver message is sent as it is meant; it changes no peer. */
  lemma SendWantDoes(w: World, p: nat, q: nat, ids: seq<int>, stream: int -> Chunk)
    requires Enabled(w, SendWant(p, q, ids))
    ensures var t := Apply(w, SendWant(p, q, ids), stream);
            t.nodes == w.nodes && More(w, t, 1) && t.sent[|w.sent|] == Want(p, q, ids)
  {
  }

  // ---- A chunk gets across ----

  /** All members of a set, each once. */
  lemma {:induction false} Listing(s: set<int>) returns (ids: seq<int>)
    ensures Distinct(ids) && forall id :: id in ids <==> id in s
    decreases |s|
  {
    ids := [];
    if x :| x in s {
      var rest := Listing(s - {x});
      ids := [x] + rest;
      DistinctCons(x, rest);
    }
  }

  lemma DistinctCons(x: int, rest: seq<int>)
    requires Distinct(rest) && x !in rest
    ensures Distinct([x] + rest)
  {
  }

  /** A peer can offer what it holds with any id of it first. */
  lemma OfferWithFirst(w: World, p: nat, q: nat, id: int, stream: int -> Chunk) returns (ids: seq<int>, t: World)
    requires p < |w.nodes| && q < |w.nodes| && q != 0 && id in w.nodes[p].cb
    ensures Enabled(w, SendOffer(p, q, ids)) && t == Apply(w, SendOffer(p, q, ids), stream)
    ensures ids != [] && ids[0] == id
    ensures OnlyPeer(w, t, p) && t.nodes[p] == w.nodes[p].(trans := w.nodes[p].trans + 1)
    ensures t.sent == w.sent + [Offer(p, q, ids, OFFER_LIMIT, w.nodes[p].trans % WIRE)]
  {
    var rest := Listing(w.nodes[p].cb.Keys - {id});
    ids := [id] + rest;
    DistinctCons(id, rest);
    t := Apply(w, SendOffer(p, q, ids), stream);
  }

  /** The first id of an offer is accepted if it is not held and not too old. */
  lemma FirstIsAccepted(w: World, k: nat, stream: int -> Chunk) returns (t: World)
    requires Inv(w, stream) && Enabled(w, ReceiveOffer(k)) && w.sent[k].ids != []
    requires var m := w.sent[k]; var n := w.nodes[m.to];
             m.ids[0] !in n.cb && (n.first == -1 || m.ids[0] >= n.first)
    ensures t == Apply(w, ReceiveOffer(k), stream)
    ensures var m := w.sent[k];
            && OnlyPeer(w, t, m.to)
            && t.nodes[m.to] == w.nodes[m.to].(first := NewFirst(w.nodes[m.to], m.ids[0]))
            && More(w, t, 1) && t.sent[|w.sent|].Accept?
            && t.sent[|w.sent|].from == m.to && t.sent[|w.sent|].to == m.from && m.ids[0] in t.sent[|w.sent|].ids
  {
    var m := w.sent[k];
    var n := w.nodes[m.to];
    t := Apply(w, ReceiveOffer(k), stream);
    ReceiveOfferDoes(w, k, stream);
    assert MsgOk(w.sent, k, stream) && m.limit == OFFER_LIMIT;
    var f := FirstAfter(m.ids, n.cb.Keys, n.first, m.limit);
    assert f == NewFirst(n, m.ids[0]) && f <= m.ids[0];
    assert Wanted(m.ids, n.cb.Keys, f) == [m.ids[0]] + Wanted(m.ids[1..], n.cb.Keys, f);
    assert Take(Wanted(m.ids, n.cb.Keys, f), m.limit)[0] == m.ids[0];
  }

  /** The first chunk of a peer that accepts `id` first. */
  function NewFirst(n: Node, id: int): int {
    if n.first == -1 then id else n.first
  }

  /** Each id of a request that is held, from a known peer, comes to stand in the queue. */
  lemma RequestIsQueued(w: World, k: nat, id: int, stream: int -> Chunk) returns (t: World)
    requires Received(w, k) && (w.sent[k].Accept? || w.sent[k].Want?)
    requires id in w.sent[k].ids && id in w.nodes[w.sent[k].to].cb
    ensures Enabled(w, ReceiveRequest(k, {w.sent[k].from}))
    ensures t == Apply(w, ReceiveRequest(k, {w.sent[k].from}), stream)
    ensures var m := w.sent[k];
            && OnlyPeer(w, t, m.to) && More(w, t, 0)
            && t.nodes[m.to] == w.nodes[m.to].(queue := t.nodes[m.to].queue)
            && Q.Entry(m.from, true, id) in t.nodes[m.to].queue
  {
    var m := w.sent[k];
    t := Apply(w, ReceiveRequest(k, {m.from}), stream);
    var tail, js := ReceiveRequestDoes(w, k, {m.from}, stream);
    var j: nat :| j < |m.ids| && m.ids[j] == id;
    assert j in js;
    var i :| 0 <= i < |js| && js[i] == j;
    assert tail[i] == Q.Entry(m.from, true, id);
  }

  /** A queued pair whose chunk is held is sent. */
  lemma QueuedIsSent(w: World, p: nat, e: Q.Entry, stream: int -> Chunk) returns (t: World, k: nat)
    requires p < |w.nodes| && e in w.nodes[p].queue && e.known && e.chunk in w.nodes[p].cb
    ensures t == Apply(w, Drain(p), stream)
    ensures OnlyPeer(w, t, p) && t.nodes[p] == w.nodes[p].(queue := [])
    ensures |w.sent| <= k < |t.sent| && t.sent[k] == Data(p, e.to, w.nodes[p].cb[e.chunk])
  {
    var n := w.nodes[p];
    t := Apply(w, Drain(p), stream);
    var js := DrainDoes(w, p, stream);
    var j: nat :| j < |n.queue| && n.queue[j] == e;
    assert j in Q.SendableAt(n.queue, n.cb.Keys);
    assert j in js;
    var i :| 0 <= i < |js| && js[i] == j;
    k := |w.sent| + i;
  }

  /** Peer `n` has the chunk in its buffer, and its output has it if it took it or had it before. */
  ghost predicate Got(before: Node, first: int, n: Node, c: Chunk)
    requires |before.out.slots| > 0 && before.out.played >= -1
  {
    && c.id in n.cb && n.cb[c.id] == c
    && (C.HeldChunk(n.out, c) <==> C.HeldChunk(before.out, c) || C.Takes(before.out, first, c))
  }

  lemma DataIsTaken(w: World, k: nat, stream: int -> Chunk) returns (t: World, cb: map<int, Chunk>)
    requires Inv(w, stream) && Received(w, k) && w.sent[k].Data?
    requires var n := w.nodes[w.sent[k].to];
             && |n.out.slots| > 0 && n.out.played >= -1 && O.Deliver(n.out, n.first, w.sent[k].c).Done?
    ensures Enabled(w, ReceiveData(k, cb)) && t == Apply(w, ReceiveData(k, cb), stream)
    ensures var m := w.sent[k];
            OnlyPeer(w, t, m.to) && Got(w.nodes[m.to], w.nodes[m.to].first, t.nodes[m.to], m.c)
  {
    var m := w.sent[k];
    cb := w.nodes[m.to].cb[m.c.id := m.c];
    t := Apply(w, ReceiveData(k, cb), stream);
    ReceiveDataDoes(w, k, cb, stream);
  }

  /** Peer `p` can give the chunk `id` to peer `q`. */
  predicate CanGive(w: World, p: nat, q: nat, id: int, stream: int -> Chunk) {
    && p < |w.nodes| && q < |w.nodes| && q != 0 && p != q && id in w.nodes[p].cb
    && var n := w.nodes[q];
       && id !in n.cb && (n.first == -1 || id >= n.first)
       && |n.out.slots| > 0 && n.out.played >= -1
       && O.Deliver(n.out, NewFirst(n, id), stream(id)).Done?
  }

  /** Offer, accept and queueing. */
  lemma Asking(w: World, p: nat, q: nat, id: int, stream: int -> Chunk) returns (steps: seq<Step>, t: World)
    requires Inv(w, stream) && IsStream(stream) && CanGive(w, p, q, id, stream)
    ensures Leads(w, steps, t, stream) && Inv(t, stream) && |t.nodes| == |w.nodes|
    ensures t.nodes[p].cb == w.nodes[p].cb && Q.Entry(q, true, id) in t.nodes[p].queue
    ensures t.nodes[q] == w.nodes[q].(first := NewFirst(w.nodes[q], id))
  {
    var ids, a := OfferWithFirst(w, p, q, id, stream);
    var s1, s2, s3 := SendOffer(p, q, ids), ReceiveOffer(|w.sent|), ReceiveRequest(|w.sent| + 1, {q});
    StepKeeps(w, s1, stream);
    var b := FirstIsAccepted(a, |w.sent|, stream);
    StepKeeps(a, s2, stream);
    t := RequestIsQueued(b, |a.sent|, id, stream);
    StepKeeps(b, s3, stream);
    steps := [s1, s2, s3];
    ThreeLead(w, s1, a, s2, b, s3, t, stream);
  }

  lemma ThreeLead(w: World, s1: Step, a: World, s2: Step, b: World, s3: Step, t: World, stream: int -> Chunk)
    requires Enabled(w, s1) && a == Apply(w, s1, stream)
    requires Enabled(a, s2) && b == Apply(a, s2, stream)
    requires Enabled(b, s3) && t == Apply(b, s3, stream)
    ensures Leads(w, [s1, s2, s3], t, stream)
  {
    OneStep(b, s3, stream);
    assert [s2, s3][1..] == [s3] && [s1, s2, s3][1..] == [s2, s3];
  }

  lemma TwoLead(w: World, s1: Step, a: World, s2: Step, t: World, stream: int -> Chunk)
    requires Enabled(w, s1) && a == Apply(w, s1, stream) && Enabled(a, s2) && t == Apply(a, s2, stream)
    ensures Leads(w, [s1, s2], t, stream)
  {
    OneStep(a, s2, stream);
    assert [s1, s2][1..] == [s2];
  }

  /** Sending and receiving. */
  lemma Giving(w: World, p: nat, q: nat, id: int, stream: int -> Chunk) returns (steps: seq<Step>, t: World)
    requires Inv(w, stream) && IsStream(stream) && p < |w.nodes| && q < |w.nodes| && p != q
    requires id in w.nodes[p].cb && Q.Entry(q, true, id) in w.nodes[p].queue
    requires var n := w.nodes[q];
             && |n.out.slots| > 0 && n.out.played >= -1 && O.Deliver(n.out, n.first, stream(id)).Done?
    ensures Leads(w, steps, t, stream) && Inv(t, stream) && |t.nodes| == |w.nodes|
    ensures Got(w.nodes[q], w.nodes[q].first, t.nodes[q], stream(id))
  {
    assert NodeOk(w, p, stream);
    var a, k := QueuedIsSent(w, p, Q.Entry(q, true, id), stream);
    StepKeeps(w, Drain(p), stream);
    var cb;
    t, cb := DataIsTaken(a, k, stream);
    StepKeeps(a, ReceiveData(k, cb), stream);
    steps := [Drain(p), ReceiveData(k, cb)];
    TwoLead(w, Drain(p), a, ReceiveData(k, cb), t, stream);
  }

  /**
   From any state that keeps the invariant, as every reachable one does: a peer that lacks a
   chunk and has not passed it by gets it from any peer that holds it, by an offer, an accept,
   a drain and a chunk message; and its output takes it in if that is not too late there.
  */
  lemma ChunkGetsAcross(w: World, p: nat, q: nat, id: int, stream: int -> Chunk) returns (steps: seq<Step>, t: World)
    requires Inv(w, stream) && IsStream(stream) && CanGive(w, p, q, id, stream)
    ensures Leads(w, steps, t, stream) && Inv(t, stream) && |t.nodes| == |w.nodes|
    ensures Got(w.nodes[q], NewFirst(w.nodes[q], id), t.nodes[q], stream(id))
  {
    var s1, a := Asking(w, p, q, id, stream);
    var s2;
    s2, t := Giving(a, p, q, id, stream);
    steps := s1 + s2;
    LeadsConcat(w, s1, a, s2, t, stream);
  }

  /** From the start: the source produces any chunk, and any peer gets it and plays it. */
  lemma ProducedIsPlayed(w: World, q: nat, id: nat, stream: int -> Chunk) returns (steps: seq<Step>, t: World)
    requires IsStart(w) && IsStream(stream) && 0 < q < |w.nodes|
    ensures Leads(w, steps, t, stream) && |t.nodes| == |w.nodes|
    ensures id in t.nodes[q].cb && t.nodes[q].cb[id] == stream(id)
    ensures C.HeldChunk(t.nodes[q].out, stream(id))
  {
    var c := stream(id);
    assert w.nodes[0] in w.nodes && w.nodes[q] in w.nodes;
    StartInv(w, stream);
    var produce := Produce(id, map[id := c]);
    ProduceDoes(w, id, map[id := c], stream);
    var a := Apply(w, produce, stream);
    StepKeeps(w, produce, stream);
    OneStep(w, produce, stream);
    var more;
    more, t := ChunkGetsAcross(a, 0, q, id, stream);
    LeadsConcat(w, [produce], a, more, t, stream);
    steps := [produce] + more;
  }
}
