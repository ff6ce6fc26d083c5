/** The list of (peer, chunk) pairs that accepting peers wait for, and the thread that drains it. */
module SendQueue {
  import opened Chunks

  /** `peer` is the peer's record, if the peer set knew the peer when the pair was added. */
  datatype Entry = Entry(to: nat, known: bool, chunk: int)

  /** An accept or deliver message of one peer, and what was held and known when it came. */
  datatype Request = Request(from: nat, ids: seq<int>, held: set<int>, peers: set<nat>)

  /** The pairs that a request adds: its ids that are held, in order. */
  function Added(from: nat, ids: seq<int>, held: set<int>, peers: set<nat>): seq<Entry> {
    if ids == [] then []
    else (if ids[0] in held then [Entry(from, from in peers, ids[0])] else []) + Added(from, ids[1..], held, peers)
  }

  function QueueAfter(q: seq<Entry>, rs: seq<Request>): seq<Entry>
    decreases |rs|
  {
    if rs == [] then q
    else QueueAfter(q + Added(rs[0].from, rs[0].ids, rs[0].held, rs[0].peers), rs[1..])
  }

  /** The entries that a drain sends: those still held, to known peers. */
  function Sent(q: seq<Entry>, held: set<int>): seq<Entry> {
    if q == [] then []
    else (if Sendable(q[0], held) then [q[0]] else []) + Sent(q[1..], held)
  }

  /** How often `id` occurs in a request of `to` that came while it was held and `to` was known. */
  function Accepted(e: Entry, rs: seq<Request>): nat {
    if rs == [] then 0
    else (if Accepts(e, rs[0]) then multiset(rs[0].ids)[e.chunk] else 0) + Accepted(e, rs[1..])
  }

  predicate Accepts(e: Entry, r: Request) {
    r.from == e.to && (r.from in r.peers) == e.known && e.chunk in r.held
  }

  lemma HeadCount<T>(s: seq<T>, x: T)
    requires s != []
    ensures multiset(s)[x] == (if s[0] == x then 1 else 0) + multiset(s[1..])[x]
  {
    assert s == [s[0]] + s[1..];
  }

  lemma {:induction false} AddedCount(e: Entry, r: Request)
    ensures multiset(Added(r.from, r.ids, r.held, r.peers))[e] == Accepted(e, [r])
    decreases |r.ids|
  {
    if r.ids != [] {
      var rest := r.(ids := r.ids[1..]);
      AddedCount(e, rest);
      HeadCount(r.ids, e.chunk);
      assert Accepts(e, rest) == Accepts(e, r);
      assert Accepted(e, [rest]) == if Accepts(e, r) then multiset(rest.ids)[e.chunk] else 0;
    }
  }

  lemma {:induction false} QueueCount(e: Entry, q: seq<Entry>, rs: seq<Request>)
    ensures multiset(QueueAfter(q, rs))[e] == multiset(q)[e] + Accepted(e, rs)
    decreases |rs|
  {
    if rs != [] {
      var r := rs[0];
      AddedCount(e, r);
      QueueCount(e, q + Added(r.from, r.ids, r.held, r.peers), rs[1..]);
      assert Accepted(e, [r]) + Accepted(e, rs[1..]) == Accepted(e, rs) by {
        assert [r][1..] == [];
      }
    }
  }

  lemma {:induction false} SentCount(e: Entry, q: seq<Entry>, held: set<int>)
    ensures multiset(Sent(q, held))[e] == if e.chunk in held && e.known then multiset(q)[e] else 0
  {
    if q != [] {
      SentCount(e, q[1..], held);
      HeadCount(q, e);
    }
  }

  /**
   Between two drains, whatever changes in the chunk buffer meanwhile: each pair is sent once
   for each time it was accepted while held, if it is still held and its peer was known.
  */
  lemma DrainSendsWhatWasAccepted(e: Entry, rs: seq<Request>, held: set<int>)
    ensures multiset(Sent(QueueAfter([], rs), held))[e] ==
            if e.chunk in held && e.known then Accepted(e, rs) else 0
  {
    QueueCount(e, [], rs);
    SentCount(e, QueueAfter([], rs), held);
  }

  // ---- In which order ----

  /** `js` is rising and lists exactly the positions up to `n` at which `wanted` holds. */
  ghost predicate Lists(js: seq<nat>, n: nat, wanted: set<nat>) {
    && (forall k, l | 0 <= k < l < |js| :: js[k] < js[l])
    && (forall j: nat | j in js :: j < n && j in wanted)
    && (forall j: nat | j < n && j in wanted :: j in js)
  }

  function SendableAt(q: seq<Entry>, held: set<int>): set<nat> {
    set j: nat | j < |q| && q[j].chunk in held && q[j].known
  }

  function HeldAt(ids: seq<int>, held: set<int>): set<nat> {
    set j: nat | j < |ids| && ids[j] in held
  }

  /** The entries of a queue at these positions. */
  predicate EntriesAt(q: seq<Entry>, js: seq<nat>, es: seq<Entry>) {
    |js| == |es| && forall k | 0 <= k < |js| :: js[k] < |q| && es[k] == q[js[k]]
  }

  lemma EntryInTail(q: seq<Entry>, js: seq<nat>, es: seq<Entry>, first: bool, i: nat)
    requires q != [] && EntriesAt(q[1..], js, es) && i < |js|
    ensures var j := Shifted(js, Head(first))[|Head(first)| + i]; j < |q| && es[i] == q[j]
  {
    assert Shifted(js, Head(first))[|Head(first)| + i] == js[i] + 1;
    assert es[i] == q[1..][js[i]];
  }

  lemma EntriesShifted(q: seq<Entry>, js: seq<nat>, es: seq<Entry>, first: bool)
    requires q != [] && EntriesAt(q[1..], js, es)
    ensures EntriesAt(q, Shifted(js, Head(first)), (if first then [q[0]] else []) + es)
  {
    var r, h := Shifted(js, Head(first)), |Head(first)|;
    var head: seq<Entry> := if first then [q[0]] else [];
    forall k | 0 <= k < |r| ensures r[k] < |q| && (head + es)[k] == q[r[k]] {
      if k >= h {
        EntryInTail(q, js, es, first, k - h);
      } else {
        assert r[0] == 0;
      }
    }
  }

  /** What a drain sends are the sendable entries, in the order in which they stand in the queue. */
  lemma {:induction false} SentInOrder(q: seq<Entry>, held: set<int>) returns (js: seq<nat>)
    ensures EntriesAt(q, js, Sent(q, held)) && Lists(js, |q|, SendableAt(q, held))
  {
    if q == [] {
      js := [];
    } else {
      var rest := SentInOrder(q[1..], held);
      var first := Sendable(q[0], held);
      js := Shifted(rest, Head(first));
      EntriesShifted(q, rest, Sent(q[1..], held), first);
      ShiftedLists(rest, |q| - 1, SendableAt(q[1..], held), first, SendableAt(q, held));
    }
  }

  /** Positions in a tail, as positions in the whole, behind `head`. */
  function Shifted(js: seq<nat>, head: seq<nat>): (r: seq<nat>)
    ensures |r| == |head| + |js| && forall k | 0 <= k < |js| :: r[|head| + k] == js[k] + 1
    ensures forall k | 0 <= k < |head| :: r[k] == head[k]
  {
    head + seq(|js|, k requires 0 <= k < |js| => js[k] + 1)
  }

  /** Either the head or, one further, a position of the tail. */
  lemma ShiftedHas(js: seq<nat>, first: bool, j: nat)
    ensures j in Shifted(js, Head(first)) <==> if j == 0 then first else (j - 1) as nat in js
  {
    var r, h := Shifted(js, Head(first)), |Head(first)|;
    if j in r {
      var k :| 0 <= k < |r| && r[k] == j;
      assert k >= h ==> js[k - h] in js;
    }
    if j > 0 && (j - 1) as nat in js {
      var k :| 0 <= k < |js| && js[k] == j - 1;
      assert r[h + k] == j;
    }
    if j == 0 && first {
      assert r[0] == 0;
    }
  }

  function Head(first: bool): seq<nat> {
    if first then [0] else []
  }

  lemma ShiftedLists(js: seq<nat>, n: nat, wanted: set<nat>, first: bool, all: set<nat>)
    requires Lists(js, n, wanted)
    requires forall j: nat | j < n + 1 :: j in all <==> if j == 0 then first else (j - 1) as nat in wanted
    ensures Lists(Shifted(js, Head(first)), n + 1, all)
  {
    var r := Shifted(js, Head(first));
    forall j: nat ensures j in r <==> if j == 0 then first else (j - 1) as nat in js {
      ShiftedHas(js, first, j);
    }
  }

  /** The pairs of a request at these positions of its ids. */
  predicate PairsAt(from: nat, known: bool, ids: seq<int>, js: seq<nat>, es: seq<Entry>) {
    |js| == |es| && forall k | 0 <= k < |js| :: js[k] < |ids| && es[k] == Entry(from, known, ids[js[k]])
  }

  lemma PairInTail(from: nat, known: bool, ids: seq<int>, js: seq<nat>, es: seq<Entry>, first: bool, i: nat)
    requires ids != [] && PairsAt(from, known, ids[1..], js, es) && i < |js|
    ensures var j := Shifted(js, Head(first))[|Head(first)| + i];
            j < |ids| && es[i] == Entry(from, known, ids[j])
  {
    assert Shifted(js, Head(first))[|Head(first)| + i] == js[i] + 1;
    assert es[i] == Entry(from, known, ids[1..][js[i]]);
  }

  lemma PairsShifted(from: nat, known: bool, ids: seq<int>, js: seq<nat>, es: seq<Entry>, first: bool)
    requires ids != [] && PairsAt(from, known, ids[1..], js, es)
    ensures var head := if first then [Entry(from, known, ids[0])] else [];
            PairsAt(from, known, ids, Shifted(js, Head(first)), head + es)
  {
    var r, h := Shifted(js, Head(first)), |Head(first)|;
    var head: seq<Entry> := if first then [Entry(from, known, ids[0])] else [];
    forall k | 0 <= k < |r| ensures r[k] < |ids| && (head + es)[k] == Entry(from, known, ids[r[k]]) {
      if k >= h {
        PairInTail(from, known, ids, js, es, first, k - h);
      } else {
        assert r[0] == 0;
      }
    }
  }

  /** A request appends its ids that are held, in its order. */
  lemma {:induction false} AddedInOrder(from: nat, ids: seq<int>, held: set<int>, peers: set<nat>)
      returns (js: seq<nat>)
    ensures PairsAt(from, from in peers, ids, js, Added(from, ids, held, peers))
    ensures Lists(js, |ids|, HeldAt(ids, held))
  {
    if ids == [] {
      js := [];
    } else {
      var rest := AddedInOrder(from, ids[1..], held, peers);
      var first := ids[0] in held;
      js := Shifted(rest, Head(first));
      PairsShifted(from, from in peers, ids, rest, Added(from, ids[1..], held, peers), first);
      ShiftedLists(rest, |ids| - 1, HeldAt(ids[1..], held), first, HeldAt(ids, held));
    }
  }

  /** An id of a request. */
  datatype Place = Place(request: nat, index: nat)

  predicate Before(a: Place, b: Place) {
    a.request < b.request || (a.request == b.request && a.index < b.index)
  }

  /** The id at this place was held when its request came. */
  predicate AcceptedAt(rs: seq<Request>, p: Place) {
    p.request < |rs| && p.index < |rs[p.request].ids| && rs[p.request].ids[p.index] in rs[p.request].held
  }

  /** The pair that the request makes of it. */
  function PairAt(rs: seq<Request>, p: Place): Entry
    requires AcceptedAt(rs, p)
  {
    var r := rs[p.request];
    Entry(r.from, r.from in r.peers, r.ids[p.index])
  }

  /** `ps` lists places in the order of the requests and their ids, and `es` are the pairs made there. */
  predicate InOrder(rs: seq<Request>, ps: seq<Place>, es: seq<Entry>) {
    && |ps| == |es|
    && (forall k, l | 0 <= k < l < |ps| :: Before(ps[k], ps[l]))
    && (forall k | 0 <= k < |ps| :: AcceptedAt(rs, ps[k]) && es[k] == PairAt(rs, ps[k]))
  }

  lemma {:induction false} QueueGrows(q: seq<Entry>, rs: seq<Request>, r: Request)
    ensures QueueAfter(q, rs + [r]) == QueueAfter(q, rs) + Added(r.from, r.ids, r.held, r.peers)
    decreases |rs|
  {
    if rs == [] {
      assert rs + [r] == [r] && [r][1..] == [];
    } else {
      var s := rs[0];
      QueueGrows(q + Added(s.from, s.ids, s.held, s.peers), rs[1..], r);
      assert (rs + [r])[0] == s && (rs + [r])[1..] == rs[1..] + [r];
    }
  }

  /** Requests make a queue of what is accepted of them, in order, and of nothing else. */
  lemma {:induction false} QueueInOrder(rs: seq<Request>) returns (ps: seq<Place>)
    ensures InOrder(rs, ps, QueueAfter([], rs))
    ensures forall p :: p in ps <==> AcceptedAt(rs, p)
    decreases |rs|
  {
    if rs == [] {
      ps := [];
    } else {
      var n, front, r := |rs| - 1, rs[..|rs| - 1], rs[|rs| - 1];
      var qs := QueueInOrder(front);
      var js := AddedInOrder(r.from, r.ids, r.held, r.peers);
      assert rs == front + [r];
      QueueGrows([], front, r);
      ps := qs + InLast(n, js);
      LastInOrder(rs, qs, js);
      LastIsAll(rs, qs, js);
    }
  }

  function InLast(n: nat, js: seq<nat>): (ps: seq<Place>)
    ensures |ps| == |js| && forall k | 0 <= k < |js| :: ps[k] == Place(n, js[k])
  {
    seq(|js|, k requires 0 <= k < |js| => Place(n, js[k]))
  }

  lemma LastInOrder(rs: seq<Request>, qs: seq<Place>, js: seq<nat>)
    requires rs != [] && InOrder(rs[..|rs| - 1], qs, QueueAfter([], rs[..|rs| - 1]))
    requires var r := rs[|rs| - 1]; var added := Added(r.from, r.ids, r.held, r.peers);
             Lists(js, |r.ids|, HeldAt(r.ids, r.held)) && PairsAt(r.from, r.from in r.peers, r.ids, js, added)
    ensures var r := rs[|rs| - 1];
            var added := Added(r.from, r.ids, r.held, r.peers);
            InOrder(rs, qs + InLast(|rs| - 1, js), QueueAfter([], rs[..|rs| - 1]) + added)
  {
    var front, r := rs[..|rs| - 1], rs[|rs| - 1];
    var ps := qs + InLast(|rs| - 1, js);
    forall k | 0 <= k < |ps| ensures AcceptedAt(rs, ps[k]) {
      if k < |qs| {
        assert AcceptedAt(front, qs[k]);
      } else {
        assert js[k - |qs|] in js;
      }
    }
  }

  lemma LastIsAll(rs: seq<Request>, qs: seq<Place>, js: seq<nat>)
    requires rs != [] && forall p :: p in qs <==> AcceptedAt(rs[..|rs| - 1], p)
    requires var r := rs[|rs| - 1]; Lists(js, |r.ids|, HeldAt(r.ids, r.held))
    ensures forall p :: p in qs + InLast(|rs| - 1, js) <==> AcceptedAt(rs, p)
  {
    var n, front := |rs| - 1, rs[..|rs| - 1];
    var last := InLast(n, js);
    forall p ensures p in qs + last <==> AcceptedAt(rs, p) {
      assert p in qs <==> AcceptedAt(front, p);
      if p in last {
        var k :| 0 <= k < |last| && last[k] == p;
        assert js[k] in js;
      }
      if AcceptedAt(rs, p) && p.request == n {
        assert p.index in js;
        var k :| 0 <= k < |js| && js[k] == p.index;
        assert last[k] == p;
      }
    }
  }

  function Picked(all: seq<Place>, js: seq<nat>): (ps: seq<Place>)
    requires forall k | 0 <= k < |js| :: js[k] < |all|
    ensures |ps| == |js| && forall k | 0 <= k < |js| :: ps[k] == all[js[k]]
  {
    seq(|js|, k requires 0 <= k < |js| => all[js[k]])
  }

  lemma PickedInOrder(rs: seq<Request>, all: seq<Place>, q: seq<Entry>, js: seq<nat>, es: seq<Entry>)
    requires InOrder(rs, all, q) && (forall k, l | 0 <= k < l < |js| :: js[k] < js[l])
    requires EntriesAt(q, js, es)
    ensures InOrder(rs, Picked(all, js), es)
  {
  }

  lemma PickedHas(all: seq<Place>, js: seq<nat>, p: Place)
    requires forall k | 0 <= k < |js| :: js[k] < |all|
    ensures p in Picked(all, js) <==> exists j: nat :: j in js && all[j] == p
  {
    if j: nat :| j in js && all[j] == p {
      var k :| 0 <= k < |js| && js[k] == j;
      assert Picked(all, js)[k] == p;
    }
    if p in Picked(all, js) {
      var k :| 0 <= k < |js| && Picked(all, js)[k] == p;
      assert js[k] in js;
    }
  }

  /**
   Between two drains, whatever changes in the chunk buffer meanwhile: the pairs sent are those
   of the ids that were accepted while held, that are still held, and whose peer was known, in
   the order of the requests and of the ids in them.
  */
  lemma DrainSendsInOrder(rs: seq<Request>, held: set<int>) returns (ps: seq<Place>)
    ensures InOrder(rs, ps, Sent(QueueAfter([], rs), held))
    ensures forall p :: p in ps <==> AcceptedAt(rs, p) && Sendable(PairAt(rs, p), held)
  {
    var q := QueueAfter([], rs);
    var all := QueueInOrder(rs);
    var js := SentInOrder(q, held);
    ps := Picked(all, js);
    PickedInOrder(rs, all, q, js, Sent(q, held));
    forall p ensures p in ps <==> AcceptedAt(rs, p) && Sendable(PairAt(rs, p), held) {
      PickedHas(all, js, p);
      SentPlace(rs, all, q, held, js, p);
    }
  }

  lemma SentPlace(rs: seq<Request>, all: seq<Place>, q: seq<Entry>, held: set<int>, js: seq<nat>, p: Place)
    requires InOrder(rs, all, q) && Lists(js, |q|, SendableAt(q, held))
    requires p in all <==> AcceptedAt(rs, p)
    ensures (exists j: nat :: j in js && j < |all| && all[j] == p) <==>
            AcceptedAt(rs, p) && Sendable(PairAt(rs, p), held)
  {
    if AcceptedAt(rs, p) && Sendable(PairAt(rs, p), held) {
      var j: nat :| j < |all| && all[j] == p;
      assert j in SendableAt(q, held);
    }
  }

  lemma Regroup(a: seq<Entry>, b: seq<Entry>, c: seq<Entry>)
    ensures a + (b + c) == (a + b) + c
  {
  }

  predicate Sendable(e: Entry, held: set<int>) {
    e.chunk in held && e.known
  }

  /** One turn of the drain loop: `sent` grows by the entry or by nothing. */
  lemma SentNext(q: seq<Entry>, i: nat, held: set<int>, sent: seq<Entry>, all: seq<Entry>)
    requires i < |q| && sent + Sent(q[i..], held) == all
    ensures (if Sendable(q[i], held) then sent + [q[i]] else sent) + Sent(q[i + 1..], held) == all
  {
    assert q[i..][1..] == q[i + 1..];
    if Sendable(q[i], held) {
      Regroup(sent, [q[i]], Sent(q[i + 1..], held));
    } else {
      assert [] + Sent(q[i + 1..], held) == Sent(q[i + 1..], held);
    }
  }

  lemma SentEnds(q: seq<Entry>, held: set<int>, sent: seq<Entry>)
    ensures sent + Sent(q[|q|..], held) == sent
  {
  }

  /** The send queue, with an append that makes room for one more entry and counts it once. */
  class PeerChunks {
    var entries: seq<Entry>

    constructor ()
      ensures entries == []
    {
      entries := [];
    }

    /** `network_add_to_peerChunk`: 0, or -1 if the chunk is not held. */
    method Add(remote: nat, id: int, held: set<int>, peers: set<nat>) returns (res: int)
      modifies this
      ensures res == (if id in held then 0 else -1)
      ensures entries == old(entries) + if id in held then [Entry(remote, remote in peers, id)] else []
    {
      if id in held {
        entries := entries + [Entry(remote, remote in peers, id)];
        res := 0;
      } else {
        res := -1;
      }
    }

    /** The loop of the accept and of the deliver case. */
    method AddAll(remote: nat, ids: seq<int>, held: set<int>, peers: set<nat>)
      modifies this
      ensures entries == old(entries) + Added(remote, ids, held, peers)
    {
      var i := 0;
      while i < |ids|
        invariant 0 <= i <= |ids|
        invariant entries + Added(remote, ids[i..], held, peers) == old(entries) + Added(remote, ids, held, peers)
      {
        ghost var before := entries;
        var res := Add(remote, ids[i], held, peers);
        assert ids[i..][1..] == ids[i + 1..];
        Regroup(before, if ids[i] in held then [Entry(remote, remote in peers, ids[i])] else [],
                Added(remote, ids[i + 1..], held, peers));
        i := i + 1;
      }
    }

    /** `network_send_chunks_to_peers`. */
    method Drain(held: set<int>) returns (sent: seq<Entry>)
      modifies this
      ensures sent == Sent(old(entries), held) && entries == []
    {
      sent := [];
      var i := 0;
      ghost var q, all := entries, Sent(entries, held);
      assert q[0..] == q;
      while i < |entries|
        invariant 0 <= i <= |q| && entries == q
        invariant sent + Sent(q[i..], held) == all
      {
        var e := entries[i];
        SentNext(q, i, held, sent, all);
        if e.chunk in held && e.known {
          sent := sent + [e];
        }
        i := i + 1;
      }
      SentEnds(q, held, sent);
      entries := [];
    }
  }

  // ---- The append as written ----

  /** The allocated entries, `None` where never written, and `peerChunksSize`. */
  datatype Raw = Raw(memory: seq<Option<Entry>>, size: nat)

  const EMPTY := Raw([], 0)

  /** `realloc` always asks for one entry; the entry goes to index `size`, which then grows by two. */
  function AddAsWritten(q: Raw, e: Entry): Option<Raw> {
    var room := if q.memory == [] then [None] else q.memory[..1];
    if q.size < |room| then Some(Raw(room[q.size := Some(e)], q.size + 2)) else None
  }

  /** All of `es` are added within the allocated memory. */
  function AddsAsWritten(q: Raw, es: seq<Entry>): Option<Raw>
    decreases |es|
  {
    if es == [] then Some(q)
    else
      match AddAsWritten(q, es[0])
      case None => None
      case Some(r) => AddsAsWritten(r, es[1..])
  }

  /** The drain reads entries that were allocated and written only. */
  predicate DrainInBounds(q: Raw) {
    q.size <= |q.memory| && forall i | 0 <= i < q.size :: q.memory[i].Some?
  }

  /** As written, a second append leaves the allocated memory, and a drain after any append does. */
  lemma AsWrittenIff(es: seq<Entry>)
    ensures AddsAsWritten(EMPTY, es).Some? <==> |es| <= 1
    ensures |es| == 1 ==> AddsAsWritten(EMPTY, es) == Some(Raw([Some(es[0])], 2))
    ensures AddsAsWritten(EMPTY, es).Some? && DrainInBounds(AddsAsWritten(EMPTY, es).value) <==> es == []
  {
    if |es| > 0 {
      var r := AddAsWritten(EMPTY, es[0]).value;
      assert r == Raw([Some(es[0])], 2);
      if |es| > 1 {
        assert AddAsWritten(r, es[1]).None?;
        assert es[1..][0] == es[1];
      } else {
        assert es[1..] == [];
      }
    }
  }
}
