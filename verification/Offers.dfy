/** How a peer chooses, from the ids of an offer, those it accepts. */
module Offers {
  import opened Chunks

  predicate Distinct(ids: seq<int>) {
    forall i, j | 0 <= i < j < |ids| :: ids[i] != ids[j]
  }

  predicate NonNegative(ids: seq<int>) {
    forall i | 0 <= i < |ids| :: ids[i] >= 0
  }

  /** `firstChunk` after the offer, and the accepted ids. */
  datatype Selection = Selection(first: int, accepted: seq<int>)

  /** What the loop over the offered ids does from a given `firstChunk` on. */
  function Scan(ids: seq<int>, held: set<int>, first: int, limit: int): Selection
    decreases |ids|
  {
    if ids == [] || limit <= 0 then Selection(first, [])
    else if ids[0] in held then Scan(ids[1..], held, first, limit)
    else
      var f := if first == -1 then ids[0] else first;
      if ids[0] >= f then
        var r := Scan(ids[1..], held, f, limit - 1);
        Selection(r.first, [ids[0]] + r.accepted)
      else Scan(ids[1..], held, f, limit)
  }

  // ---- What is to be accepted ----

  /** The ids that are not held and not below `bound`, in order. */
  function Wanted(ids: seq<int>, held: set<int>, bound: int): (r: seq<int>)
    ensures forall x :: x in r <==> x in ids && x !in held && x >= bound
  {
    if ids == [] then []
    else if ids[0] !in held && ids[0] >= bound then [ids[0]] + Wanted(ids[1..], held, bound)
    else Wanted(ids[1..], held, bound)
  }

  /** The first id that is not held. */
  function FirstMissing(ids: seq<int>, held: set<int>): int {
    if ids == [] then -1 else if ids[0] !in held then ids[0] else FirstMissing(ids[1..], held)
  }

  function Take(ids: seq<int>, limit: int): seq<int> {
    if limit <= 0 then [] else if |ids| <= limit then ids else ids[..limit]
  }

  /** An unset `firstChunk` becomes the first id not held, unless nothing may be accepted. */
  function FirstAfter(ids: seq<int>, held: set<int>, first: int, limit: int): int {
    if first == -1 && limit > 0 then FirstMissing(ids, held) else first
  }

  lemma TakeOneMore(id: int, w: seq<int>, limit: int)
    requires limit > 0
    ensures Take([id] + w, limit) == [id] + Take(w, limit - 1)
  {
    if |w| + 1 > limit {
      assert ([id] + w)[..limit] == [id] + w[..limit - 1];
    }
  }

  /** Once `firstChunk` is set the loop leaves it and accepts the first `limit` wanted ids. */
  lemma {:induction false} ScanWhenSet(ids: seq<int>, held: set<int>, f: int, limit: int)
    requires f != -1
    ensures Scan(ids, held, f, limit) == Selection(f, Take(Wanted(ids, held, f), limit))
    decreases |ids|
  {
    if ids != [] && limit > 0 {
      if ids[0] !in held && ids[0] >= f {
        ScanWhenSet(ids[1..], held, f, limit - 1);
        TakeOneMore(ids[0], Wanted(ids[1..], held, f), limit);
      } else {
        ScanWhenSet(ids[1..], held, f, limit);
      }
    }
  }

  /** The loop accepts the first `limit` wanted ids. */
  lemma {:induction false} ScanMeetsSpec(ids: seq<int>, held: set<int>, first: int, limit: int)
    requires NonNegative(ids)
    ensures var r, f := Scan(ids, held, first, limit), FirstAfter(ids, held, first, limit);
            r.first == f && r.accepted == Take(Wanted(ids, held, f), limit)
    decreases |ids|
  {
    if first != -1 {
      ScanWhenSet(ids, held, first, limit);
    } else if ids != [] && limit > 0 {
      if ids[0] in held {
        ScanMeetsSpec(ids[1..], held, first, limit);
      } else {
        ScanWhenSet(ids[1..], held, ids[0], limit - 1);
        TakeOneMore(ids[0], Wanted(ids[1..], held, ids[0]), limit);
      }
    }
  }

  /** What follows for a caller: the accepted ids are distinct, offered, new, and not too old. */
  lemma ScanSafe(ids: seq<int>, held: set<int>, first: int, limit: int)
    requires NonNegative(ids) && Distinct(ids) && first >= -1
    ensures var r := Scan(ids, held, first, limit);
            && |r.accepted| <= (if limit <= 0 then 0 else limit)
            && Distinct(r.accepted)
            && (forall id | id in r.accepted :: id in ids && id !in held && id >= r.first >= 0)
            && (first != -1 ==> r.first == first) && r.first >= -1
  {
    ScanMeetsSpec(ids, held, first, limit);
    var r, f := Scan(ids, held, first, limit), FirstAfter(ids, held, first, limit);
    WantedDistinct(ids, held, f);
    FirstMissingIs(ids, held);
    forall id | id in r.accepted ensures id in Wanted(ids, held, f) {
    }
  }

  lemma {:induction false} WantedDistinct(ids: seq<int>, held: set<int>, bound: int)
    requires Distinct(ids)
    ensures Distinct(Wanted(ids, held, bound))
  {
    if ids != [] {
      WantedDistinct(ids[1..], held, bound);
      assert ids[0] !in ids[1..];
    }
  }

  lemma {:induction false} FirstMissingIs(ids: seq<int>, held: set<int>)
    ensures FirstMissing(ids, held) == -1 || FirstMissing(ids, held) in ids
    ensures (exists id :: id in ids && id !in held) ==>
              FirstMissing(ids, held) in ids && FirstMissing(ids, held) !in held
  {
    if ids != [] {
      FirstMissingIs(ids[1..], held);
      if id :| id in ids && id !in held {
        assert id == ids[0] || id in ids[1..];
      }
    }
  }

  /** `chunkID_set_add_chunk`. */
  function Add(ids: seq<int>, id: int): seq<int> {
    if id in ids then ids else ids + [id]
  }

  /** The loop of the offer case; it sets the global `firstChunk` and counts what it accepts. */
  method SelectChunks(received: seq<int>, held: set<int>, firstChunk: int, maxDeliver: int)
    returns (first: int, forMe: seq<int>)
    requires Distinct(received)
    ensures Selection(first, forMe) == Scan(received, held, firstChunk, maxDeliver)
  {
    var i, count := 0, 0;
    first, forMe := firstChunk, [];
    while i < |received| && count < maxDeliver
      invariant 0 <= i <= |received| && 0 <= count
      invariant forall id | id in forMe :: id in received[..i]
      invariant var r := Scan(received[i..], held, first, maxDeliver - count);
                Selection(r.first, forMe + r.accepted) == Scan(received, held, firstChunk, maxDeliver)
    {
      var id := received[i];
      assert received[i..][1..] == received[i + 1..];
      assert id !in received[..i];
      ghost var done := forMe;
      ghost var rest := Scan(received[i..], held, first, maxDeliver - count);
      if id !in held {
        if first == -1 {
          first := id;
        }
        if id >= first {
          forMe := Add(forMe, id);
          count := count + 1;
        }
      }
      ghost var next := Scan(received[i + 1..], held, first, maxDeliver - count);
      assert done + rest.accepted == forMe + next.accepted;
      i := i + 1;
    }
    assert forMe + [] == forMe;
  }

  /** The ids of the chunks held, as an offer lists them. */
  method ChunkBufferToBuffermap(chunks: seq<Chunk>) returns (ids: seq<int>)
    ensures Distinct(ids)
    ensures forall id :: id in ids <==> exists c :: c in chunks && c.id == id
  {
    ids := [];
    var i := 0;
    while i < |chunks|
      invariant 0 <= i <= |chunks| && Distinct(ids)
      invariant forall id :: id in ids <==> exists c :: c in chunks[..i] && c.id == id
    {
      ghost var before := ids;
      ids := Add(ids, chunks[i].id);
      assert chunks[..i + 1] == chunks[..i] + [chunks[i]];
      assert forall id :: id in ids <==> id in before || id == chunks[i].id;
      i := i + 1;
    }
    assert chunks[..i] == chunks;
  }
}
