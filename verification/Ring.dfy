/**
 The circular byte buffer between the receive thread, which stores the payload of
 each played chunk, and the player, which reads bytes out.
*/
module Ring {
  import opened Chunks

  /** `BUFFER_SIZE`, 1024 times 1024, which is also the initial `buffer_max_size`. */
  const SIZE := 0x10_0000

  /** The ring as a value: pointers are offsets from the start of the buffer. */
  datatype Ring = Ring(buf: seq<byte>, put: int, get: int, count: int)

  /** The pointers and the count lie where the code can use them; `put` may rest at SIZE. */
  predicate InRange(r: Ring) {
    && |r.buf| == SIZE
    && 0 <= r.count <= SIZE
    && 0 <= r.get < SIZE
    && 0 <= r.put <= SIZE
  }

  /** How far `put` stands past the end of the unread bytes, around the ring. */
  function Skew(r: Ring): int {
    (r.put - r.get - r.count) % SIZE
  }

  /** `put` is the end of the unread bytes. */
  predicate Valid(r: Ring) {
    InRange(r) && Skew(r) == 0
  }

  /** Where the byte `i` places after offset 0 lies, for less than one turn of the ring. */
  function Wrap(i: int): int {
    if i < SIZE then i else i - SIZE
  }

  /** The unread bytes, oldest first. */
  function Queued(r: Ring): (q: seq<byte>)
    requires |r.buf| == SIZE && 0 <= r.get < SIZE && 0 <= r.count <= SIZE
    ensures |q| == r.count
    ensures forall i | 0 <= i < r.count :: q[i] == r.buf[Wrap(r.get + i)]
  {
    seq(r.count, i requires 0 <= i < r.count => r.buf[Wrap(r.get + i)])
  }

  /** `memcpy` of `piece` to offset `at`. */
  function Blit(buf: seq<byte>, at: int, piece: seq<byte>): (r: seq<byte>)
    requires 0 <= at && at + |piece| <= |buf|
    ensures |r| == |buf|
    ensures forall i | 0 <= i < |buf| :: r[i] == if at <= i < at + |piece| then piece[i - at] else buf[i]
  {
    buf[..at] + piece + buf[at + |piece|..]
  }

  /** The payload `p` goes in as one piece. */
  predicate Fits(r: Ring, p: seq<byte>) {
    SIZE - r.put >= |p|
  }

  /**
   The writer's critical section once there is room. The code advances `put` by the
   size of the whole chunk when the payload goes in as one piece; `advance` is that amount.
  */
  function Store(r: Ring, p: seq<byte>, advance: int): Ring
    requires |r.buf| == SIZE && 0 <= r.put <= SIZE && |p| <= SIZE
  {
    if Fits(r, p) then
      Ring(Blit(r.buf, r.put, p), r.put + advance, r.get, r.count + |p|)
    else
      var k := SIZE - r.put;
      Ring(Blit(Blit(r.buf, r.put, p[..k]), 0, p[k..]), |p| - k, r.get, r.count + |p|)
  }

  /** Every offset holds its new payload byte, or what it held before. */
  lemma StoreBytes(r: Ring, p: seq<byte>, advance: int, j: int)
    requires |r.buf| == SIZE && 0 <= r.put <= SIZE && |p| <= SIZE && 0 <= j < SIZE
    ensures var b := Store(r, p, advance).buf;
            && |b| == SIZE
            && b[j] == if r.put <= j < r.put + |p| then p[j - r.put]
                       else if j + SIZE < r.put + |p| then p[j + SIZE - r.put]
                       else r.buf[j]
  {
  }

  /** The offset one past the unread bytes, where the next payload should go. */
  function End(r: Ring): int {
    Wrap(r.get + r.count)
  }

  lemma SkewFromEnd(r: Ring)
    requires InRange(r)
    ensures Skew(r) == 0 <==> r.put == End(r) || r.put == End(r) + SIZE
  {
    assert r.put - r.get - r.count == r.put - End(r) - if r.get + r.count < SIZE then 0 else SIZE;
  }

  lemma StoreAlignedAt(r: Ring, p: seq<byte>, advance: int, i: int)
    requires InRange(r) && (r.put == End(r) || r.put == End(r) + SIZE)
    requires r.count + |p| <= SIZE && 0 <= i < r.count + |p|
    ensures Store(r, p, advance).buf[Wrap(r.get + i)] == if i < r.count then r.buf[Wrap(r.get + i)] else p[i - r.count]
  {
    StoreBytes(r, p, advance, Wrap(r.get + i));
  }

  /** Byte `i` of the unread ones is what it was, or the next of `p`. */
  predicate Follows(r: Ring, p: seq<byte>, s: Ring, i: int)
    requires InRange(r) && |s.buf| == SIZE && r.count + |p| <= SIZE && 0 <= i < r.count + |p|
  {
    s.buf[Wrap(r.get + i)] == if i < r.count then r.buf[Wrap(r.get + i)] else p[i - r.count]
  }

  lemma QueuedFollows(r: Ring, p: seq<byte>, s: Ring)
    requires InRange(r) && |s.buf| == SIZE && r.count + |p| <= SIZE
    requires s.get == r.get && s.count == r.count + |p|
    requires forall i | 0 <= i < r.count + |p| :: Follows(r, p, s, i)
    ensures Queued(s) == Queued(r) + p
  {
    forall i | 0 <= i < s.count ensures Queued(s)[i] == (Queued(r) + p)[i] {
      assert Follows(r, p, s, i);
    }
  }

  lemma StoreAtEnd(r: Ring, p: seq<byte>, advance: int)
    requires InRange(r) && (r.put == End(r) || r.put == End(r) + SIZE) && r.count + |p| <= SIZE
    ensures Queued(Store(r, p, advance)) == Queued(r) + p
  {
    var s := Store(r, p, advance);
    forall i | 0 <= i < r.count + |p| ensures Follows(r, p, s, i) {
      StoreAlignedAt(r, p, advance, i);
    }
    QueuedFollows(r, p, s);
  }

  lemma StoreAligned(r: Ring, p: seq<byte>, advance: int)
    requires Valid(r) && r.count + |p| <= SIZE
    ensures Queued(Store(r, p, advance)) == Queued(r) + p
  {
    SkewFromEnd(r);
    StoreAtEnd(r, p, advance);
  }

  /** A store in one piece shifts `put` by what it advances beyond the payload; a wrapped one does not. */
  lemma StoreSkew(r: Ring, p: seq<byte>, advance: int)
    requires InRange(r) && |p| <= SIZE
    ensures Skew(Store(r, p, advance)) == (Skew(r) + if Fits(r, p) then advance - |p| else 0) % SIZE
  {
    var s, d := Store(r, p, advance), r.put - r.get - r.count;
    var e := s.put - s.get - s.count;
    if Fits(r, p) {
      assert e == d + (advance - |p|);
      AddShift(d, advance - |p|);
    } else {
      assert e == d - SIZE;
      AddShift(d, 0);
    }
  }

  lemma AddShift(x: int, y: int)
    ensures (x % SIZE + y) % SIZE == (x + y) % SIZE
    ensures (x - SIZE) % SIZE == x % SIZE
  {
  }

  /** A store leaves `get`, counts the payload, and moves `put` by the advance or around the end. */
  lemma StorePointers(r: Ring, p: seq<byte>, advance: int)
    requires InRange(r) && |p| <= SIZE
    ensures var s := Store(r, p, advance);
            && s.get == r.get && s.count == r.count + |p|
            && s.put == r.put + if r.put + |p| > SIZE then |p| - SIZE else advance
  {
  }

  /** How many bytes behind `put`, around the ring, unread byte `i` lies. */
  function BehindPut(r: Ring, i: int): int {
    (i - r.count - Skew(r)) % SIZE
  }

  lemma BehindPutIs(r: Ring, i: int)
    requires InRange(r) && 0 <= i < SIZE
    ensures var d := Wrap(r.get + i) - r.put;
            BehindPut(r, i) == if d == -SIZE then 0 else if d < 0 then d + SIZE else d
  {
    var k := r.put - r.get - r.count;
    var turns := (k - Skew(r)) / SIZE;
    assert k == Skew(r) + SIZE * turns;
    assert i - r.count - Skew(r) == (r.get + i - r.put) + SIZE * turns;
    var d := Wrap(r.get + i) - r.put;
    var e := if d == -SIZE then 0 else if d < 0 then d + SIZE else d;
    assert e == r.get + i - r.put || e == r.get + i - r.put - SIZE || e == r.get + i - r.put + SIZE;
  }

  /** What is unread after a store to a ring whose `put` is anywhere: the payload where it went, else what lay there. */
  lemma StoreUnread(r: Ring, p: seq<byte>, advance: int, i: int)
    requires InRange(r) && r.count + |p| <= SIZE && 0 <= i < r.count + |p|
    ensures var d := BehindPut(r, i);
            Queued(Store(r, p, advance))[i] == if d < |p| then p[d] else r.buf[Wrap(r.get + i)]
  {
    BehindPutIs(r, i);
    StoreBytes(r, p, advance, Wrap(r.get + i));
  }

  lemma StoreIntended(r: Ring, p: seq<byte>)
    requires Valid(r) && r.count + |p| <= SIZE
    ensures var s := Store(r, p, |p|); Valid(s) && Queued(s) == Queued(r) + p
  {
    StoreAligned(r, p, |p|);
    StoreSkew(r, p, |p|);
  }

  /** Whatever `n` bytes are stored, the unread bytes are then those before followed by them. */
  ghost predicate Appends(r: Ring, n: nat, advance: int)
    requires InRange(r) && r.count + n <= SIZE
  {
    forall p: seq<byte> | |p| == n :: Queued(Store(r, p, advance)) == Queued(r) + p
  }

  /** A payload that goes wrong in a skewed ring: its first byte differs from all that could lie at the end. */
  function Witness(r: Ring, n: nat): (p: seq<byte>)
    requires InRange(r)
    ensures |p| == n
  {
    var b: byte := r.buf[End(r)];
    var other: byte := (b + 1) % 256;
    seq(n, i => if i == 0 then other else b)
  }

  lemma StoreOffEnd(r: Ring, n: nat, advance: int)
    requires InRange(r) && r.put != End(r) && r.put != End(r) + SIZE && 0 < n && r.count + n <= SIZE
    ensures Store(r, Witness(r, n), advance).buf[End(r)] == r.buf[End(r)] != Witness(r, n)[0]
  {
    StoreBytes(r, Witness(r, n), advance, End(r));
  }

  lemma StoreSkewed(r: Ring, n: nat, advance: int)
    requires InRange(r) && Skew(r) != 0 && 0 < n && r.count + n <= SIZE
    ensures Queued(Store(r, Witness(r, n), advance)) != Queued(r) + Witness(r, n)
  {
    SkewFromEnd(r);
    StoreOffEnd(r, n, advance);
    var s := Store(r, Witness(r, n), advance);
    assert Queued(s)[r.count] == s.buf[End(r)];
    assert (Queued(r) + Witness(r, n))[r.count] == Witness(r, n)[0];
  }

  lemma StoreIff(r: Ring, n: nat, advance: int)
    requires InRange(r) && r.count + n <= SIZE
    ensures Appends(r, n, advance) <==> n == 0 || Skew(r) == 0
  {
    if n > 0 && Skew(r) != 0 {
      StoreSkewed(r, n, advance);
    } else {
      forall p: seq<byte> | |p| == n ensures Queued(Store(r, p, advance)) == Queued(r) + p {
        if n > 0 {
          StoreAligned(r, p, advance);
        }
      }
    }
  }

  /** How many bytes one pass of the reader takes. */
  function PassLength(r: Ring, nlen: int): int {
    var n := if nlen > r.count then r.count else nlen;
    if r.get + n > SIZE then SIZE - r.get else n
  }

  /** The reader's critical section, after any wait. */
  function Pass(r: Ring, nlen: int): (result: (seq<byte>, Ring))
    requires |r.buf| == SIZE && 0 <= r.get < SIZE && 0 <= r.count <= SIZE && nlen >= 0
  {
    var n := PassLength(r, nlen);
    var get := if r.get + n >= SIZE then 0 else r.get + n;
    (r.buf[r.get..r.get + n], r.(get := get, count := r.count - n))
  }

  lemma PassSkew(r: Ring, nlen: int)
    requires InRange(r) && nlen >= 0
    ensures Skew(Pass(r, nlen).1) == Skew(r)
  {
    var s := Pass(r, nlen).1;
    assert s.get + s.count == r.get + r.count || s.get + s.count == r.get + r.count - SIZE;
  }

  lemma PassDequeues(r: Ring, nlen: int)
    requires InRange(r) && nlen >= 0
    ensures var (out, s) := Pass(r, nlen);
            && InRange(s) && Skew(s) == Skew(r)
            && Queued(r) == out + Queued(s)
            && |out| <= nlen
            && (nlen > 0 && r.count > 0 ==> |out| > 0)
  {
    PassSkew(r, nlen);
    var (out, s) := Pass(r, nlen);
    forall i | 0 <= i < r.count ensures Queued(r)[i] == (out + Queued(s))[i] {
    }
  }

  /** How much two passes in a row take: everything asked for, or everything there is. */
  lemma TwoPassLengths(r: Ring, nlen: nat)
    requires InRange(r)
    ensures var n, s := PassLength(r, nlen), Pass(r, nlen).1;
            && 0 <= n <= nlen && InRange(s)
            && 0 <= PassLength(s, nlen - n)
            && n + PassLength(s, nlen - n) == if nlen > r.count then r.count else nlen
  {
  }

  /** With no writer in between, two passes fetch everything that is there to fetch. */
  lemma TwoPassesSuffice(r: Ring, nlen: nat)
    requires InRange(r)
    ensures var (a, s) := Pass(r, nlen);
            && |a| <= nlen && InRange(s)
            && var (b, t) := Pass(s, nlen - |a|);
               a + b == Queued(r)[..if nlen > r.count then r.count else nlen]
  {
    TwoPassLengths(r, nlen);
    PassDequeues(r, nlen);
    var n, s := PassLength(r, nlen), Pass(r, nlen).1;
    PassDequeues(s, nlen - n);
    Prefix(Queued(r), Pass(r, nlen).0, Pass(s, nlen - n).0, Queued(s), Queued(Pass(s, nlen - n).1));
  }

  lemma Prefix(q: seq<byte>, a: seq<byte>, b: seq<byte>, mid: seq<byte>, rest: seq<byte>)
    requires q == a + mid && mid == b + rest
    ensures |a| + |b| <= |q| && a + b == q[..|a| + |b|]
  {
  }

  // ---- The code as written, over whole runs ----

  datatype Action = Put(c: Chunk) | Take(nlen: nat)

  /** The state in which the code carries out an action: a writer waits until there is room. */
  predicate Ready(r: Ring, a: Action) {
    && InRange(r)
    && (a.Put? ==> IsParsable(a.c) && (IsVideo(a.c) ==> r.count + |a.c.data| <= SIZE))
  }

  function AsWritten(r: Ring, a: Action): Ring
    requires Ready(r, a)
  {
    match a
    case Put(c) => if IsStrange(c) then r else Store(r, Payload(c), |c.data|)
    case Take(nlen) => Pass(r, nlen).1
  }

  /** A chunk like `c` with other bytes to play. */
  function WithPayload(c: Chunk, p: seq<byte>): (d: Chunk)
    requires IsVideo(c) && |p| == |Payload(c)|
    ensures IsVideo(d) && Offset(d) == Offset(c) && Payload(d) == p && |d.data| == |c.data|
  {
    Chunk(c.id, c.data[..Offset(c)] + p)
  }

  /**
   The action is a queue step on bytes: a pass takes the oldest, and a chunk like this one,
   whatever its bytes, has its payload put behind the unread ones.
  */
  ghost predicate Reliable(r: Ring, a: Action)
    requires Ready(r, a)
  {
    match a
    case Take(nlen) => Queued(r) == Pass(r, nlen).0 + Queued(AsWritten(r, a))
    case Put(c) =>
      if IsVideo(c) then
        forall p: seq<byte> | |p| == |Payload(c)| ::
          Queued(AsWritten(r, Put(WithPayload(c, p)))) == Queued(r) + p
      else
        Queued(AsWritten(r, a)) == Queued(r)
  }

  /** A video payload that goes in as one piece: `put` then advances by the header as well. */
  predicate GoesInOnePiece(r: Ring, a: Action) {
    a.Put? && IsVideo(a.c) && Fits(r, Payload(a.c))
  }

  /** There is something to store. */
  predicate HasPayload(a: Action) {
    a.Put? && Payload(a.c) != []
  }

  lemma AsWrittenStepIff(r: Ring, a: Action)
    requires Ready(r, a)
    ensures Reliable(r, a) <==> !HasPayload(a) || Skew(r) == 0
  {
    match a {
      case Take(nlen) => PassDequeues(r, nlen);
      case Put(c) =>
        if IsVideo(c) {
          var n, advance := |Payload(c)|, |c.data|;
          StoreIff(r, n, advance);
          if Appends(r, n, advance) {
            forall p: seq<byte> | |p| == n ensures Queued(AsWritten(r, Put(WithPayload(c, p)))) == Queued(r) + p {
              assert Queued(Store(r, p, advance)) == Queued(r) + p;
            }
          } else {
            StoreSkewed(r, n, advance);
            assert AsWritten(r, Put(WithPayload(c, Witness(r, n)))) == Store(r, Witness(r, n), advance);
          }
        }
    }
  }

  /** The offset by which an action shifts `put`. */
  function Step(r: Ring, a: Action): nat {
    if GoesInOnePiece(r, a) then Offset(a.c) else 0
  }

  /** One-piece writes shift `put` by their offset; wrapped writes and reads keep its distance from the end. */
  function SkewAfter(r: Ring, a: Action): int {
    (Skew(r) + Step(r, a)) % SIZE
  }

  lemma AsWrittenSkew(r: Ring, a: Action)
    requires Ready(r, a)
    ensures Skew(AsWritten(r, a)) == SkewAfter(r, a)
  {
    AddShift(r.put - r.get - r.count, 0);
    match a {
      case Take(nlen) => PassSkew(r, nlen);
      case Put(c) =>
        if IsVideo(c) {
          StoreSkew(r, Payload(c), |c.data|);
          assert |c.data| - |Payload(c)| == Offset(c);
        }
    }
  }

  /** A one-piece write whose header takes `put` past the end of the buffer. */
  predicate Overshoots(r: Ring, a: Action) {
    GoesInOnePiece(r, a) && r.put + |a.c.data| > SIZE
  }

  lemma StaysInsideIff(r: Ring, a: Action)
    requires Ready(r, a)
    ensures InRange(AsWritten(r, a)) <==> !Overshoots(r, a)
  {
  }

  /** Actions in turn; once `put` is past the end nothing is said of what follows. */
  predicate IsRun(rs: seq<Ring>, actions: seq<Action>) {
    && |rs| == |actions| + 1
    && Valid(rs[0])
    && forall i | 0 <= i < |actions| && InRange(rs[i]) ::
         Ready(rs[i], actions[i]) && rs[i + 1] == AsWritten(rs[i], actions[i])
  }

  /** The offsets of the chunks that the first `n` actions stored in one piece, added up. */
  function Shift(rs: seq<Ring>, actions: seq<Action>, n: nat): nat
    requires n <= |actions| < |rs|
  {
    if n == 0 then 0
    else Shift(rs, actions, n - 1) + Step(rs[n - 1], actions[n - 1])
  }

  /** The guard at action `i`: it stays inside, and what it stores finds no shift before it. */
  predicate Guard(rs: seq<Ring>, actions: seq<Action>, i: nat)
    requires i < |actions| < |rs|
  {
    && !Overshoots(rs[i], actions[i])
    && (HasPayload(actions[i]) ==> Shift(rs, actions, i) % SIZE == 0)
  }

  /** Action `i` is a queue step and leaves `put` inside the buffer. */
  ghost predicate QueueStep(rs: seq<Ring>, actions: seq<Action>, i: nat)
    requires IsRun(rs, actions) && i < |actions|
  {
    InRange(rs[i]) && Reliable(rs[i], actions[i]) && InRange(rs[i + 1])
  }

  predicate Inside(rs: seq<Ring>, n: nat)
    requires n < |rs|
  {
    forall i | 0 <= i <= n :: InRange(rs[i])
  }

  lemma {:induction false} InsideIff(rs: seq<Ring>, actions: seq<Action>, n: nat)
    requires IsRun(rs, actions) && n <= |actions|
    ensures Inside(rs, n) <==> forall i | 0 <= i < n :: !Overshoots(rs[i], actions[i])
  {
    if n > 0 {
      InsideIff(rs, actions, n - 1);
      assert Inside(rs, n) <==> Inside(rs, n - 1) && InRange(rs[n]);
      if Inside(rs, n - 1) {
        StaysInsideIff(rs[n - 1], actions[n - 1]);
      }
    }
  }

  lemma SkewStep(r: Ring, a: Action, x: int)
    requires Ready(r, a) && Skew(r) == x % SIZE
    ensures Skew(AsWritten(r, a)) == (x + Step(r, a)) % SIZE
  {
    AsWrittenSkew(r, a);
    AddShift(x, Step(r, a));
  }

  /** While `put` is inside, its skew is the sum of the offsets stored in one piece. */
  lemma {:induction false} SkewIsShift(rs: seq<Ring>, actions: seq<Action>, n: nat)
    requires IsRun(rs, actions) && n <= |actions|
    requires n > 0 ==> Inside(rs, n - 1)
    ensures Skew(rs[n]) == Shift(rs, actions, n) % SIZE
  {
    if n > 0 {
      SkewIsShift(rs, actions, n - 1);
      assert Ready(rs[n - 1], actions[n - 1]) && rs[n] == AsWritten(rs[n - 1], actions[n - 1]);
      SkewStep(rs[n - 1], actions[n - 1], Shift(rs, actions, n - 1));
    }
  }

  lemma QueueStepIff(rs: seq<Ring>, actions: seq<Action>, i: nat)
    requires IsRun(rs, actions) && i < |actions| && Inside(rs, i)
    ensures QueueStep(rs, actions, i) <==> Guard(rs, actions, i)
    ensures QueueStep(rs, actions, i) ==> Inside(rs, i + 1)
  {
    assert Ready(rs[i], actions[i]) && rs[i + 1] == AsWritten(rs[i], actions[i]);
    SkewIsShift(rs, actions, i);
    AsWrittenStepIff(rs[i], actions[i]);
    StaysInsideIff(rs[i], actions[i]);
  }

  /** The first `n` actions are queue steps. */
  ghost predicate IsQueue(rs: seq<Ring>, actions: seq<Action>, n: nat)
    requires IsRun(rs, actions) && n <= |actions|
  {
    forall i: nat | i < n :: QueueStep(rs, actions, i)
  }

  /** The guard holds at the first `n` actions. */
  predicate Guarded(rs: seq<Ring>, actions: seq<Action>, n: nat)
    requires n <= |actions| < |rs|
  {
    forall i: nat | i < n :: Guard(rs, actions, i)
  }

  lemma LastAction(rs: seq<Ring>, actions: seq<Action>, n: nat)
    requires IsRun(rs, actions) && n < |actions|
    ensures IsQueue(rs, actions, n + 1) <==> IsQueue(rs, actions, n) && QueueStep(rs, actions, n)
    ensures Guarded(rs, actions, n + 1) <==> Guarded(rs, actions, n) && Guard(rs, actions, n)
  {
  }

  /** From an aligned start the code is a queue on bytes exactly if every write of a payload finds no shift. */
  lemma {:induction false} AsWrittenRunIff(rs: seq<Ring>, actions: seq<Action>, n: nat)
    requires IsRun(rs, actions) && n <= |actions|
    ensures IsQueue(rs, actions, n) <==> Guarded(rs, actions, n)
    ensures IsQueue(rs, actions, n) ==> Inside(rs, n)
  {
    if n > 0 {
      AsWrittenRunIff(rs, actions, n - 1);
      LastAction(rs, actions, n - 1);
      if IsQueue(rs, actions, n - 1) {
        QueueStepIff(rs, actions, n - 1);
      }
    }
  }

  /** The bytes that the first `n` actions took out. */
  function Taken(rs: seq<Ring>, actions: seq<Action>, n: nat): seq<byte>
    requires n <= |actions| < |rs|
    requires forall i | 0 <= i < n :: Ready(rs[i], actions[i])
  {
    if n == 0 then [] else
    assert Ready(rs[n - 1], actions[n - 1]);
    Taken(rs, actions, n - 1) + if actions[n - 1].Take? then Pass(rs[n - 1], actions[n - 1].nlen).0 else []
  }

  /** The payloads that the first `n` actions wrote. */
  function Given(actions: seq<Action>, n: nat): seq<byte>
    requires n <= |actions|
  {
    if n == 0 then []
    else Given(actions, n - 1) + if actions[n - 1].Put? then Payload(actions[n - 1].c) else []
  }

  /** Under the guard, bytes taken and bytes left are the bytes there at first and the payloads written. */
  lemma {:induction false} AsWrittenDelivers(rs: seq<Ring>, actions: seq<Action>, n: nat)
    requires IsRun(rs, actions) && n <= |actions|
    requires Guarded(rs, actions, n)
    ensures Inside(rs, n) && (forall i | 0 <= i < n :: Ready(rs[i], actions[i]))
    ensures Taken(rs, actions, n) + Queued(rs[n]) == Queued(rs[0]) + Given(actions, n)
  {
    AsWrittenRunIff(rs, actions, n);
    if n == 0 {
      assert [] + Queued(rs[0]) == Queued(rs[0]) + [];
    } else {
      AsWrittenDelivers(rs, actions, n - 1);
      var r, s := rs[n - 1], rs[n];
      assert QueueStep(rs, actions, n - 1);
      match actions[n - 1] {
        case Take(nlen) =>
          Associative(Taken(rs, actions, n - 1), Pass(r, nlen).0, Queued(s));
          assert Given(actions, n) == Given(actions, n - 1);
        case Put(c) =>
          PutReliably(r, c);
          Associative(Taken(rs, actions, n - 1), Queued(r), Payload(c));
          Associative(Queued(rs[0]), Given(actions, n - 1), Payload(c));
          assert Taken(rs, actions, n) == Taken(rs, actions, n - 1);
      }
    }
  }

  lemma PutReliably(r: Ring, c: Chunk)
    requires Ready(r, Put(c)) && Reliable(r, Put(c))
    ensures Queued(AsWritten(r, Put(c))) == Queued(r) + Payload(c)
  {
    if IsVideo(c) {
      assert WithPayload(c, Payload(c)) == c by {
        assert c.data[..Offset(c)] + c.data[Offset(c)..] == c.data;
      }
    } else {
      assert Queued(r) + [] == Queued(r);
    }
  }

  function Empty(): (r: Ring)
    ensures Valid(r) && Queued(r) == []
  {
    Ring(seq(SIZE, _ => 0), 0, 0, 0)
  }

  lemma OneByteStored(r: Ring, b: byte)
    requires InRange(r) && r.put < SIZE && r.count + 11 <= SIZE
    ensures Ready(r, Put(OneByteChunk(0, b)))
    ensures AsWritten(r, Put(OneByteChunk(0, b))) == Ring(r.buf[r.put := b], r.put + 11, r.get, r.count + 1)
  {
    assert Blit(r.buf, r.put, [b]) == r.buf[r.put := b];
  }

  lemma TakesTwo(s: Ring)
    requires InRange(s) && s.get == 0 && s.count == 2
    ensures Ready(s, Take(2)) && Pass(s, 2).0 == [s.buf[0], s.buf[1]]
  {
  }

  /** Two one-byte chunks written by the code as it stands: the player does not get the second byte. */
  lemma AsWrittenLosesBytes()
    ensures var a, b := Put(OneByteChunk(0, 7)), Put(OneByteChunk(0, 9));
            var r := Empty();
            && Ready(r, a)
            && Ready(AsWritten(r, a), b)
            && var s := AsWritten(AsWritten(r, a), b);
               Ready(s, Take(2)) && Pass(s, 2).0 == [7, 0]
  {
    var e := Empty();
    OneByteStored(e, 7);
    var r := AsWritten(e, Put(OneByteChunk(0, 7)));
    assert r == Ring(e.buf[0 := 7], 11, 0, 1);
    OneByteStored(r, 9);
    var s := AsWritten(r, Put(OneByteChunk(0, 9)));
    assert s == Ring(r.buf[11 := 9], 22, 0, 2);
    TakesTwo(s);
  }

  /** A chunk that leaves room, a read, and a one-byte chunk: `put` ends past the end of the buffer. */
  lemma LeavesTheBuffer()
    ensures var big := Put(Chunk(0, OneByteChunk(0, 0).data[..HEADER_SIZE] + seq(SIZE - 15, _ => 0)));
            var small := Put(OneByteChunk(0, 7));
            && Ready(Empty(), big)
            && var r := AsWritten(Empty(), big);
               var s := AsWritten(r, Take(SIZE - 15));
               Ready(s, small) && AsWritten(s, small).put == SIZE + 6
  {
  }
}
