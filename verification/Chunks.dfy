/** Chunks as the peers exchange them, and the part of a chunk that is played. */
module Chunks {

  type byte = x: int | 0 <= x < 256

  datatype Option<+T> = None | Some(value: T)

  /** `struct chunk`: only the id and the data matter here; `size` is `|data|`. */
  datatype Chunk = Chunk(id: int, data: seq<byte>)

  /** Bytes before the frame table of a video chunk; the last one counts the frames. */
  const HEADER_SIZE := 10

  /** Bytes of one frame table entry. */
  const FRAME_ENTRY_SIZE := 8

  /** The writer prints an error and plays nothing for a chunk of type 0. */
  predicate IsStrange(c: Chunk) {
    |c.data| > 0 && c.data[0] == 0
  }

  /** A video chunk whose header and frame table lie within its data. */
  predicate IsVideo(c: Chunk) {
    && |c.data| >= HEADER_SIZE
    && 1 <= c.data[0] < 127
    && HEADER_SIZE + FRAME_ENTRY_SIZE * c.data[HEADER_SIZE - 1] <= |c.data|
  }

  /** The chunks for which the writer's header arithmetic is defined. */
  predicate IsParsable(c: Chunk) {
    IsStrange(c) || IsVideo(c)
  }

  /** Where the played bytes of a video chunk start. */
  function Offset(c: Chunk): (offset: nat)
    requires IsVideo(c)
    ensures HEADER_SIZE <= offset <= |c.data|
  {
    HEADER_SIZE + FRAME_ENTRY_SIZE * c.data[HEADER_SIZE - 1]
  }

  /** The bytes of a chunk that reach the player: none of a strange one. */
  function Payload(c: Chunk): seq<byte> {
    if IsVideo(c) then c.data[Offset(c)..] else []
  }

  /** A video chunk with no frame table and one byte to play. */
  function OneByteChunk(id: int, b: byte): (c: Chunk)
    ensures c.id == id && IsVideo(c) && Payload(c) == [b]
  {
    Chunk(id, [1, 0, 0, 0, 0, 0, 0, 0, 0, 0, b])
  }

  /** The bytes a player reads when `cs` is played in this order. */
  function Payloads(cs: seq<Chunk>): seq<byte> {
    if cs == [] then [] else Payload(cs[0]) + Payloads(cs[1..])
  }

  lemma Associative(a: seq<byte>, b: seq<byte>, c: seq<byte>)
    ensures (a + b) + c == a + (b + c)
  {
  }

  lemma {:induction false} PayloadsConcat(a: seq<Chunk>, b: seq<Chunk>)
    ensures Payloads(a + b) == Payloads(a) + Payloads(b)
  {
    if a == [] {
      assert a + b == b && Payloads(a) == [];
    } else {
      var s, tail := a + b, a[1..];
      assert s[0] == a[0] && s[1..] == tail + b;
      PayloadsConcat(tail, b);
      assert Payloads(s) == Payload(a[0]) + (Payloads(tail) + Payloads(b));
      Associative(Payload(a[0]), Payloads(tail), Payloads(b));
    }
  }

  /** Ids rise strictly from each chunk to the next. */
  predicate Increasing(cs: seq<Chunk>) {
    forall i, j | 0 <= i < j < |cs| :: cs[i].id < cs[j].id
  }
}
