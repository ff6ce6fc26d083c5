/**
 The layout of a video chunk, as whoever sends it writes it: a header, the number of frames,
 a record for each frame, and the bytes to play.
*/
module VideoFormat {
  import opened Chunks

  /** A frame record: three bytes of size, four of time stamp, one of difference. */
  datatype Frame = Frame(size: seq<byte>, pts: seq<byte>, delta: byte)

  predicate IsFrame(f: Frame) {
    |f.size| == 3 && |f.pts| == 4
  }

  function Record(f: Frame): seq<byte> {
    f.size + f.pts + [f.delta]
  }

  function Table(frames: seq<Frame>): seq<byte> {
    if frames == [] then [] else Record(frames[0]) + Table(frames[1..])
  }

  /** Type, width, height and the two parts of the frame rate, in nine bytes; then frames and payload. */
  predicate IsLayout(h: seq<byte>, frames: seq<Frame>) {
    && |h| == 9 && 1 <= h[0] < 127
    && |frames| < 256 && forall f | f in frames :: IsFrame(f)
  }

  function Encode(id: int, h: seq<byte>, frames: seq<Frame>, p: seq<byte>): Chunk
    requires IsLayout(h, frames)
  {
    var n: byte := |frames|;
    Chunk(id, h + [n] + Table(frames) + p)
  }

  lemma {:induction false} TableLength(frames: seq<Frame>)
    requires forall f | f in frames :: IsFrame(f)
    ensures |Table(frames)| == 8 * |frames|
  {
    if frames != [] {
      assert IsFrame(frames[0]);
      TableLength(frames[1..]);
    }
  }

  /** What is played of an encoded chunk is its payload, whatever its frames. */
  lemma RoundTrip(id: int, h: seq<byte>, frames: seq<Frame>, p: seq<byte>)
    requires IsLayout(h, frames)
    ensures var c := Encode(id, h, frames, p);
            c.id == id && IsVideo(c) && !IsStrange(c) && Payload(c) == p
  {
    var c, table := Encode(id, h, frames, p), Table(frames);
    TableLength(frames);
    assert c.data[9] == |frames|;
    assert Offset(c) == |h| + 1 + |table|;
    assert c.data[|h| + 1 + |table|..] == p;
  }

  /** The frames of a table of `n` records. */
  function Frames(data: seq<byte>, n: nat): seq<Frame>
    requires |data| == 8 * n
  {
    if n == 0 then [] else [Frame(data[..3], data[3..7], data[7])] + Frames(data[8..], n - 1)
  }

  lemma {:induction false} TableOfFrames(data: seq<byte>, n: nat)
    requires |data| == 8 * n
    ensures |Frames(data, n)| == n && (forall f | f in Frames(data, n) :: IsFrame(f))
    ensures Table(Frames(data, n)) == data
  {
    if n > 0 {
      TableOfFrames(data[8..], n - 1);
      var f := Frame(data[..3], data[3..7], data[7]);
      assert Frames(data, n) == [f] + Frames(data[8..], n - 1);
      assert Record(f) + data[8..] == data;
    }
  }

  /** Every chunk that the writer takes for video has this layout, and its payload is what is played of it. */
  lemma VideoIsEncoded(c: Chunk) returns (h: seq<byte>, frames: seq<Frame>)
    requires IsVideo(c)
    ensures IsLayout(h, frames) && c == Encode(c.id, h, frames, Payload(c))
  {
    h := c.data[..9];
    var n: byte := c.data[9];
    var table := c.data[10..10 + 8 * n];
    frames := Frames(table, n);
    TableOfFrames(table, n);
    assert c.data == h + [n] + table + c.data[10 + 8 * n..];
  }

  /** A chunk of type 0 is the only other kind that the writer can make out; it plays nothing of it. */
  lemma StrangeIsSilent(id: int, rest: seq<byte>)
    ensures var c := Chunk(id, [0] + rest); IsStrange(c) && !IsVideo(c) && Payload(c) == []
  {
  }
}
