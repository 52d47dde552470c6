/** HTTP/2 frames and their wire format (section 4.1 of RFC 7540). */
module Http2Frames {
  import opened Bytes

  datatype Frame = Frame(kind: byte, flags: byte, stream: nat, payload: seq<byte>)

  const DATA: byte := 0x0
  const HEADERS: byte := 0x1
  const RST_STREAM: byte := 0x3
  const SETTINGS: byte := 0x4
  const PUSH_PROMISE: byte := 0x5
  const PING: byte := 0x6
  const GOAWAY: byte := 0x7
  const WINDOW_UPDATE: byte := 0x8
  const CONTINUATION: byte := 0x9

  const END_STREAM: byte := 0x1
  const ACK: byte := 0x1
  const END_HEADERS: byte := 0x4
  const PADDED: byte := 0x8
  const PRIORITY_FLAG: byte := 0x20

  /** Fits the 24-bit length and the 31-bit stream identifier. */
  predicate Sendable(f: Frame)
  {
    |f.payload| < 0x100_0000 && f.stream < TWO_31
  }

  function BuildFrame(f: Frame): (s: seq<byte>)
    requires Sendable(f)
    ensures |s| == 9 + |f.payload|
  {
    Be32(|f.payload|)[1..] + [f.kind, f.flags] + Be32(f.stream) + f.payload
  }

  /** Length, type, flags and stream stand where section 4.1 of RFC 7540 puts them, numbers most significant byte first. */
  lemma FrameLayout(f: Frame)
    requires Sendable(f)
    ensures var s := BuildFrame(f);
      && s[0] as int * 0x1_0000 + s[1] as int * 0x100 + s[2] as int == |f.payload|
      && s[3] == f.kind && s[4] == f.flags
      && s[5] as int * 0x100_0000 + s[6] as int * 0x1_0000 + s[7] as int * 0x100 + s[8] as int == f.stream
      && s[9..] == f.payload
  {
    Be32IsBigEndian(|f.payload|);
    Be32IsBigEndian(f.stream);
  }

  datatype Incoming = Short | TooLarge | Got(frame: Frame, rest: seq<byte>)

  /** Reads one frame off the front of a byte stream. */
  function ReadFrame(s: seq<byte>, maxFrameSize: nat): (r: Incoming)
    ensures r.Got? ==> |r.rest| < |s|
  {
    if |s| < 9 then Short
    else
      var length := ReadBe32([0] + s[..3]);
      if length > maxFrameSize then TooLarge
      else if |s| < 9 + length then Short
      else Got(Frame(s[3], s[4], ReadBe32(s[5..9]) % TWO_31, s[9..9 + length]), s[9 + length..])
  }

  lemma FrameRoundTrip(f: Frame, rest: seq<byte>, maxFrameSize: nat)
    requires Sendable(f) && |f.payload| <= maxFrameSize
    ensures ReadFrame(BuildFrame(f) + rest, maxFrameSize) == Got(f, rest)
  {
    var s := BuildFrame(f) + rest;
    var n := |f.payload|;
    assert Be32(n)[0] == 0;
    assert [0] + s[..3] == Be32(n) + [];
    Be32RoundTrip(n, []);
    assert s[5..9] == Be32(f.stream) + [];
    Be32RoundTrip(f.stream, []);
    assert s[9..9 + n] == f.payload;
    assert s[9 + n..] == rest;
  }

  function Stream(frames: seq<Frame>): seq<byte>
    requires forall i :: 0 <= i < |frames| ==> Sendable(frames[i])
  {
    if frames == [] then [] else BuildFrame(frames[0]) + Stream(frames[1..])
  }

  /** All complete frames of a byte stream, up to the first that is refused. */
  function ReadAll(s: seq<byte>, maxFrameSize: nat): seq<Frame>
    decreases |s|
  {
    match ReadFrame(s, maxFrameSize)
    case Got(f, rest) => [f] + ReadAll(rest, maxFrameSize)
    case _ => []
  }

  /** A peer that reads the byte stream gets back exactly the frames that were written. */
  lemma {:induction false} StreamRoundTrip(frames: seq<Frame>, maxFrameSize: nat)
    requires forall i :: 0 <= i < |frames| ==> Sendable(frames[i]) && |frames[i].payload| <= maxFrameSize
    ensures ReadAll(Stream(frames), maxFrameSize) == frames
  {
    if frames != [] {
      FrameRoundTrip(frames[0], Stream(frames[1..]), maxFrameSize);
      StreamRoundTrip(frames[1..], maxFrameSize);
    }
  }

  /** `flags` with the END_STREAM or END_HEADERS bit set or cleared; the other bit is untouched. */
  function WithFlag(flags: byte, bit: byte, on: bool): (r: byte)
    requires bit == END_STREAM || bit == END_HEADERS
    ensures HasFlag(r, END_STREAM) == if bit == END_STREAM then on else HasFlag(flags, END_STREAM)
    ensures HasFlag(r, END_HEADERS) == if bit == END_HEADERS then on else HasFlag(flags, END_HEADERS)
  {
    if bit == END_STREAM then
      flags as int - flags as int % 2 + (if on then 1 else 0)
    else
      flags as int - (flags as int / 4 % 2) * 4 + (if on then 4 else 0)
  }
}
