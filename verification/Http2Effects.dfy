/**
 What each kind of frame does to a session apart from the windows: which streams end and how, what is
 stored, and what is written back.  Frames are given by what they say, not by how they are read.
 */
module Http2Effects {
  import opened Bytes
  import opened Http2Frames
  import opened Http2Session
  import opened Http2Runs
  import opened HpackTable
  import Hpack

  /** The reserved bit in front of a 31-bit number, which receivers ignore. */
  function Masked(reserved: bool, n: nat): nat
    requires n < TWO_31
  {
    if reserved then TWO_31 + n else n
  }

  lemma MaskedReads(reserved: bool, n: nat, rest: seq<byte>)
    requires n < TWO_31
    ensures ReadBe32(Be32(Masked(reserved, n)) + rest) % TWO_31 == n
  {
    Be32RoundTrip(Masked(reserved, n), rest);
  }

  // ---------------------------------------------------------------- bytes on the wire

  /** What a small word looks like in four bytes. */
  lemma LowByte(v: nat)
    requires v < 256
    ensures Be32(v) == [0, 0, 0, v]
  {
  }

  /** The opening frame is no acknowledgement; it turns push off and announces the window the client really starts with. */
  lemma OpeningBytes()
    ensures |Started().wire| == 1 && Sendable(Started().wire[0])
    ensures BuildFrame(Started().wire[0]) ==
      [0, 0, 18, 4, 0, 0, 0, 0, 0] + [0, 2, 0, 0, 0, 0] + [0, 4, 0, 0, 255, 255] + [0, 3, 0, 0, 0, 100]
    ensures Started().connectionRecvWindow == ReadBe32([0, 0, 255, 255])
  {
    LowByte(0);
    LowByte(18);
    LowByte(100);
    assert Be32(65535) == [0, 0, 255, 255];
  }

  /** The frames a client answers with, byte for byte as sections 6.4 to 6.9 and 7 of RFC 7540 lay them out. */
  lemma AnswerBytes(id: byte, echo: seq<byte>)
    requires |echo| == 8
    ensures BuildFrame(Frame(SETTINGS, ACK, 0, [])) == [0, 0, 0, 4, 1, 0, 0, 0, 0]
    ensures BuildFrame(Frame(PING, ACK, 0, echo)) == [0, 0, 8, 6, 1, 0, 0, 0, 0] + echo
    ensures forall code :: code in {STREAM_CLOSED, REFUSED_STREAM, CANCEL} ==>
              BuildFrame(RstFrame(id, code)) == [0, 0, 4, 3, 0, 0, 0, 0, id, 0, 0, 0, code]
    ensures (STREAM_CLOSED, REFUSED_STREAM, CANCEL) == (5, 7, 8)
    ensures forall code :: code in {PROTOCOL_ERROR, FLOW_CONTROL_ERROR, FRAME_SIZE_ERROR, COMPRESSION_ERROR} ==>
              BuildFrame(GoAwayFrame(code)) == [0, 0, 8, 7, 0, 0, 0, 0, 0] + [0, 0, 0, 0] + [0, 0, 0, code]
    ensures (PROTOCOL_ERROR, FLOW_CONTROL_ERROR, FRAME_SIZE_ERROR, COMPRESSION_ERROR) == (1, 3, 6, 9)
    ensures BuildFrame(WindowUpdateFrame(id, 65535)) == [0, 0, 4, 8, 0, 0, 0, 0, id, 0, 0, 255, 255]
  {
    LowByte(0);
    LowByte(4);
    LowByte(8);
    LowByte(id);
    forall code: nat | code < 256 ensures Be32(code) == [0, 0, 0, code] { LowByte(code); }
    assert Be32(65535) == [0, 0, 255, 255];
  }

  /** Frames as they arrive: a padded header block with a priority, the rest of a block, a promise, and last data. */
  lemma ArrivingBytes(rest: seq<byte>)
    ensures ReadFrame([0, 0, 8, 1, 0x2c, 0, 0, 0, 5] + ([1, 0, 0, 0, 0, 16, 0x88, 0] + rest), DEFAULT_MAX_FRAME)
         == Incoming.Got(Frame(HEADERS, 0x2c, 5, [1, 0, 0, 0, 0, 16, 0x88, 0]), rest)
    ensures Fragment(0x2c, [1, 0, 0, 0, 0, 16, 0x88, 0]) == Some([0x88])
    ensures HasFlag(0x2c, END_HEADERS) && !HasFlag(0x2c, END_STREAM)
    ensures ReadFrame([0, 0, 1, 9, 4, 0, 0, 0, 5] + ([0x88] + rest), DEFAULT_MAX_FRAME)
         == Incoming.Got(Frame(CONTINUATION, END_HEADERS, 5, [0x88]), rest)
    ensures ReadFrame([0, 0, 4, 5, 4, 0, 0, 0, 5] + ([0, 0, 0, 2] + rest), DEFAULT_MAX_FRAME)
         == Incoming.Got(Frame(PUSH_PROMISE, END_HEADERS, 5, [0, 0, 0, 2]), rest)
    ensures ReadFrame([0, 0, 2, 0, 1, 0, 0, 0, 5] + ([72, 105] + rest), DEFAULT_MAX_FRAME)
         == Incoming.Got(Frame(DATA, END_STREAM, 5, [72, 105]), rest)
  {
    ReadsFrom(1, 0x2c, 5, [1, 0, 0, 0, 0, 16, 0x88, 0], rest);
    assert [1, 0, 0, 0, 0, 16, 0x88, 0][1..7] == [0, 0, 0, 0, 16, 0x88] && [0, 0, 0, 0, 16, 0x88][5..] == [0x88];
    ReadsFrom(9, 4, 5, [0x88], rest);
    ReadsFrom(5, 4, 5, [0, 0, 0, 2], rest);
    ReadsFrom(0, 1, 5, [72, 105], rest);
  }

  lemma ReadsFrom(kind: byte, flags: byte, id: byte, payload: seq<byte>, rest: seq<byte>)
    requires |payload| < 256
    ensures ReadFrame([0, 0, |payload|, kind, flags, 0, 0, 0, id] + (payload + rest), DEFAULT_MAX_FRAME)
         == Incoming.Got(Frame(kind, flags, id, payload), rest)
  {
    var s := [0, 0, |payload|, kind, flags, 0, 0, 0, id] + (payload + rest);
    assert [0] + s[..3] == [0, 0, 0, |payload|] && s[5..9] == [0, 0, 0, id];
    assert s[9..9 + |payload|] == payload && s[9 + |payload|..] == rest;
  }

  // ---------------------------------------------------------------- GOAWAY

  function GoAway(reserved: bool, last: nat, code: nat, debug: seq<byte>): seq<byte>
    requires last < TWO_31 && code < TWO_32
  {
    Be32(Masked(reserved, last)) + Be32(code) + debug
  }

  /**
   A GOAWAY that names its last stream ends exactly the streams above it, with its code. The others go on
   as they were, nothing is written, and no new stream may be opened.
   */
  lemma GoAwayEnds(s: Session, f: Frame, reserved: bool, last: nat, code: nat, debug: seq<byte>)
    requires last < TWO_31 && code < TWO_32 && f.kind == GOAWAY && f.payload == GoAway(reserved, last, code, debug)
    ensures var s' := HandleFrame(s, f);
      && s'.goingAway && s'.goAwayLastStreamId == last && s'.valid == s.valid && s'.wire == s.wire && !CanCreate(s')
      && (forall id :: id in s'.streams <==> id in s.streams && id <= last)
      && (forall id :: id in s'.streams ==> s'.streams[id] == s.streams[id])
      && (forall id :: id in s.streams && id > last ==> id in s'.ended && s'.ended[id] == End(true, code))
      && (forall id :: !(id in s.streams && id > last) ==>
            (id in s'.ended <==> id in s.ended) && (id in s.ended ==> s'.ended[id] == s.ended[id]))
  {
    hide Reserved, ReadBe32, Be32;
    MaskedReads(reserved, last, Be32(code) + debug);
    assert f.payload == Be32(Masked(reserved, last)) + (Be32(code) + debug);
    assert f.payload[4..] == Be32(code) + debug;
    Be32RoundTrip(code, debug);
  }

  /** A GOAWAY too short to name one ends the session and all its streams. */
  lemma ShortGoAwayEnds(s: Session, f: Frame)
    requires f.kind == GOAWAY && |f.payload| < 8
    ensures var s' := HandleFrame(s, f);
      && s'.goingAway && !s'.valid && s'.streams == map[] && s'.wire == s.wire
      && forall id :: id in s.streams ==> id in s'.ended && s'.ended[id] == End(true, CANCEL)
  {
    hide Reserved, OnSettings, OnWindowUpdate, OnPing, OnRstStream, OnPushPromise, OnHeaders, OnContinuation, OnData;
  }

  // ---------------------------------------------------------------- RST_STREAM, PING, PUSH_PROMISE

  /** A reset ends its stream with its code, and does nothing else. */
  lemma ResetEnds(s: Session, f: Frame, code: nat)
    requires code < TWO_32 && f.kind == RST_STREAM && f.payload == Be32(code)
    ensures var s' := HandleFrame(s, f);
      && s'.streams == s.streams - {f.stream} && s'.wire == s.wire && s'.valid == s.valid && s'.goingAway == s.goingAway
      && s'.ended == if f.stream in s.streams then s.ended[f.stream := End(true, code)] else s.ended
  {
    hide Reserved, ReadBe32, Be32;
    assert Be32(code) + [] == Be32(code);
    Be32RoundTrip(code, []);
  }

  /** Eight bytes are sent back as they came, and once: an answer is not answered. */
  lemma PingEchoed(s: Session, f: Frame)
    requires f.kind == PING && |f.payload| == 8
    ensures HandleFrame(s, f) ==
      if HasFlag(f.flags, ACK) then s else s.(wire := s.wire + [Frame(PING, 1, 0, f.payload)])
  {
  }

  /** A promised stream is refused, whatever its headers; number 0 is ignored. */
  lemma PromiseRefused(s: Session, f: Frame, pad: Option<byte>, reserved: bool, promised: nat, rest: seq<byte>)
    requires f.kind == PUSH_PROMISE && promised < TWO_31 && HasFlag(f.flags, PADDED) == pad.Some?
    requires f.payload == (if pad.Some? then [pad.value] else []) + Be32(Masked(reserved, promised)) + rest
    ensures HandleFrame(s, f) ==
      if promised == 0 then s else s.(wire := s.wire + [Frame(RST_STREAM, 0, promised, Be32(7))])
  {
    hide ReadBe32, Be32, HasFlag;
    MaskedReads(reserved, promised, rest);
    var offset := if pad.Some? then 1 else 0;
    assert f.payload[offset..] == Be32(Masked(reserved, promised)) + rest;
  }

  // ---------------------------------------------------------------- padding

  /** Data with padding behind it, counted in front. */
  function Padded(data: seq<byte>, pad: Option<seq<byte>>): seq<byte>
    requires pad.Some? ==> |pad.value| < 256
  {
    if pad.None? then data else [|pad.value|] + data + pad.value
  }

  /** `payload` is `data`, with padding if the flags say so. */
  ghost predicate Pads(flags: byte, data: seq<byte>, pad: Option<seq<byte>>, payload: seq<byte>)
  {
    pad.Some? == HasFlag(flags, PADDED) && (pad.Some? ==> |pad.value| < 256) && payload == Padded(data, pad)
  }

  /** What remains of a payload is what was padded. */
  lemma UnpadInverts(flags: byte, data: seq<byte>, pad: Option<seq<byte>>, payload: seq<byte>)
    requires Pads(flags, data, pad, payload)
    ensures Unpad(flags, payload) == Some(data)
  {
    hide HasFlag;
    if pad.Some? { assert payload[1..|payload| - |pad.value|] == data; }
  }

  /** A payload is refused exactly if it is padded data no way, that is if its count exceeds what follows it. */
  lemma UnpadRefusesExactly(flags: byte, payload: seq<byte>)
    ensures Unpad(flags, payload).None? <==> !exists data: seq<byte>, pad: Option<seq<byte>> :: Pads(flags, data, pad, payload)
    ensures Unpad(flags, payload).None? <==> HasFlag(flags, PADDED) && (payload == [] || payload[0] as int > |payload| - 1)
  {
    hide HasFlag;
    forall data: seq<byte>, pad: Option<seq<byte>> | Pads(flags, data, pad, payload)
      ensures Unpad(flags, payload) == Some(data)
    {
      UnpadInverts(flags, data, pad, payload);
    }
    match Unpad(flags, payload)
    case Some(data) =>
      if HasFlag(flags, PADDED) {
        var tail := payload[|payload| - payload[0] as int..];
        assert payload == [|tail|] + data + tail;
        assert Pads(flags, data, Some(tail), payload);
      } else {
        assert Pads(flags, data, None, payload);
      }
    case None =>
  }

  /** A HEADERS payload: five bytes of priority, if any, before the block, and padding around both. */
  lemma FragmentInverts(flags: byte, priority: Option<seq<byte>>, block: seq<byte>, pad: Option<seq<byte>>)
    requires (pad.Some? ==> |pad.value| < 256) && (priority.Some? ==> |priority.value| == 5)
    requires pad.Some? == HasFlag(flags, PADDED) && priority.Some? == HasFlag(flags, PRIORITY_FLAG)
    ensures Fragment(flags, Padded((if priority.Some? then priority.value else []) + block, pad)) == Some(block)
  {
    hide HasFlag;
    var inner := (if priority.Some? then priority.value else []) + block;
    var payload := Padded(inner, pad);
    if pad.Some? { assert payload[1..|payload| - |pad.value|] == inner; }
    if priority.Some? { assert inner[5..] == block; } else { assert inner == block; }
  }

  // ---------------------------------------------------------------- DATA

  /** Bytes for an open stream are added to its body without their padding; other streams are left alone. */
  lemma DataStored(s: Session, f: Frame, data: seq<byte>, pad: Option<seq<byte>>)
    requires f.kind == DATA && f.stream != 0 && f.stream in s.streams && !s.streams[f.stream].endStream
    requires Pads(f.flags, data, pad, f.payload)
    requires |f.payload| <= s.connectionRecvWindow && |f.payload| <= s.streams[f.stream].recvWindow
    ensures var s', id := HandleFrame(s, f), f.stream;
      && s'.streams.Keys == s.streams.Keys && s'.ended == s.ended && s'.valid == s.valid
      && s'.streams[id].body == s.streams[id].body + data
      && s'.streams[id].endStream == HasFlag(f.flags, END_STREAM)
      && s'.streams[id].responseHeaders == s.streams[id].responseHeaders && s'.streams[id].trailers == s.streams[id].trailers
      && (forall other :: other in s.streams && other != id ==> s'.streams[other] == s.streams[other])
  {
    hide Reserved, HasFlag, RefillFrames, Refill, Unpad;
    UnpadInverts(f.flags, data, pad, f.payload);
  }

  /** Bytes for a stream the peer has ended end it, with an answer; bytes for an unknown one are dropped. */
  lemma LateDataAnswered(s: Session, f: Frame)
    requires f.kind == DATA && f.stream != 0 && |f.payload| <= s.connectionRecvWindow
    requires f.stream !in s.streams || s.streams[f.stream].endStream
    ensures var s', id := HandleFrame(s, f), f.stream;
      && s'.streams == s.streams - {id} && s'.valid == s.valid
      && (id in s.streams ==> s'.ended == s.ended[id := End(true, 5)] && s'.wire == s.wire + [Frame(RST_STREAM, 0, id, Be32(5))])
      && (id !in s.streams ==> s'.ended == s.ended)
  {
    hide Reserved, RefillFrames, Refill;
  }

  /** What a receive window of `left` bytes is answered with: below half it is filled up again. */
  function FillUp(id: nat, left: int): seq<Frame>
    requires 0 <= left <= 65535
  {
    if left < 32767 then [Frame(WINDOW_UPDATE, 0, id, Be32(65535 - left))] else []
  }

  /** Accepted data is answered with exactly the updates that are due, which restore the windows they are for. */
  lemma UpdatesExactly(s: Session, f: Frame, data: seq<byte>, pad: Option<seq<byte>>)
    requires f.kind == DATA && f.stream != 0 && f.stream in s.streams && !s.streams[f.stream].endStream
    requires Pads(f.flags, data, pad, f.payload)
    requires |f.payload| <= s.connectionRecvWindow <= 65535 && |f.payload| <= s.streams[f.stream].recvWindow <= 65535
    ensures var s', id := HandleFrame(s, f), f.stream;
      var all, one := s.connectionRecvWindow - |f.payload|, s.streams[id].recvWindow - |f.payload|;
      && s'.wire == s.wire + FillUp(0, all) + FillUp(id, one) && id in s'.streams
      && s'.connectionRecvWindow == (if all < 32767 then 65535 else all)
      && s'.streams[id].recvWindow == (if one < 32767 then 65535 else one)
  {
    hide Reserved, HasFlag, Unpad, Be32;
    UnpadInverts(f.flags, data, pad, f.payload);
  }

  /** Data beyond a window, the connection's or an open stream's, ends the session with FLOW_CONTROL_ERROR. */
  lemma OverrunEnds(s: Session, f: Frame)
    requires f.kind == DATA && f.stream != 0 && s.valid
    requires f.stream in s.streams && !s.streams[f.stream].endStream ==> Unpad(f.flags, f.payload).Some?
    requires |f.payload| > s.connectionRecvWindow ||
             (f.stream in s.streams && !s.streams[f.stream].endStream && |f.payload| > s.streams[f.stream].recvWindow)
    ensures var s' := HandleFrame(s, f);
      && !s'.valid && s'.streams == map[] && s'.wire == s.wire + [Frame(GOAWAY, 0, 0, Be32(0) + Be32(3))]
  {
    hide Reserved, Unpad, Be32, Fail, RefillFrames;
    FailAnnounces(s.(connectionRecvWindow := s.connectionRecvWindow - |f.payload|), 3);
  }

  // ---------------------------------------------------------------- windows that the peer moves

  /** Credit is added to the window it is for, unless that would pass 2^31-1; credit for an unknown stream is dropped. */
  lemma CreditTaken(s: Session, f: Frame, reserved: bool, n: nat)
    requires f.kind == WINDOW_UPDATE && 0 < n < TWO_31 && f.payload == Be32(Masked(reserved, n))
    ensures HandleFrame(s, f) ==
      if f.stream == 0 then
        if s.connectionSendWindow + n < TWO_31 then s.(connectionSendWindow := s.connectionSendWindow + n) else Fail(s, 3)
      else if f.stream in s.streams then
        var st := s.streams[f.stream];
        if st.sendWindow + n < TWO_31 then s.(streams := s.streams[f.stream := st.(sendWindow := st.sendWindow + n)])
        else Fail(s, 3)
      else s
  {
    hide Be32, ReadBe32, Fail;
    MaskedReads(reserved, n, []);
    assert f.payload + [] == f.payload;
  }

  /** An update of nothing resets its stream. */
  lemma NoCreditResets(s: Session, f: Frame, reserved: bool)
    requires f.kind == WINDOW_UPDATE && f.payload == Be32(Masked(reserved, 0)) && f.stream != 0
    ensures var s', id := HandleFrame(s, f), f.stream;
      if id !in s.streams then s' == s
      else
        && s'.streams == s.streams - {id} && s'.ended == s.ended[id := End(true, 1)] && s'.valid == s.valid
        && s'.wire == s.wire + [Frame(RST_STREAM, 0, id, Be32(1))]
  {
    hide Be32, ReadBe32, Fail, Reserved;
    MaskedReads(reserved, 0, []);
    assert f.payload + [] == f.payload;
  }

  /** May every stream's window move by `delta`? */
  predicate AllMove(s: Session, delta: int)
  {
    forall id :: id in s.streams ==> 0 <= s.streams[id].sendWindow + delta < TWO_31
  }

  /**
   A new initial window moves the window of every stream by the difference, exactly if all of them stay in range;
   otherwise the session ends with FLOW_CONTROL_ERROR. It is acknowledged in either case.
   */
  lemma InitialWindowTaken(s: Session, f: Frame, value: nat)
    requires f.kind == SETTINGS && f.flags == 0 && value < TWO_32 && f.payload == [0, 4] + Be32(value) && s.valid
    ensures var s', delta := HandleFrame(s, f), value - s.remoteInitialWindow;
      if value < TWO_31 && AllMove(s, delta) then
        && s'.valid && s'.streams.Keys == s.streams.Keys && s'.remoteInitialWindow == value
        && (forall id :: id in s.streams ==>
             s'.streams[id] == s.streams[id].(sendWindow := s.streams[id].sendWindow + delta))
        && s'.wire == s.wire + [Frame(SETTINGS, 1, 0, [])] && s'.connectionSendWindow == s.connectionSendWindow
      else
        && !s'.valid && s'.streams == map[]
        && s'.wire == s.wire + [Frame(GOAWAY, 0, 0, Be32(0) + Be32(3)), Frame(SETTINGS, 1, 0, [])]
  {
    hide Be32, ReadBe32, Fail, ApplyInitialWindowSize;
    var payload := f.payload;
    assert payload[2..6] == Be32(value) && payload[6..] == [];
    Be32RoundTrip(value, []);
    assert Be32(value) + [] == Be32(value);
    assert ApplySettings(s, payload) == Outcome(ApplyInitialWindowSize(s, value), true);
    InitialWindowMoves(s, value);
  }

  lemma InitialWindowMoves(s: Session, value: nat)
    requires s.valid
    ensures var s', delta := ApplyInitialWindowSize(s, value), value - s.remoteInitialWindow;
      if value < TWO_31 && AllMove(s, delta) then
        && s'.valid && s'.streams.Keys == s.streams.Keys && s'.remoteInitialWindow == value
        && (forall id :: id in s.streams ==>
             s'.streams[id] == s.streams[id].(sendWindow := s.streams[id].sendWindow + delta))
        && s'.wire == s.wire && s'.connectionSendWindow == s.connectionSendWindow
      else !s'.valid && s'.streams == map[] && s'.wire == s.wire + [Frame(GOAWAY, 0, 0, Be32(0) + Be32(3))]
  {
    hide Be32, Fail;
    FailAnnounces(s, 3);
    FailAnnounces(s.(remoteInitialWindow := value), 3);
  }

  // ---------------------------------------------------------------- header blocks

  /**
   A whole header block: for an open stream what it decodes to becomes its headers, or its trailers if it has
   headers; a bad block ends the session, a block for an ended stream resets it, one for an unknown stream is dropped.
   */
  lemma BlockOutcomes(s: Session, f: Frame, block: seq<byte>)
    requires f.kind == HEADERS && f.stream != 0 && s.pending.stream == 0 && s.valid
    requires HasFlag(f.flags, END_HEADERS) && Fragment(f.flags, f.payload) == Some(block)
    ensures var s', id, b := HandleFrame(s, f), f.stream, Hpack.DecodeBlock(s.decoder, block, 0);
      if id !in s.streams then s'.streams == s.streams && s'.wire == s.wire && s'.decoder == s.decoder
      else if s.streams[id].endStream then
        s'.streams == s.streams - {id} && s'.wire == s.wire + [Frame(RST_STREAM, 0, id, Be32(5))] && s'.decoder == s.decoder
      else if b.BadBlock? then
        !s'.valid && s'.streams == map[] && s'.wire == s.wire + [Frame(GOAWAY, 0, 0, Be32(0) + Be32(9))]
      else
        && s'.streams.Keys == s.streams.Keys && s'.wire == s.wire && s'.decoder == b.table && s'.pending.stream == 0
        && s'.streams[id].endHeaders && s'.streams[id].endStream == HasFlag(f.flags, END_STREAM)
        && s'.streams[id].responseHeaders == (if s.streams[id].endHeaders then s.streams[id].responseHeaders else b.headers)
        && s'.streams[id].trailers == s.streams[id].trailers + (if s.streams[id].endHeaders then b.headers else [])
        && (forall other :: other in s.streams && other != id ==> s'.streams[other] == s.streams[other])
  {
    hide Hpack.DecodeBlock, Fragment, HasFlag, Be32, Reserved, Fail;
    var b := Hpack.DecodeBlock(s.decoder, block, 0);
    FailAnnounces(s.(pending := Pending(0, f.flags, []), decoder := b.table), 9);
  }

  // ---------------------------------------------------------------- what ends the session

  /** The session announces the error, once, and all its streams end with it. */
  lemma FailAnnounces(s: Session, code: nat)
    requires code < TWO_32
    ensures var s' := Fail(s, code);
      if !s.valid && s.goingAway then s' == s
      else
        && !s'.valid && s'.goingAway && s'.streams == map[] && s'.wire == s.wire + [Frame(GOAWAY, 0, 0, Be32(0) + Be32(code))]
        && s'.ended.Keys == s.ended.Keys + s.streams.Keys
        && (forall id :: id in s.streams ==> s'.ended[id] == End(true, code))
        && (forall id :: id in s.ended && id !in s.streams ==> s'.ended[id] == s.ended[id])
  {
    hide Reserved;
  }

  /** The code of section 7 of RFC 7540 for a frame that may not be sent as it is. */
  function Violation(s: Session, f: Frame): Option<nat>
  {
    if f.kind == SETTINGS && (if HasFlag(f.flags, ACK) then f.payload != [] else |f.payload| % 6 != 0) then Some(6)
    else if (f.kind == WINDOW_UPDATE || f.kind == RST_STREAM) && |f.payload| != 4 then Some(6)
    else if f.kind == PING && |f.payload| != 8 then Some(6)
    else if f.kind == WINDOW_UPDATE && f.stream == 0 && f.payload in {[0, 0, 0, 0], [128, 0, 0, 0]} then Some(1)
    else if f.kind in {DATA, HEADERS, CONTINUATION} && f.stream == 0 then Some(1)
    else if f.kind == HEADERS && (s.pending.stream != 0 || Fragment(f.flags, f.payload).None?) then Some(1)
    else if f.kind == CONTINUATION && s.pending.stream != f.stream then Some(1)
    else None
  }

  /** Such a frame, or one that is too large, ends the session with that code. */
  lemma ViolationEnds(s: Session, f: Frame)
    ensures |f.payload| > s.maxFrameSize ==> Receive(s, f) == Fail(s, 6)
    ensures Violation(s, f).Some? ==> HandleFrame(s, f) == Fail(s, Violation(s, f).value)
  {
    hide Fail, HasFlag, Fragment, CompleteBlock;
  }

  /** Priorities and frames of unknown types change nothing. */
  lemma UnknownIgnored(s: Session, f: Frame)
    requires f.kind == 2 || f.kind > 9
    ensures HandleFrame(s, f) == s
  {
  }

  // ---------------------------------------------------------------- making and giving up streams

  /** A new stream has the next odd number, the peer's initial window and the client's, and nothing received. */
  lemma CreatedStream(s: Session)
    requires CanCreate(s) && s.nextStreamId !in s.streams
    ensures var s', id := Create(s), s.nextStreamId;
      && s'.streams.Keys == s.streams.Keys + {id} && s'.nextStreamId == id + 2 && s'.wire == s.wire && s'.ended == s.ended
      && s'.streams[id] == StreamState(s.remoteInitialWindow, 65535, false, false, true, [], [], [])
      && (forall other :: other in s.streams ==> s'.streams[other] == s.streams[other])
  {
  }

  /** Giving up a stream resets it on the wire, if asked to and unless the peer has ended it. */
  lemma ReleasedStream(s: Session, id: nat, rst: bool, code: nat)
    requires code < TWO_32
    ensures var s' := Release(s, id, rst, code);
      && s'.streams == s.streams - {id} && s'.valid == s.valid
      && s'.wire == s.wire + (if id in s.streams && rst && !s.streams[id].endStream then [Frame(RST_STREAM, 0, id, Be32(code))] else [])
      && s'.ended == if id in s.streams then s.ended[id := End(rst, code)] else s.ended
  {
    hide Reserved, Be32;
    assert s.wire + [] == s.wire;
  }

  /** Closing announces no error and the streams below the next number, and gives up all of them. */
  lemma ClosedSession(s: Session)
    requires 0 < s.nextStreamId <= TWO_32
    ensures var s' := Close(s);
      && !s'.valid && s'.goingAway && s'.streams == map[]
      && s'.wire == s.wire + [Frame(GOAWAY, 0, 0, Be32(s.nextStreamId - 1) + Be32(0))]
      && forall id :: id in s.streams ==> id in s'.ended && s'.ended[id] == End(true, 8)
  {
    hide Reserved, Be32;
  }

  /** When the reader stops, all streams end, cancelled, and nothing is written. */
  lemma ReaderLeaves(s: Session)
    ensures var s' := ReaderExit(s);
      && !s'.valid && s'.streams == map[] && s'.wire == s.wire && s'.goingAway == s.goingAway
      && forall id :: id in s.streams ==> id in s'.ended && s'.ended[id] == End(true, 8)
  {
    hide Reserved;
  }

  // ---------------------------------------------------------------- GOAWAY over whole runs

  /** A stream keeps its slot, unless the peer has just ended it: then the slot is given back. */
  predicate SlotKept(was: StreamState, now: StreamState)
  {
    (now.reserved == was.reserved && now.endStream == was.endStream) || (!now.reserved && now.endStream)
  }

  /** No stream appears, slots go with the streams, and neither going away nor the end of the session is taken back. */
  ghost predicate Shrinks(s: Session, s': Session)
  {
    && s'.streams.Keys <= s.streams.Keys && (s.goingAway ==> s'.goingAway) && (s'.valid ==> s.valid)
    && (!s'.goingAway ==> s'.goAwayLastStreamId == s.goAwayLastStreamId)
    && forall id :: id in s'.streams ==> SlotKept(s.streams[id], s'.streams[id])
  }

  /** Streams end in a session in which nothing else happened to any. */
  lemma EndingShrinks(s: Session, s1: Session, doomed: set<nat>, code: nat)
    requires s1.streams == s.streams && s1.valid == s.valid
    requires s1.goingAway == s.goingAway && s1.goAwayLastStreamId == s.goAwayLastStreamId
    ensures Shrinks(s, EndStreams(s1, doomed, code))
  {
    hide Reserved;
  }

  lemma FailShrinks(s: Session, code: nat)
    requires code < TWO_32
    ensures Shrinks(s, Fail(s, code))
  {
    hide Reserved;
  }

  lemma {:induction false} SettingsShrink(s: Session, payload: seq<byte>)
    ensures Shrinks(s, ApplySettings(s, payload).s)
    decreases |payload|
  {
    hide Fail, ApplySetting;
    if |payload| >= 6 {
      var key, value := payload[0] as int * 256 + payload[1] as int, ReadBe32(payload[2..6]);
      SettingShrinks(s, key, value);
      SettingsShrink(ApplySetting(s, key, value).s, payload[6..]);
    }
  }

  lemma SettingShrinks(s: Session, key: nat, value: nat)
    requires value < TWO_32
    ensures Shrinks(s, ApplySetting(s, key, value).s)
  {
    hide Fail, Resize;
    FailShrinks(s, PROTOCOL_ERROR);
    FailShrinks(s, FLOW_CONTROL_ERROR);
    FailShrinks(s.(remoteInitialWindow := value), FLOW_CONTROL_ERROR);
  }

  /** One stream stores something, and the peer may end it. */
  lemma StoringShrinks(s: Session, s1: Session, id: nat)
    requires id in s.streams && s1.streams.Keys == s.streams.Keys && s1.valid == s.valid
    requires s1.goingAway == s.goingAway && s1.goAwayLastStreamId == s.goAwayLastStreamId
    requires forall other :: other in s.streams && other != id ==> s1.streams[other] == s.streams[other]
    requires s1.streams[id].reserved == s.streams[id].reserved && s1.streams[id].endStream == s.streams[id].endStream
    ensures Shrinks(s, s1) && Shrinks(s, CloseRemote(s1, id))
  {
    hide Reserved;
  }

  lemma CompleteBlockShrinks(s: Session, endStream: bool)
    ensures Shrinks(s, CompleteBlock(s, endStream))
  {
    hide Reserved, Hpack.DecodeBlock, Fail, CloseRemote, EndStreams;
    var b := Hpack.DecodeBlock(s.decoder, s.pending.buffer, 0);
    var s2 := s.(pending := Pending(0, s.pending.flags, []), decoder := b.table);
    FailShrinks(s2, COMPRESSION_ERROR);
    var id := s.pending.stream;
    EndingShrinks(s, Emit(s.(pending := Pending(0, s.pending.flags, [])), RstFrame(id, STREAM_CLOSED)), {id}, STREAM_CLOSED);
    if id in s.streams && !s.streams[id].endStream && !b.BadBlock? {
      var st := s.streams[id];
      var st1 := if st.endHeaders then st.(trailers := st.trailers + b.headers)
                 else st.(endHeaders := true, responseHeaders := b.headers);
      StoringShrinks(s, s2.(streams := s2.streams[id := st1]), id);
    }
  }

  lemma BlocksShrink(s: Session, f: Frame)
    requires f.kind == HEADERS || f.kind == CONTINUATION
    ensures Shrinks(s, HandleFrame(s, f))
  {
    hide HasFlag, Fragment, CompleteBlock, Fail;
    FailShrinks(s, PROTOCOL_ERROR);
    if f.kind == HEADERS {
      var fragment := Fragment(f.flags, f.payload);
      if fragment.Some? {
        CompleteBlockShrinks(s.(pending := Pending(f.stream, f.flags, fragment.value)), HasFlag(f.flags, END_STREAM));
      }
    } else {
      var kept := WithFlag(s.pending.flags, END_HEADERS, HasFlag(f.flags, END_HEADERS));
      var merged := if HasFlag(f.flags, END_STREAM) then WithFlag(kept, END_STREAM, true) else kept;
      CompleteBlockShrinks(s.(pending := Pending(f.stream, merged, s.pending.buffer + f.payload)), HasFlag(merged, END_STREAM));
    }
  }

  lemma DataShrinks(s: Session, f: Frame)
    requires f.kind == DATA
    ensures Shrinks(s, HandleFrame(s, f))
  {
    hide Reserved, HasFlag, Fail, RefillFrames, Refill, Unpad, CloseRemote, EndStreams;
    var conn := s.connectionRecvWindow - |f.payload|;
    FailShrinks(s, PROTOCOL_ERROR);
    FailShrinks(s.(connectionRecvWindow := conn), FLOW_CONTROL_ERROR);
    var id, data := f.stream, Unpad(f.flags, f.payload);
    EndingShrinks(s, Emit(s.(connectionRecvWindow := conn), RstFrame(id, STREAM_CLOSED)), {id}, STREAM_CLOSED);
    if id in s.streams && data.Some? && conn >= 0 && s.streams[id].recvWindow >= |f.payload| {
      var st := s.streams[id];
      var window := st.recvWindow - |f.payload|;
      var st1 := st.(body := st.body + data.value, recvWindow := Refill(window));
      StoringShrinks(s, s.(streams := s.streams[id := st1], connectionRecvWindow := Refill(conn),
                           wire := s.wire + RefillFrames(0, conn) + RefillFrames(id, window)), id);
    }
  }

  lemma SettingsFrameShrinks(s: Session, f: Frame)
    requires f.kind == SETTINGS
    ensures Shrinks(s, HandleFrame(s, f))
  {
    hide HasFlag, Fail, ApplySettings;
    FailShrinks(s, FRAME_SIZE_ERROR);
    SettingsShrink(s, f.payload);
  }

  lemma EndingsShrink(s: Session, f: Frame)
    requires f.kind in {GOAWAY, RST_STREAM, PUSH_PROMISE}
    ensures Shrinks(s, HandleFrame(s, f))
  {
    hide Reserved, ReadBe32, HasFlag, Fail, OnSettings, OnHeaders, OnContinuation, OnData, OnWindowUpdate, OnPing;
    FailShrinks(s, PROTOCOL_ERROR);
    FailShrinks(s, FRAME_SIZE_ERROR);
  }

  lemma OthersShrink(s: Session, f: Frame)
    requires f.kind !in {HEADERS, CONTINUATION, DATA, SETTINGS, GOAWAY, RST_STREAM, PUSH_PROMISE}
    ensures Shrinks(s, HandleFrame(s, f))
  {
    hide Reserved, ReadBe32, HasFlag, Fail, OnSettings, OnHeaders, OnContinuation, OnData, OnGoAway, OnRstStream, OnPushPromise;
    FailShrinks(s, PROTOCOL_ERROR);
    FailShrinks(s, FLOW_CONTROL_ERROR);
    FailShrinks(s, FRAME_SIZE_ERROR);
  }

  lemma ReceiveShrinks(s: Session, f: Frame)
    ensures Shrinks(s, Receive(s, f))
  {
    hide HandleFrame, Fail;
    FailShrinks(s, FRAME_SIZE_ERROR);
    if f.kind == HEADERS || f.kind == CONTINUATION { BlocksShrink(s, f); }
    else if f.kind == DATA { DataShrinks(s, f); }
    else if f.kind == SETTINGS { SettingsFrameShrinks(s, f); }
    else if f.kind in {GOAWAY, RST_STREAM, PUSH_PROMISE} { EndingsShrink(s, f); }
    else { OthersShrink(s, f); }
  }

  /** No stream above `last`, and none to come. */
  ghost predicate Capped(s: Session, last: nat)
  {
    (s.goingAway || !s.valid) && forall id :: id in s.streams ==> id <= last
  }

  lemma StepCapped(c: Conn, a: Action, last: nat)
    requires Enabled(c, a) && Capped(c.s, last)
    ensures Capped(Step(c, a).s, last)
  {
    hide Receive, Reserved;
    if a.ReceiveFrame? { ReceiveShrinks(c.s, a.frame); }
  }

  /** In every run, once a GOAWAY has named its last stream no stream above that lives, however the run goes on. */
  lemma {:induction false} GoAwayHonoured(run: seq<Action>, k: nat, reserved: bool, last: nat, code: nat, debug: seq<byte>)
    requires Legal(run) && k < |run| && last < TWO_31 && code < TWO_32
    requires run[k].ReceiveFrame? && run[k].frame.kind == GOAWAY && run[k].frame.payload == GoAway(reserved, last, code, debug)
    ensures Capped(After(run).s, last)
    decreases |run|
  {
    hide Step, Capped, HandleFrame;
    var before, a := run[..|run| - 1], run[|run| - 1];
    var c := After(before);
    if k < |before| {
      GoAwayHonoured(before, k, reserved, last, code, debug);
      StepCapped(c, a, last);
    } else {
      GoAwayCaps(c, a.frame, reserved, last, code, debug);
    }
  }

  lemma GoAwayCaps(c: Conn, f: Frame, reserved: bool, last: nat, code: nat, debug: seq<byte>)
    requires last < TWO_31 && code < TWO_32 && f.kind == GOAWAY && f.payload == GoAway(reserved, last, code, debug)
    requires c.s.valid
    ensures Capped(Step(c, ReceiveFrame(f)).s, last)
  {
    hide HandleFrame, GoAway, Fail;
    GoAwayEnds(c.s, f, reserved, last, code, debug);
    FailAnnounces(c.s, FRAME_SIZE_ERROR);
  }

  // ---------------------------------------------------------------- slots over whole runs

  /** Streams that the peer has not ended. */
  function Open(s: Session): set<nat>
  {
    set id | id in s.streams && !s.streams[id].endStream
  }

  /** A stream holds a slot until the peer ends it; all numbers are allowed until a GOAWAY says otherwise. */
  ghost predicate Slotted(s: Session)
  {
    && (forall id :: id in s.streams ==> (s.streams[id].reserved <==> !s.streams[id].endStream))
    && (!s.goingAway ==> s.goAwayLastStreamId == TWO_32 - 1)
  }

  lemma StepSlotted(c: Conn, a: Action)
    requires Enabled(c, a) && Slotted(c.s)
    ensures Slotted(Step(c, a).s)
  {
    hide Receive, Reserved;
    if a.ReceiveFrame? { ReceiveShrinks(c.s, a.frame); }
  }

  /**
   In every run the slots in use are those of exactly the streams that the peer has not ended, and a stream can be
   opened exactly when the session is alive, no GOAWAY has come and fewer of these than the peer allows are left.
   */
  lemma {:induction false} SlotsExactly(run: seq<Action>)
    requires Legal(run)
    ensures Slotted(After(run).s) && After(run).s.activeStreamCount == |Open(After(run).s)|
    ensures var s := After(run).s;
      CanCreate(s) <==> s.valid && !s.goingAway && |Open(s)| < s.maxConcurrentStreams && s.nextStreamId < TWO_32
    decreases |run|
  {
    hide Step, Enabled, Handled;
    if run != [] {
      SlotsExactly(run[..|run| - 1]);
      StepSlotted(After(run[..|run| - 1]), run[|run| - 1]);
    }
    var s := After(run).s;
    InvHolds(run);
    assert Reserved(s.streams) == Open(s);
  }
}
