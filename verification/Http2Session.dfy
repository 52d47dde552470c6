/**
 The client session of HTTP/2 as a state and one function per frame handler.

 A handler is one atomic step.  `wire` records the frames handed to the connection; `ended`
 records how each stream that left the table ended.
 */
module Http2Session {
  import opened Bytes
  import opened Http2Frames
  import opened HpackTable
  import Hpack

  const DEFAULT_WINDOW: int := 65535
  const MAX_WINDOW: int := 0x7fff_ffff
  const DEFAULT_MAX_FRAME: nat := 16384

  const PROTOCOL_ERROR: nat := 1
  const FLOW_CONTROL_ERROR: nat := 3
  const STREAM_CLOSED: nat := 5
  const FRAME_SIZE_ERROR: nat := 6
  const REFUSED_STREAM: nat := 7
  const CANCEL: nat := 8
  const COMPRESSION_ERROR: nat := 9

  datatype StreamState = StreamState(
    sendWindow: int, recvWindow: int,
    endHeaders: bool, endStream: bool,
    reserved: bool,  // counts toward MAX_CONCURRENT_STREAMS
    body: seq<byte>, responseHeaders: seq<Header>, trailers: seq<Header>)

  datatype End = End(reset: bool, code: nat)

  /** A header block being collected; stream 0 means none is. */
  datatype Pending = Pending(stream: nat, flags: byte, buffer: seq<byte>)

  datatype Session = Session(
    streams: map<nat, StreamState>, ended: map<nat, End>, nextStreamId: nat,
    connectionSendWindow: int, connectionRecvWindow: int, remoteInitialWindow: int,
    maxFrameSize: nat, maxConcurrentStreams: nat, activeStreamCount: nat, goAwayLastStreamId: nat,
    valid: bool, goingAway: bool, peerSettingsSeen: bool,
    pending: Pending, encoder: Table, decoder: Table, wire: seq<Frame>)

  /** After a successful start: the client's own SETTINGS are already on the wire. */
  function Started(): Session
  {
    Session(map[], map[], 1, DEFAULT_WINDOW, DEFAULT_WINDOW, DEFAULT_WINDOW, DEFAULT_MAX_FRAME,
            TWO_32 - 1, 0, TWO_32 - 1, true, false, false, Pending(0, 0, []),
            Empty(DEFAULT_LIMIT), Empty(DEFAULT_LIMIT),
            [Frame(SETTINGS, 0, 0, [0, 2] + Be32(0) + [0, 4] + Be32(65535) + [0, 3] + Be32(100))])
  }

  function Reserved(streams: map<nat, StreamState>): set<nat>
  {
    set id | id in streams && streams[id].reserved
  }

  /** The stream counter counts the reserved streams; nothing is left once the session is invalid. */
  ghost predicate Counted(s: Session)
  {
    s.activeStreamCount == |Reserved(s.streams)| && (!s.valid ==> s.streams == map[])
  }

  // ---------------------------------------------------------------- output

  function Emit(s: Session, f: Frame): Session { s.(wire := s.wire + [f]) }

  function RstFrame(id: nat, code: nat): Frame
    requires code < TWO_32
  {
    Frame(RST_STREAM, 0, id, Be32(code))
  }

  function GoAwayFrame(code: nat): Frame
    requires code < TWO_32
  {
    Frame(GOAWAY, 0, 0, Be32(0) + Be32(code))
  }

  function WindowUpdateFrame(id: nat, increment: nat): Frame
    requires increment < TWO_32
  {
    Frame(WINDOW_UPDATE, 0, id, Be32(increment))
  }

  // ---------------------------------------------------------------- ending streams

  /** Every stream in `doomed` leaves with the same error code. */
  function EndStreams(s: Session, doomed: set<nat>, code: nat): Session
  {
    var left := map id | id in s.streams && id !in doomed :: s.streams[id];
    s.(streams := left,
       ended := s.ended + (map id | id in s.streams && id in doomed :: End(true, code)),
       activeStreamCount := |Reserved(left)|)
  }

  function Fail(s: Session, code: nat): Session
    requires code < TWO_32
  {
    if !s.valid && s.goingAway then s
    else EndStreams(Emit(s.(goingAway := true, valid := false), GoAwayFrame(code)), s.streams.Keys, code)
  }

  function Release(s: Session, id: nat, sendRst: bool, code: nat): Session
    requires code < TWO_32
  {
    if id !in s.streams then s
    else
      var rst := sendRst && !s.streams[id].endStream;
      var s1 := if rst then Emit(s, RstFrame(id, code)) else s;
      var left := s.streams - {id};
      s1.(streams := left, ended := s.ended[id := End(sendRst, code)], activeStreamCount := |Reserved(left)|)
  }

  // ---------------------------------------------------------------- creating streams

  predicate CanCreate(s: Session)
  {
    && s.activeStreamCount < s.maxConcurrentStreams
    && s.valid && !s.goingAway && s.nextStreamId <= s.goAwayLastStreamId
  }

  function NewStream(s: Session): StreamState
  {
    StreamState(s.remoteInitialWindow, DEFAULT_WINDOW, false, false, true, [], [], [])
  }

  function Create(s: Session): Session
  {
    s.(streams := s.streams[s.nextStreamId := NewStream(s)],
       nextStreamId := s.nextStreamId + 2,
       activeStreamCount := s.activeStreamCount + 1)
  }

  // ---------------------------------------------------------------- SETTINGS

  /** All windows move by the change of the initial size, or the connection fails. */
  function ApplyInitialWindowSize(s: Session, newSize: nat): Session
  {
    if newSize > MAX_WINDOW then Fail(s, FLOW_CONTROL_ERROR)
    else
      var delta := newSize - s.remoteInitialWindow;
      var s1 := s.(remoteInitialWindow := newSize);
      if exists id :: id in s.streams && !(0 <= s.streams[id].sendWindow + delta <= MAX_WINDOW) then
        Fail(s1, FLOW_CONTROL_ERROR)
      else
        s1.(streams := map id | id in s.streams :: Shifted(s.streams[id], delta))
  }

  function Shifted(st: StreamState, delta: int): StreamState
  {
    st.(sendWindow := st.sendWindow + delta)
  }

  datatype Outcome = Outcome(s: Session, done: bool)

  function ApplySetting(s: Session, id: nat, value: nat): Outcome
    requires value < TWO_32
  {
    if id == 4 then Outcome(ApplyInitialWindowSize(s, value), true)
    else if id == 5 then
      if value < 16384 || value > 16777215 then Outcome(Fail(s, PROTOCOL_ERROR), false)
      else Outcome(s.(maxFrameSize := value), true)
    else if id == 1 then Outcome(s.(encoder := Resize(s.encoder, value), decoder := Resize(s.decoder, value)), true)
    else if id == 3 then Outcome(s.(maxConcurrentStreams := value), true)
    else Outcome(s, true)
  }

  /** The parameters of a SETTINGS payload in order; a bad frame size stops the processing. */
  function ApplySettings(s: Session, payload: seq<byte>): Outcome
    decreases |payload|
  {
    if |payload| < 6 then Outcome(s, true)
    else
      var o := ApplySetting(s, payload[0] as int * 256 + payload[1] as int, ReadBe32(payload[2..6]));
      if !o.done then o else ApplySettings(o.s, payload[6..])
  }

  function OnSettings(s: Session, flags: byte, payload: seq<byte>): Session
  {
    if HasFlag(flags, ACK) then
      if payload == [] then s else Fail(s, FRAME_SIZE_ERROR)
    else if |payload| % 6 != 0 then Fail(s, FRAME_SIZE_ERROR)
    else
      var o := ApplySettings(s, payload);
      if !o.done then o.s else Emit(o.s.(peerSettingsSeen := true), Frame(SETTINGS, ACK, 0, []))
  }

  // ---------------------------------------------------------------- WINDOW_UPDATE

  function Increment(payload: seq<byte>): nat
    requires |payload| == 4
  {
    ReadBe32(payload) % TWO_31
  }

  function OnWindowUpdate(s: Session, id: nat, payload: seq<byte>): Session
  {
    if |payload| != 4 then Fail(s, FRAME_SIZE_ERROR)
    else
      var increment := Increment(payload);
      if increment == 0 then
        if id == 0 then Fail(s, PROTOCOL_ERROR)
        else if id in s.streams then
          EndStreams(Emit(s, RstFrame(id, PROTOCOL_ERROR)), {id}, PROTOCOL_ERROR)
        else s
      else if id == 0 then
        if s.connectionSendWindow + increment > MAX_WINDOW then Fail(s, FLOW_CONTROL_ERROR)
        else s.(connectionSendWindow := s.connectionSendWindow + increment)
      else if id in s.streams then
        if s.streams[id].sendWindow + increment > MAX_WINDOW then Fail(s, FLOW_CONTROL_ERROR)
        else s.(streams := s.streams[id := Shifted(s.streams[id], increment)])
      else s
  }

  // ---------------------------------------------------------------- PING, GOAWAY, RST_STREAM, PUSH_PROMISE

  function OnPing(s: Session, flags: byte, payload: seq<byte>): Session
  {
    if |payload| != 8 then Fail(s, FRAME_SIZE_ERROR)
    else if HasFlag(flags, ACK) then s
    else Emit(s, Frame(PING, ACK, 0, payload))
  }

  function OnGoAway(s: Session, payload: seq<byte>): Session
  {
    if |payload| >= 8 then
      var last := ReadBe32(payload) % TWO_31;
      EndStreams(s.(goingAway := true, goAwayLastStreamId := last),
                 (set id | id in s.streams && id > last), ReadBe32(payload[4..]))
    else EndStreams(s.(goingAway := true, valid := false), s.streams.Keys, CANCEL)
  }

  function OnRstStream(s: Session, id: nat, payload: seq<byte>): Session
  {
    if |payload| != 4 then Fail(s, FRAME_SIZE_ERROR)
    else if id in s.streams then EndStreams(s, {id}, ReadBe32(payload))
    else s
  }

  /** Pushed streams are always refused. */
  function OnPushPromise(s: Session, flags: byte, payload: seq<byte>): Session
  {
    if |payload| < 4 then s
    else
      var offset := if HasFlag(flags, PADDED) then 1 else 0;
      if |payload| < offset + 4 then Fail(s, PROTOCOL_ERROR)
      else
        var promised := ReadBe32(payload[offset..]) % TWO_31;
        if promised == 0 then s else Emit(s, RstFrame(promised, REFUSED_STREAM))
  }

  // ---------------------------------------------------------------- HEADERS and CONTINUATION

  /** Drops the padding and the priority fields of a HEADERS payload; None if they do not fit. */
  function Fragment(flags: byte, payload: seq<byte>): Option<seq<byte>>
  {
    if HasFlag(flags, PADDED) && (payload == [] || 1 + payload[0] as int > |payload|) then None
    else
      var inner := if HasFlag(flags, PADDED) then payload[1..|payload| - payload[0] as int] else payload;
      if !HasFlag(flags, PRIORITY_FLAG) then Some(inner)
      else if |inner| < 5 then None
      else Some(inner[5..])
  }

  ghost function OnHeaders(s: Session, flags: byte, id: nat, payload: seq<byte>): Session
  {
    if id == 0 || s.pending.stream != 0 then Fail(s, PROTOCOL_ERROR)
    else
      match Fragment(flags, payload)
      case None => Fail(s, PROTOCOL_ERROR)
      case Some(fragment) =>
        var s1 := s.(pending := Pending(id, flags, fragment));
        if HasFlag(flags, END_HEADERS) then CompleteBlock(s1, HasFlag(flags, END_STREAM)) else s1
  }

  ghost function OnContinuation(s: Session, flags: byte, id: nat, payload: seq<byte>): Session
  {
    hide CompleteBlock, Fail, HasFlag, WithFlag;
    if id == 0 || id != s.pending.stream then Fail(s, PROTOCOL_ERROR)
    else
      var kept := WithFlag(s.pending.flags, END_HEADERS, HasFlag(flags, END_HEADERS));
      var merged := if HasFlag(flags, END_STREAM) then WithFlag(kept, END_STREAM, true) else kept;
      var s1 := s.(pending := Pending(id, merged, s.pending.buffer + payload));
      if HasFlag(merged, END_HEADERS) then CompleteBlock(s1, HasFlag(merged, END_STREAM)) else s1
  }

  /** The collected block is decoded and delivered; blocks of unknown streams are dropped unread. */
  ghost function CompleteBlock(s: Session, endStream: bool): Session
  {
    var id := s.pending.stream;
    var s1 := s.(pending := Pending(0, s.pending.flags, []));
    if id !in s.streams then s1
    else
      var st := s.streams[id];
      if st.endStream then EndStreams(Emit(s1, RstFrame(id, STREAM_CLOSED)), {id}, STREAM_CLOSED)
      else
        var b := Hpack.DecodeBlock(s.decoder, s.pending.buffer, 0);
        var s2 := s1.(decoder := b.table);
        if b.BadBlock? then Fail(s2, COMPRESSION_ERROR)
        else
          var st1 := if st.endHeaders then st.(trailers := st.trailers + b.headers)
                     else st.(endHeaders := true, responseHeaders := b.headers);
          var s3 := s2.(streams := s2.streams[id := st1]);
          if endStream then CloseRemote(s3, id) else s3
  }

  /** END_STREAM was received: the stream stays in the table but frees its slot. */
  function CloseRemote(s: Session, id: nat): Session
    requires id in s.streams
  {
    var closed := s.streams[id := s.streams[id].(endStream := true, reserved := false)];
    s.(streams := closed, activeStreamCount := |Reserved(closed)|)
  }

  // ---------------------------------------------------------------- DATA

  /** A receive window below half is refilled completely. */
  function Refill(window: int): int
  {
    if window < DEFAULT_WINDOW / 2 then DEFAULT_WINDOW else window
  }

  function RefillFrames(id: nat, window: int): seq<Frame>
    requires 0 <= window
  {
    if window < DEFAULT_WINDOW / 2 then [WindowUpdateFrame(id, DEFAULT_WINDOW - window)] else []
  }

  /** The payload without padding; None if the padding does not fit. */
  function Unpad(flags: byte, payload: seq<byte>): Option<seq<byte>>
  {
    if !HasFlag(flags, PADDED) then Some(payload)
    else if payload == [] || 1 + payload[0] as int > |payload| then None
    else Some(payload[1..|payload| - payload[0] as int])
  }

  function OnData(s: Session, flags: byte, id: nat, payload: seq<byte>): Session
  {
    var conn := s.connectionRecvWindow - |payload|;
    if id == 0 then Fail(s, PROTOCOL_ERROR)
    else if id !in s.streams then
      if conn < 0 then Fail(s.(connectionRecvWindow := conn), FLOW_CONTROL_ERROR)
      else s.(connectionRecvWindow := Refill(conn), wire := s.wire + RefillFrames(0, conn))
    else if s.streams[id].endStream then
      var s1 := s.(connectionRecvWindow := conn);
      if conn < 0 then Fail(s1, FLOW_CONTROL_ERROR)
      else EndStreams(Emit(s1, RstFrame(id, STREAM_CLOSED)), {id}, STREAM_CLOSED)
    else
      match Unpad(flags, payload)
      case None => Fail(s, PROTOCOL_ERROR)
      case Some(data) =>
        var st := s.streams[id];
        var window := st.recvWindow - |payload|;
        if conn < 0 || window < 0 then Fail(s.(connectionRecvWindow := conn), FLOW_CONTROL_ERROR)
        else
          var st1 := st.(body := st.body + data, recvWindow := Refill(window));
          var s1 := s.(streams := s.streams[id := st1], connectionRecvWindow := Refill(conn),
                       wire := s.wire + RefillFrames(0, conn) + RefillFrames(id, window));
          if HasFlag(flags, END_STREAM) then CloseRemote(s1, id) else s1
  }

  // ---------------------------------------------------------------- dispatch

  ghost function HandleFrame(s: Session, f: Frame): Session
  {
    if f.kind == SETTINGS then OnSettings(s, f.flags, f.payload)
    else if f.kind == WINDOW_UPDATE then OnWindowUpdate(s, f.stream, f.payload)
    else if f.kind == PING then OnPing(s, f.flags, f.payload)
    else if f.kind == GOAWAY then OnGoAway(s, f.payload)
    else if f.kind == RST_STREAM then OnRstStream(s, f.stream, f.payload)
    else if f.kind == PUSH_PROMISE then OnPushPromise(s, f.flags, f.payload)
    else if f.kind == HEADERS then OnHeaders(s, f.flags, f.stream, f.payload)
    else if f.kind == CONTINUATION then OnContinuation(s, f.flags, f.stream, f.payload)
    else if f.kind == DATA then OnData(s, f.flags, f.stream, f.payload)
    else s
  }

  /** One turn of the reader: frames larger than the peer's frame size end the connection. */
  ghost function Receive(s: Session, f: Frame): Session
  {
    if |f.payload| > s.maxFrameSize then Fail(s, FRAME_SIZE_ERROR) else HandleFrame(s, f)
  }

  /** The reader loop ended, or the user closed the session. */
  function ReaderExit(s: Session): Session
  {
    EndStreams(s.(valid := false), s.streams.Keys, CANCEL)
  }

  function Close(s: Session): Session
  {
    EndStreams(Emit(s.(goingAway := true, valid := false), Frame(GOAWAY, 0, 0, Be32(LastStreamId(s)) + Be32(0))),
               s.streams.Keys, CANCEL)
  }

  function LastStreamId(s: Session): (n: nat)
    ensures n < TWO_32
  {
    if s.nextStreamId > 0 then (s.nextStreamId - 1) % TWO_32 else 0
  }

  // ---------------------------------------------------------------- debits

  /** The two subtractions after a DATA frame was sent; a stream that has left the table keeps no window here. */
  function Debit(s: Session, id: nat, n: nat): Session
  {
    var s1 := s.(connectionSendWindow := s.connectionSendWindow - n);
    if id in s.streams then s1.(streams := s.streams[id := Shifted(s.streams[id], 0 - n)]) else s1
  }
}
