/**
 Runs of a client session: frames arriving, streams being created and released, and DATA being
 sent, in any interleaving.

 Sending is split as in the source: the window check lets a DATA frame go out (`BeginSend`), and
 only when the write has returned are the windows debited (`EndSend`); anything may happen in
 between.  The windows are accounted for by folds over the run and over the wire alone.
 */
module Http2Runs {
  import opened Bytes
  import opened Http2Frames
  import opened Http2Session
  import opened HpackTable
  import Hpack

  // ---------------------------------------------------------------- the machine

  datatype Action =
    | CreateStream(id: nat)
    | ReceiveFrame(frame: Frame)
    | BeginSend(id: nat, data: seq<byte>, last: bool)
    | EndSend(id: nat)
    | AbandonSend(id: nat)
    | ReleaseStream(id: nat, rst: bool, code: nat)
    | ReaderExits
    | CloseSession

  /** A session and, per stream, the DATA frame that is being written right now. */
  datatype Conn = Conn(s: Session, inFlight: map<nat, Frame>)

  predicate WindowsAllow(s: Session, id: nat, n: nat)
  {
    && n <= s.maxFrameSize && n <= s.connectionSendWindow
    && (id in s.streams ==> n <= s.streams[id].sendWindow)
  }

  /** All streams ever created. */
  function Known(s: Session): set<nat> { s.streams.Keys + s.ended.Keys }

  predicate Enabled(c: Conn, a: Action)
  {
    match a
    case CreateStream(id) => CanCreate(c.s) && id == c.s.nextStreamId
    case ReceiveFrame(_) => c.s.valid
    case BeginSend(id, data, _) =>
      id in Known(c.s) && id !in c.inFlight && (data == [] || WindowsAllow(c.s, id, |data|))
    case EndSend(id) => id in c.inFlight
    case AbandonSend(id) => id in c.inFlight
    case ReleaseStream(_, _, code) => code < TWO_32
    case ReaderExits => true
    case CloseSession => true
  }

  ghost function Step(c: Conn, a: Action): Conn
    requires Enabled(c, a)
  {
    match a
    case CreateStream(_) => c.(s := Create(c.s))
    case ReceiveFrame(f) => c.(s := Receive(c.s, f))
    case BeginSend(id, data, last) =>
      c.(inFlight := c.inFlight[id := Frame(DATA, if last then END_STREAM else 0, id, data)])
    case EndSend(id) =>
      var f := c.inFlight[id];
      Conn(Debit(Emit(c.s, f), id, |f.payload|), c.inFlight - {id})
    case AbandonSend(id) => c.(inFlight := c.inFlight - {id})
    case ReleaseStream(id, rst, code) => c.(s := Release(c.s, id, rst, code))
    case ReaderExits => c.(s := ReaderExit(c.s))
    case CloseSession => c.(s := Close(c.s))
  }

  ghost predicate Legal(run: seq<Action>)
    decreases |run|, 0
  {
    run == [] || (Legal(run[..|run| - 1]) && Enabled(After(run[..|run| - 1]), run[|run| - 1]))
  }

  /** The state a legal run leads to. */
  ghost function After(run: seq<Action>): Conn
    requires Legal(run)
    decreases |run|, 1
  {
    if run == [] then Conn(Started(), map[]) else Step(After(run[..|run| - 1]), run[|run| - 1])
  }

  // ---------------------------------------------------------------- accounts, from the run and the wire only

  /** Initial window after a SETTINGS payload. */
  function SettingsInitial(payload: seq<byte>, current: int): int
    decreases |payload|
  {
    if |payload| < 6 then current
    else SettingsInitial(payload[6..], if payload[0] == 0 && payload[1] == 4 then ReadBe32(payload[2..6]) else current)
  }

  function FrameInitial(f: Frame, current: int): int
  {
    if f.kind == SETTINGS && !HasFlag(f.flags, ACK) then SettingsInitial(f.payload, current) else current
  }

  /** Credit a received frame grants to stream `id` (0 is the connection). */
  function FrameGrant(f: Frame, id: nat): nat
  {
    if f.kind == WINDOW_UPDATE && f.stream == id && |f.payload| == 4 then Increment(f.payload) else 0
  }

  function FrameData(f: Frame, id: nat): nat
  {
    if f.kind == DATA && f.stream == id then |f.payload| else 0
  }

  function FrameBody(f: Frame, id: nat): seq<byte>
  {
    if f.kind == DATA && f.stream == id && Unpad(f.flags, f.payload).Some? then Unpad(f.flags, f.payload).value else []
  }

  /** The peer's initial window in force after the run. */
  function Initial(run: seq<Action>): int
  {
    if run == [] then DEFAULT_WINDOW
    else
      var before := Initial(run[..|run| - 1]);
      match run[|run| - 1] case ReceiveFrame(f) => FrameInitial(f, before) case _ => before
  }

  /** WINDOW_UPDATE credit received for `id` since the stream was created. */
  function Granted(run: seq<Action>, id: nat): nat
  {
    if run == [] then 0
    else
      var before := Granted(run[..|run| - 1], id);
      match run[|run| - 1]
      case CreateStream(new_id) => if new_id == id then 0 else before
      case ReceiveFrame(f) => before + FrameGrant(f, id)
      case _ => before
  }

  /** DATA bytes received on `id`, padding included, since the stream was created. */
  function Received(run: seq<Action>, id: nat): nat
  {
    if run == [] then 0
    else
      var before := Received(run[..|run| - 1], id);
      match run[|run| - 1]
      case CreateStream(new_id) => if new_id == id then 0 else before
      case ReceiveFrame(f) => before + FrameData(f, id)
      case _ => before
  }

  /** DATA bytes received on any stream. */
  function ReceivedInAll(run: seq<Action>): nat
  {
    if run == [] then 0
    else
      var before := ReceivedInAll(run[..|run| - 1]);
      match run[|run| - 1] case ReceiveFrame(f) => before + FrameData(f, f.stream) case _ => before
  }

  /** What the peer sent as the body of `id`: the DATA contents in order, without padding. */
  function Body(run: seq<Action>, id: nat): seq<byte>
  {
    if run == [] then []
    else
      var before := Body(run[..|run| - 1], id);
      match run[|run| - 1]
      case CreateStream(new_id) => if new_id == id then [] else before
      case ReceiveFrame(f) => before + FrameBody(f, id)
      case _ => before
  }

  function SentData(wire: seq<Frame>, id: nat): nat
  {
    if wire == [] then 0 else FrameData(wire[0], id) + SentData(wire[1..], id)
  }

  function SentInAll(wire: seq<Frame>): nat
  {
    if wire == [] then 0 else FrameData(wire[0], wire[0].stream) + SentInAll(wire[1..])
  }

  function SentGrants(wire: seq<Frame>, id: nat): nat
  {
    if wire == [] then 0 else FrameGrant(wire[0], id) + SentGrants(wire[1..], id)
  }

  lemma {:induction false} SentAppend(a: seq<Frame>, b: seq<Frame>, id: nat)
    ensures SentData(a + b, id) == SentData(a, id) + SentData(b, id)
    ensures SentInAll(a + b) == SentInAll(a) + SentInAll(b)
    ensures SentGrants(a + b, id) == SentGrants(a, id) + SentGrants(b, id)
  {
    if a == [] {
      assert a + b == b;
    } else {
      assert (a + b)[1..] == a[1..] + b;
      SentAppend(a[1..], b, id);
    }
  }

  /** Frames that carry neither DATA nor credit. */
  ghost predicate Neutral(wire: seq<Frame>)
  {
    forall i :: 0 <= i < |wire| ==> wire[i].kind != DATA && wire[i].kind != WINDOW_UPDATE
  }

  lemma {:induction false} NeutralSendsNothing(wire: seq<Frame>, id: nat)
    requires Neutral(wire)
    ensures SentData(wire, id) == 0 && SentInAll(wire) == 0 && SentGrants(wire, id) == 0
  {
    if wire != [] { NeutralSendsNothing(wire[1..], id); }
  }

  /** DATA and credit only ever go to the connection or to streams below `bound`. */
  ghost predicate Below(wire: seq<Frame>, bound: nat)
  {
    forall i :: 0 <= i < |wire| && wire[i].kind in {DATA, WINDOW_UPDATE} ==> wire[i].stream < bound
  }

  lemma {:induction false} BelowSendsNothing(wire: seq<Frame>, bound: nat, id: nat)
    requires Below(wire, bound) && id >= bound
    ensures SentData(wire, id) == 0 && SentGrants(wire, id) == 0
  {
    if wire != [] { BelowSendsNothing(wire[1..], bound, id); }
  }

  // ---------------------------------------------------------------- the invariant

  /** Identifiers: odd, handed out in order, each either live or ended. */
  ghost predicate IdsInOrder(s: Session)
  {
    && s.nextStreamId % 2 == 1
    && s.streams.Keys !! s.ended.Keys
    && Known(s) == OddBelow(s.nextStreamId)
  }

  function OddBelow(n: nat): set<nat> { set id | 0 <= id < n && id % 2 == 1 }

  ghost predicate Ranges(s: Session)
  {
    && 0 <= s.remoteInitialWindow <= MAX_WINDOW
    && s.connectionSendWindow <= MAX_WINDOW
    && 0 <= s.connectionRecvWindow <= DEFAULT_WINDOW
    && 16384 <= s.maxFrameSize <= 16777215
    && forall id :: id in s.streams ==>
         s.streams[id].sendWindow <= MAX_WINDOW && 0 <= s.streams[id].recvWindow <= DEFAULT_WINDOW
  }

  ghost predicate SendLaw(run: seq<Action>, s: Session)
  {
    && s.remoteInitialWindow == Initial(run)
    && s.connectionSendWindow == DEFAULT_WINDOW + Granted(run, 0) - SentInAll(s.wire)
    && forall id :: id in s.streams ==>
         s.streams[id].sendWindow == Initial(run) + Granted(run, id) - SentData(s.wire, id)
  }

  ghost predicate RecvLaw(run: seq<Action>, s: Session)
  {
    && s.connectionRecvWindow == DEFAULT_WINDOW + SentGrants(s.wire, 0) - ReceivedInAll(run)
    && forall id :: id in s.streams ==>
         && s.streams[id].recvWindow == DEFAULT_WINDOW + SentGrants(s.wire, id) - Received(run, id)
         && s.streams[id].body == Body(run, id)
  }

  ghost predicate FlightPlan(c: Conn)
  {
    forall id :: id in c.inFlight ==>
      id in Known(c.s) && c.inFlight[id].kind == DATA && c.inFlight[id].stream == id
  }

  ghost predicate Inv(run: seq<Action>, c: Conn)
  {
    && Counted(c.s) && IdsInOrder(c.s) && Below(c.s.wire, c.s.nextStreamId) && FlightPlan(c)
    && (c.s.valid ==> Ranges(c.s) && SendLaw(run, c.s) && RecvLaw(run, c.s))
  }

  // ---------------------------------------------------------------- effect of one handler

  /** What an accepted frame does to the windows, stated against the frame alone. */
  ghost predicate Accepted(s: Session, f: Frame, s': Session)
  {
    s'.valid ==>
      var out := s'.wire[Min(|s.wire|, |s'.wire|)..];
      && s.valid && s.wire <= s'.wire && SentInAll(out) == 0
      && s'.remoteInitialWindow == FrameInitial(f, s.remoteInitialWindow)
      && s'.connectionSendWindow == s.connectionSendWindow + FrameGrant(f, 0)
      && s'.connectionRecvWindow == s.connectionRecvWindow - FrameData(f, f.stream) + SentGrants(out, 0)
      && Ranges(s')
      && forall id :: id in s'.streams ==> id in s.streams && StreamAccepted(s, f, s', out, id)
  }

  ghost predicate StreamAccepted(s: Session, f: Frame, s': Session, out: seq<Frame>, id: nat)
    requires id in s.streams && id in s'.streams
  {
    var st, st' := s.streams[id], s'.streams[id];
    && SentData(out, id) == 0
    && st'.sendWindow == st.sendWindow + (s'.remoteInitialWindow - s.remoteInitialWindow) + FrameGrant(f, id)
    && st'.recvWindow == st.recvWindow - FrameData(f, id) + SentGrants(out, id)
    && st'.body == st.body + FrameBody(f, id)
  }

  /** Structure every handler keeps, accepted or not. */
  ghost predicate Tidy(s: Session, s': Session)
  {
    Counted(s') && IdsInOrder(s') && s'.nextStreamId == s.nextStreamId && Below(s'.wire, s'.nextStreamId)
  }

  ghost predicate Shape(s: Session)
  {
    Counted(s) && IdsInOrder(s) && Below(s.wire, s.nextStreamId)
  }

  ghost predicate Sound(s: Session)
  {
    Shape(s) && (s.valid ==> Ranges(s))
  }

  lemma SameReserved(a: map<nat, StreamState>, b: map<nat, StreamState>)
    requires a.Keys == b.Keys && forall id :: id in a ==> a[id].reserved == b[id].reserved
    ensures Reserved(a) == Reserved(b)
  {
  }

  lemma EndStreamsTidy(s: Session, doomed: set<nat>, code: nat)
    requires IdsInOrder(s)
    ensures IdsInOrder(EndStreams(s, doomed, code))
  {
    var s' := EndStreams(s, doomed, code);
    assert Known(s') == Known(s);
  }

  /** One more frame that is neither DATA nor credit. */
  lemma EmitNeutral(s: Session, f: Frame, s': Session)
    requires f.kind != DATA && f.kind != WINDOW_UPDATE && s'.wire == s.wire + [f]
    ensures var out := s'.wire[|s.wire|..];
            && s.wire <= s'.wire && SentInAll(out) == 0
            && forall id: nat :: SentGrants(out, id) == 0 && SentData(out, id) == 0
    ensures Below(s.wire, s.nextStreamId) ==> Below(s'.wire, s.nextStreamId)
  {
    var out := s'.wire[|s.wire|..];
    assert out == [f];
    forall id: nat ensures SentGrants(out, id) == 0 && SentData(out, id) == 0 && SentInAll(out) == 0 {
      NeutralSendsNothing(out, id);
    }
  }

  lemma NothingSent(s: Session, s': Session)
    requires s'.wire == s.wire
    ensures var out := s'.wire[|s.wire|..];
            out == [] && SentInAll(out) == 0 && forall id: nat :: SentGrants(out, id) == 0 && SentData(out, id) == 0
  {
  }

  // ---------------------------------------------------------------- every handler

  lemma FailSound(s: Session, code: nat)
    requires Shape(s) && code < TWO_32
    ensures Tidy(s, Fail(s, code)) && !Fail(s, code).valid
  {
    var s' := Fail(s, code);
    if s.valid || !s.goingAway {
      var s1 := Emit(s.(goingAway := true, valid := false), GoAwayFrame(code));
      EndStreamsTidy(s1, s.streams.Keys, code);
      EmitNeutral(s, GoAwayFrame(code), s');
      assert s'.streams == map[];
    }
  }

  ghost predicate Handled(s: Session, f: Frame, s': Session)
  {
    Tidy(s, s') && Accepted(s, f, s')
  }

  /** Streams may leave; those that stay keep their windows and bodies. */
  ghost predicate SameWindows(s: Session, s': Session)
  {
    && s'.remoteInitialWindow == s.remoteInitialWindow && s'.maxFrameSize == s.maxFrameSize
    && s'.connectionSendWindow == s.connectionSendWindow && s'.connectionRecvWindow == s.connectionRecvWindow
    && forall id :: id in s'.streams ==> id in s.streams && SameStreamWindows(s.streams[id], s'.streams[id])
  }

  ghost predicate SameStreamWindows(st: StreamState, st': StreamState)
  {
    st'.sendWindow == st.sendWindow && st'.recvWindow == st.recvWindow && st'.body == st.body
  }

  lemma NeutralAccepted(s: Session, f: Frame, s': Session)
    requires Sound(s) && f.kind !in {SETTINGS, WINDOW_UPDATE, DATA}
    requires s'.valid ==> s.valid
    requires SameWindows(s, s') && (s'.wire == s.wire || exists g :: NeutralFrame(g) && s'.wire == s.wire + [g])
    ensures Accepted(s, f, s')
  {
    if s'.wire == s.wire {
      NothingSent(s, s');
    } else {
      var g :| NeutralFrame(g) && s'.wire == s.wire + [g];
      EmitNeutral(s, g, s');
    }
  }

  ghost predicate NeutralFrame(g: Frame) { g.kind != DATA && g.kind != WINDOW_UPDATE }

  /** Ending streams after at most one neutral frame. */
  lemma EndStreamsHandled(s: Session, f: Frame, s1: Session, doomed: set<nat>, code: nat)
    requires Sound(s) && s.valid && f.kind !in {SETTINGS, WINDOW_UPDATE, DATA}
    requires s1.streams == s.streams && s1.ended == s.ended && s1.nextStreamId == s.nextStreamId
    requires SameWindows(s, s1) && (s1.wire == s.wire || exists g :: NeutralFrame(g) && s1.wire == s.wire + [g])
    requires !s1.valid ==> s.streams.Keys <= doomed
    ensures Handled(s, f, EndStreams(s1, doomed, code))
  {
    var s' := EndStreams(s1, doomed, code);
    EndStreamsTidy(s1, doomed, code);
    if !s1.valid { assert s'.streams == map[]; }
    NeutralAccepted(s, f, s');
  }

  lemma PingHandled(s: Session, f: Frame)
    requires Sound(s) && s.valid && f.kind == PING
    ensures Handled(s, f, OnPing(s, f.flags, f.payload))
  {
    hide Reserved, OddBelow, Fail, SentData, SentInAll, SentGrants;
    FailSound(s, FRAME_SIZE_ERROR);
    var s' := OnPing(s, f.flags, f.payload);
    if s'.valid {
      assert s'.wire == s.wire || (NeutralFrame(Frame(PING, ACK, 0, f.payload)) && s'.wire == s.wire + [Frame(PING, ACK, 0, f.payload)]);
      NeutralAccepted(s, f, s');
    }
  }

  lemma GoAwayHandled(s: Session, f: Frame)
    requires Sound(s) && s.valid && f.kind == GOAWAY
    ensures Handled(s, f, OnGoAway(s, f.payload))
  {
    if |f.payload| >= 8 {
      var last := ReadBe32(f.payload) % TWO_31;
      EndStreamsHandled(s, f, s.(goingAway := true, goAwayLastStreamId := last),
                        (set id | id in s.streams && id > last), ReadBe32(f.payload[4..]));
    } else {
      EndStreamsHandled(s, f, s.(goingAway := true, valid := false), s.streams.Keys, CANCEL);
    }
  }

  lemma RstStreamHandled(s: Session, f: Frame)
    requires Sound(s) && s.valid && f.kind == RST_STREAM
    ensures Handled(s, f, OnRstStream(s, f.stream, f.payload))
  {
    FailSound(s, FRAME_SIZE_ERROR);
    if |f.payload| == 4 {
      if f.stream in s.streams {
        EndStreamsHandled(s, f, s, {f.stream}, ReadBe32(f.payload));
      } else {
        NeutralAccepted(s, f, s);
      }
    }
  }

  lemma PushPromiseHandled(s: Session, f: Frame)
    requires Sound(s) && s.valid && f.kind == PUSH_PROMISE
    ensures Handled(s, f, OnPushPromise(s, f.flags, f.payload))
  {
    hide Reserved, OddBelow, Fail, SentData, SentInAll, SentGrants, ReadBe32;
    FailSound(s, PROTOCOL_ERROR);
    var s' := OnPushPromise(s, f.flags, f.payload);
    if s'.valid {
      if s'.wire != s.wire {
        var g := RstFrame(ReadBe32(f.payload[if HasFlag(f.flags, PADDED) then 1 else 0..]) % TWO_31, REFUSED_STREAM);
        assert NeutralFrame(g) && s'.wire == s.wire + [g];
        EmitNeutral(s, g, s');
      }
      NeutralAccepted(s, f, s');
    }
  }

  lemma CloseRemoteTidy(s: Session, id: nat)
    requires IdsInOrder(s) && id in s.streams
    ensures IdsInOrder(CloseRemote(s, id))
  {
    assert Known(CloseRemote(s, id)) == Known(s);
  }

  lemma CompleteBlockHandled(s: Session, f: Frame, s1: Session, endStream: bool)
    requires Sound(s) && s.valid && f.kind !in {SETTINGS, WINDOW_UPDATE, DATA}
    requires s1 == s.(pending := s1.pending)
    ensures Handled(s, f, CompleteBlock(s1, endStream))
  {
    hide Hpack.DecodeBlock, SentData, SentInAll, SentGrants;
    var id := s1.pending.stream;
    var cleared := s1.(pending := Pending(0, s1.pending.flags, []));
    var s' := CompleteBlock(s1, endStream);
    if id !in s.streams {
      NeutralAccepted(s, f, s');
    } else if s.streams[id].endStream {
      var g := RstFrame(id, STREAM_CLOSED);
      assert NeutralFrame(g);
      EmitNeutral(s, g, Emit(cleared, g));
      EndStreamsHandled(s, f, Emit(cleared, g), {id}, STREAM_CLOSED);
    } else {
      var b := Hpack.DecodeBlock(s1.decoder, s1.pending.buffer, 0);
      var s2 := cleared.(decoder := b.table);
      if b.BadBlock? {
        FailSound(s2, COMPRESSION_ERROR);
      } else {
        var st := s.streams[id];
        var st1 := if st.endHeaders then st.(trailers := st.trailers + b.headers)
                   else st.(endHeaders := true, responseHeaders := b.headers);
        DeliverHandled(s, f, s2, id, st1, endStream);
      }
    }
  }

  /** A stream got headers or trailers; its windows and its slot did not change. */
  lemma DeliverHandled(s: Session, f: Frame, s2: Session, id: nat, st: StreamState, endStream: bool)
    requires Sound(s) && s.valid && f.kind !in {SETTINGS, WINDOW_UPDATE, DATA}
    requires s2 == s.(pending := s2.pending, decoder := s2.decoder) && id in s.streams
    requires SameStreamWindows(s.streams[id], st) && st.reserved == s.streams[id].reserved
    ensures var s3 := s2.(streams := s2.streams[id := st]);
            Handled(s, f, if endStream then CloseRemote(s3, id) else s3)
  {
    hide SentData, SentInAll, SentGrants;
    var s3 := s2.(streams := s2.streams[id := st]);
    var s' := if endStream then CloseRemote(s3, id) else s3;
    assert s3.streams.Keys == s.streams.Keys;
    assert Reserved(s3.streams) == Reserved(s.streams);
    if endStream { CloseRemoteTidy(s3, id); }
    NeutralAccepted(s, f, s');
  }

  lemma HeadersHandled(s: Session, f: Frame)
    requires Sound(s) && s.valid && f.kind == HEADERS
    ensures Handled(s, f, OnHeaders(s, f.flags, f.stream, f.payload))
  {
    hide CompleteBlock;
    FailSound(s, PROTOCOL_ERROR);
    if f.stream != 0 && s.pending.stream == 0 && Fragment(f.flags, f.payload).Some? {
      var s1 := s.(pending := Pending(f.stream, f.flags, Fragment(f.flags, f.payload).value));
      if HasFlag(f.flags, END_HEADERS) {
        CompleteBlockHandled(s, f, s1, HasFlag(f.flags, END_STREAM));
      } else {
        NeutralAccepted(s, f, s1);
      }
    }
  }

  lemma ContinuationHandled(s: Session, f: Frame)
    requires Sound(s) && s.valid && f.kind == CONTINUATION
    ensures Handled(s, f, OnContinuation(s, f.flags, f.stream, f.payload))
  {
    hide CompleteBlock;
    FailSound(s, PROTOCOL_ERROR);
    if f.stream != 0 && f.stream == s.pending.stream {
      var kept := WithFlag(s.pending.flags, END_HEADERS, HasFlag(f.flags, END_HEADERS));
      var merged := if HasFlag(f.flags, END_STREAM) then WithFlag(kept, END_STREAM, true) else kept;
      var s1 := s.(pending := Pending(f.stream, merged, s.pending.buffer + f.payload));
      if HasFlag(merged, END_HEADERS) {
        CompleteBlockHandled(s, f, s1, HasFlag(merged, END_STREAM));
      } else {
        NeutralAccepted(s, f, s1);
      }
    }
  }

  lemma ConnectionCreditHandled(s: Session, f: Frame)
    requires Sound(s) && s.valid && f.kind == WINDOW_UPDATE && f.stream == 0 && |f.payload| == 4
    requires s.connectionSendWindow + Increment(f.payload) <= MAX_WINDOW
    ensures Handled(s, f, s.(connectionSendWindow := s.connectionSendWindow + Increment(f.payload)))
  {
    hide SentData, SentInAll, SentGrants, ReadBe32, Reserved;
    assert 0 !in Known(s);
    var s' := s.(connectionSendWindow := s.connectionSendWindow + Increment(f.payload));
    NothingSent(s, s');
  }

  lemma StreamCreditHandled(s: Session, f: Frame)
    requires Sound(s) && s.valid && f.kind == WINDOW_UPDATE && f.stream != 0 && |f.payload| == 4
    requires f.stream in s.streams && s.streams[f.stream].sendWindow + Increment(f.payload) <= MAX_WINDOW
    ensures Handled(s, f, s.(streams := s.streams[f.stream := Shifted(s.streams[f.stream], Increment(f.payload))]))
  {
    hide SentData, SentInAll, SentGrants, ReadBe32, Reserved, OddBelow;
    var s' := s.(streams := s.streams[f.stream := Shifted(s.streams[f.stream], Increment(f.payload))]);
    NothingSent(s, s');
    assert s'.streams.Keys == s.streams.Keys;
    SameReserved(s.streams, s'.streams);
  }

  lemma WindowUpdateHandled(s: Session, f: Frame)
    requires Sound(s) && s.valid && f.kind == WINDOW_UPDATE
    ensures Handled(s, f, OnWindowUpdate(s, f.stream, f.payload))
  {
    hide SentData, SentInAll, SentGrants, ReadBe32, Reserved, OddBelow, Fail, Below;
    var id := f.stream;
    FailSound(s, FRAME_SIZE_ERROR);
    FailSound(s, PROTOCOL_ERROR);
    FailSound(s, FLOW_CONTROL_ERROR);
    var s' := OnWindowUpdate(s, id, f.payload);
    if |f.payload| == 4 && s'.valid {
      if Increment(f.payload) != 0 && id == 0 {
        ConnectionCreditHandled(s, f);
      } else if Increment(f.payload) != 0 && id in s.streams {
        StreamCreditHandled(s, f);
      } else if id in s.streams {
        ZeroCreditHandled(s, f);
      } else {
        assert s' == s;
        NothingSent(s, s);
      }
    }
  }

  lemma ZeroCreditHandled(s: Session, f: Frame)
    requires Sound(s) && s.valid && f.kind == WINDOW_UPDATE && |f.payload| == 4 && Increment(f.payload) == 0
    requires f.stream in s.streams
    ensures Handled(s, f, EndStreams(Emit(s, RstFrame(f.stream, PROTOCOL_ERROR)), {f.stream}, PROTOCOL_ERROR))
  {
    hide SentData, SentInAll, SentGrants, ReadBe32, Reserved, OddBelow;
    var g := RstFrame(f.stream, PROTOCOL_ERROR);
    EndStreamsTidy(Emit(s, g), {f.stream}, PROTOCOL_ERROR);
    EmitNeutral(s, g, EndStreams(Emit(s, g), {f.stream}, PROTOCOL_ERROR));
  }

  // ---------------------------------------------------------------- SETTINGS

  /** Settings move every window by the change of the initial size and touch no other account. */
  ghost predicate SettingsEffect(s: Session, payload: seq<byte>, s': Session)
  {
    && s'.remoteInitialWindow == SettingsInitial(payload, s.remoteInitialWindow)
    && 0 <= s'.remoteInitialWindow <= MAX_WINDOW && 16384 <= s'.maxFrameSize <= 16777215
    && s'.connectionSendWindow == s.connectionSendWindow && s'.connectionRecvWindow == s.connectionRecvWindow
    && s'.wire == s.wire && s'.streams.Keys == s.streams.Keys
    && forall id :: id in s.streams ==>
         && s'.streams[id] == Shifted(s.streams[id], s'.remoteInitialWindow - s.remoteInitialWindow)
         && s'.streams[id].sendWindow <= MAX_WINDOW
  }

  /** Same accounts and streams, except for the stream windows. */
  ghost predicate SameAccounts(s: Session, s': Session)
  {
    && s.valid && s'.wire == s.wire && s'.streams.Keys == s.streams.Keys
    && s'.connectionSendWindow == s.connectionSendWindow && s'.connectionRecvWindow == s.connectionRecvWindow
  }

  ghost predicate WindowsMoved(s: Session, s': Session, n: nat)
  {
    && SameAccounts(s, s') && n <= MAX_WINDOW && s'.remoteInitialWindow == n && s'.maxFrameSize == s.maxFrameSize
    && forall id :: id in s.streams ==> s'.streams[id] == Shifted(s.streams[id], n - s.remoteInitialWindow)
  }

  lemma InitialWindowSound(s: Session, n: nat)
    requires Sound(s)
    ensures var s' := ApplyInitialWindowSize(s, n);
            Tidy(s, s') && Sound(s') && (s'.valid ==> WindowsMoved(s, s', n))
  {
    hide Reserved, OddBelow, Fail, Below;
    FailSound(s, FLOW_CONTROL_ERROR);
    if n <= MAX_WINDOW {
      FailSound(s.(remoteInitialWindow := n), FLOW_CONTROL_ERROR);
      if forall id :: id in s.streams ==> 0 <= s.streams[id].sendWindow + (n - s.remoteInitialWindow) <= MAX_WINDOW {
        ShiftAllSound(s, n);
      }
    }
  }

  lemma ShiftAllSound(s: Session, n: nat)
    requires Sound(s) && n <= MAX_WINDOW
    requires forall id :: id in s.streams ==> 0 <= s.streams[id].sendWindow + (n - s.remoteInitialWindow) <= MAX_WINDOW
    ensures var s' := s.(remoteInitialWindow := n,
                         streams := map id | id in s.streams :: Shifted(s.streams[id], n - s.remoteInitialWindow));
            Tidy(s, s') && Sound(s') && (s'.valid ==> WindowsMoved(s, s', n))
  {
    hide Reserved, OddBelow, Below;
    var delta := n - s.remoteInitialWindow;
    var moved := map id | id in s.streams :: Shifted(s.streams[id], delta);
    assert moved.Keys == s.streams.Keys;
    SameReserved(s.streams, moved);
  }

  lemma SettingSound(s: Session, id: nat, value: nat)
    requires Sound(s) && value < TWO_32
    ensures var o := ApplySetting(s, id, value);
            && Tidy(s, o.s) && Sound(o.s) && (!o.done ==> !o.s.valid)
            && (o.s.valid ==> SameAccounts(s, o.s))
            && (o.s.valid && id != 4 ==> o.s.streams == s.streams && o.s.remoteInitialWindow == s.remoteInitialWindow)
  {
    hide Resize, ApplyInitialWindowSize, Fail, Reserved, OddBelow, Below, Tidy;
    var o := ApplySetting(s, id, value);
    if id == 4 {
      InitialWindowSound(s, value);
    } else if o.done {
      SameCoreSound(s, o.s);
    } else {
      FailSound(s, PROTOCOL_ERROR);
      FailedIsSound(s, o.s);
    }
  }

  lemma FailedIsSound(s: Session, s': Session)
    requires Tidy(s, s') && !s'.valid
    ensures Sound(s')
  {
    hide Reserved, OddBelow, Below;
  }

  /** Only limits and header tables differ. */
  lemma SameCoreSound(s: Session, s': Session)
    requires Sound(s) && (s.valid ==> 16384 <= s'.maxFrameSize <= 16777215)
    requires s' == s.(maxFrameSize := s'.maxFrameSize, maxConcurrentStreams := s'.maxConcurrentStreams,
                      encoder := s'.encoder, decoder := s'.decoder)
    ensures Tidy(s, s') && Sound(s') && (s'.valid ==> SameAccounts(s, s'))
  {
    hide Reserved, OddBelow, Below;
  }

  lemma {:induction false} SettingsSound(s: Session, payload: seq<byte>)
    requires Sound(s)
    ensures var o := ApplySettings(s, payload);
            && Tidy(s, o.s) && Sound(o.s) && (!o.done ==> !o.s.valid)
            && (o.s.valid ==> s.valid && SettingsEffect(s, payload, o.s))
    decreases |payload|
  {
    hide ApplySetting, ReadBe32, ApplyInitialWindowSize, Reserved, OddBelow, Below;
    if |payload| >= 6 {
      var id, value := payload[0] as int * 256 + payload[1] as int, ReadBe32(payload[2..6]);
      SettingSound(s, id, value);
      var o := ApplySetting(s, id, value);
      if id == 4 {
        SettingInitial(s, value);
        InitialWindowSound(s, value);
      }
      if o.done { SettingsSound(o.s, payload[6..]); }
    }
  }

  lemma SettingInitial(s: Session, value: nat)
    requires value < TWO_32
    ensures ApplySetting(s, 4, value) == Outcome(ApplyInitialWindowSize(s, value), true)
  {
  }

  lemma SettingsHandled(s: Session, f: Frame)
    requires Sound(s) && s.valid && f.kind == SETTINGS
    ensures Handled(s, f, OnSettings(s, f.flags, f.payload))
  {
    hide ApplySettings, SentData, SentInAll, SentGrants, SettingsInitial, Reserved, OddBelow;
    FailSound(s, FRAME_SIZE_ERROR);
    SettingsSound(s, f.payload);
    var s' := OnSettings(s, f.flags, f.payload);
    if HasFlag(f.flags, ACK) {
      NothingSent(s, s);
    } else if |f.payload| % 6 == 0 {
      var o := ApplySettings(s, f.payload);
      var g := Frame(SETTINGS, ACK, 0, []);
      if o.done {
        assert s' == Emit(o.s.(peerSettingsSeen := true), g);
        EmitNeutral(o.s, g, s');
      }
    }
  }

  // ---------------------------------------------------------------- DATA

  lemma RefillAccount(id: nat, other: nat, window: int)
    requires 0 <= window <= DEFAULT_WINDOW
    ensures SentGrants(RefillFrames(id, window), other) == if other == id then Refill(window) - window else 0
    ensures SentData(RefillFrames(id, window), other) == 0 && SentInAll(RefillFrames(id, window)) == 0
    ensures DEFAULT_WINDOW / 2 <= Refill(window) <= DEFAULT_WINDOW
  {
    var r := RefillFrames(id, window);
    if r != [] {
      var n := DEFAULT_WINDOW - window;
      assert Be32(n) + [] == Be32(n);
      Be32RoundTrip(n, []);
      assert r[1..] == [];
    }
  }

  lemma OutputIs(s: Session, s': Session, out: seq<Frame>)
    requires s'.wire == s.wire + out
    ensures s.wire <= s'.wire && s'.wire[|s.wire|..] == out
  {
  }

  /** DATA for a stream that is not in the table is charged to the connection only. */
  lemma StrayDataHandled(s: Session, f: Frame)
    requires Sound(s) && s.valid && f.kind == DATA && f.stream != 0 && f.stream !in s.streams
    ensures Handled(s, f, OnData(s, f.flags, f.stream, f.payload))
  {
    hide SentData, SentInAll, SentGrants;
    var conn := s.connectionRecvWindow - |f.payload|;
    var s' := OnData(s, f.flags, f.stream, f.payload);
    if conn < 0 {
      FailSound(s.(connectionRecvWindow := conn), FLOW_CONTROL_ERROR);
    } else {
      OutputIs(s, s', RefillFrames(0, conn));
      forall id: nat
        ensures SentGrants(RefillFrames(0, conn), id) == if id == 0 then Refill(conn) - conn else 0
        ensures SentData(RefillFrames(0, conn), id) == 0 && SentInAll(RefillFrames(0, conn)) == 0
      {
        RefillAccount(0, id, conn);
      }
      RefillAccount(0, 0, conn);
    }
  }

  /** DATA after END_STREAM is charged to the connection, and the stream is reset. */
  lemma LateDataHandled(s: Session, f: Frame)
    requires Sound(s) && s.valid && f.kind == DATA && f.stream != 0
    requires f.stream in s.streams && s.streams[f.stream].endStream
    ensures Handled(s, f, OnData(s, f.flags, f.stream, f.payload))
  {
    hide SentData, SentInAll, SentGrants, Reserved, OddBelow;
    var conn := s.connectionRecvWindow - |f.payload|;
    var s1 := s.(connectionRecvWindow := conn);
    if conn < 0 {
      FailSound(s1, FLOW_CONTROL_ERROR);
    } else {
      var g := RstFrame(f.stream, STREAM_CLOSED);
      EndStreamsTidy(Emit(s1, g), {f.stream}, STREAM_CLOSED);
      EmitNeutral(s, g, EndStreams(Emit(s1, g), {f.stream}, STREAM_CLOSED));
    }
  }

  /** What both refills put on the wire, account by account. */
  lemma RefillsAccount(id: nat, conn: int, window: int, other: nat)
    requires id != 0 && 0 <= conn <= DEFAULT_WINDOW && 0 <= window <= DEFAULT_WINDOW
    ensures var out := RefillFrames(0, conn) + RefillFrames(id, window);
            && SentData(out, other) == 0 && SentInAll(out) == 0
            && SentGrants(out, other) ==
               if other == 0 then Refill(conn) - conn else if other == id then Refill(window) - window else 0
  {
    hide SentData, SentInAll, SentGrants;
    RefillAccount(0, other, conn);
    RefillAccount(id, other, window);
    SentAppend(RefillFrames(0, conn), RefillFrames(id, window), other);
  }

  /** The accepted case: the body grows, both windows are charged and refilled. */
  lemma LiveDataHandled(s: Session, f: Frame)
    requires Sound(s) && s.valid && f.kind == DATA && f.stream != 0
    requires f.stream in s.streams && !s.streams[f.stream].endStream
    ensures Handled(s, f, OnData(s, f.flags, f.stream, f.payload))
  {
    hide SentData, SentInAll, SentGrants, Reserved, OddBelow;
    var id := f.stream;
    var conn := s.connectionRecvWindow - |f.payload|;
    var window := s.streams[id].recvWindow - |f.payload|;
    FailSound(s, PROTOCOL_ERROR);
    FailSound(s.(connectionRecvWindow := conn), FLOW_CONTROL_ERROR);
    if Unpad(f.flags, f.payload).Some? && conn >= 0 && window >= 0 {
      ChargedDataHandled(s, f);
    }
  }

  ghost predicate Chargeable(s: Session, f: Frame)
  {
    && f.kind == DATA && f.stream != 0
    && f.stream in s.streams && !s.streams[f.stream].endStream && Unpad(f.flags, f.payload).Some?
    && |f.payload| <= s.connectionRecvWindow && |f.payload| <= s.streams[f.stream].recvWindow
  }

  /** The frames that refill the two windows after a charge. */
  ghost function Refills(s: Session, f: Frame): seq<Frame>
    requires Chargeable(s, f)
  {
    RefillFrames(0, s.connectionRecvWindow - |f.payload|)
    + RefillFrames(f.stream, s.streams[f.stream].recvWindow - |f.payload|)
  }

  /** The state after an accepted DATA frame, before END_STREAM is looked at. */
  ghost function Charged(s: Session, f: Frame): Session
    requires Chargeable(s, f)
  {
    var st := s.streams[f.stream];
    s.(streams := s.streams[f.stream := st.(body := st.body + Unpad(f.flags, f.payload).value,
                                            recvWindow := Refill(st.recvWindow - |f.payload|))],
       connectionRecvWindow := Refill(s.connectionRecvWindow - |f.payload|),
       wire := s.wire + Refills(s, f))
  }

  lemma ChargedTidy(s: Session, f: Frame)
    requires Sound(s) && s.valid && Chargeable(s, f)
    ensures Tidy(s, Charged(s, f)) && Ranges(Charged(s, f))
  {
    hide Reserved, OddBelow;
    var s1 := Charged(s, f);
    RefillAccount(0, 0, s.connectionRecvWindow - |f.payload|);
    RefillAccount(f.stream, 0, s.streams[f.stream].recvWindow - |f.payload|);
    assert s1.streams.Keys == s.streams.Keys;
    SameReserved(s.streams, s1.streams);
    KnownIsBelow(s, f.stream);
  }

  lemma ChargedStream(s: Session, f: Frame, other: nat)
    requires Sound(s) && s.valid && Chargeable(s, f) && other in s.streams
    ensures StreamAccepted(s, f, Charged(s, f), Refills(s, f), other)
  {
    hide Reserved, OddBelow, Refill, RefillFrames, SentData, SentGrants;
    KnownIsBelow(s, other);
    RefillsAccount(f.stream, s.connectionRecvWindow - |f.payload|, s.streams[f.stream].recvWindow - |f.payload|, other);
    assert s.streams[other].body + [] == s.streams[other].body;
  }

  lemma ChargedDataHandled(s: Session, f: Frame)
    requires Sound(s) && s.valid && Chargeable(s, f)
    ensures Handled(s, f, OnData(s, f.flags, f.stream, f.payload))
  {
    var s1 := Charged(s, f);
    var s' := OnData(s, f.flags, f.stream, f.payload);
    assert s' == if HasFlag(f.flags, END_STREAM) then CloseRemote(s1, f.stream) else s1 by {
      ChargedIsOnData(s, f);
    }
    hide OnData, Charged, Unpad, Reserved, OddBelow, Refill, RefillFrames, SentData, SentInAll, SentGrants;
    ChargedAccepted(s, f);
    if HasFlag(f.flags, END_STREAM) { CloseKeepsHandled(s, f, s1, f.stream); }
  }

  lemma ChargedIsOnData(s: Session, f: Frame)
    requires Chargeable(s, f)
    ensures OnData(s, f.flags, f.stream, f.payload) ==
            if HasFlag(f.flags, END_STREAM) then CloseRemote(Charged(s, f), f.stream) else Charged(s, f)
  {
    hide Reserved, Refill, RefillFrames;
    var a := RefillFrames(0, s.connectionRecvWindow - |f.payload|);
    var b := RefillFrames(f.stream, s.streams[f.stream].recvWindow - |f.payload|);
    assert s.wire + a + b == s.wire + (a + b);
  }

  lemma ChargedAccepted(s: Session, f: Frame)
    requires Sound(s) && s.valid && Chargeable(s, f)
    ensures Handled(s, f, Charged(s, f)) && Charged(s, f).valid && f.stream in Charged(s, f).streams
  {
    hide Reserved, OddBelow, Refill, RefillFrames, SentData, SentInAll, SentGrants;
    var s1 := Charged(s, f);
    ChargedTidy(s, f);
    OutputIs(s, s1, Refills(s, f));
    RefillsAccount(f.stream, s.connectionRecvWindow - |f.payload|, s.streams[f.stream].recvWindow - |f.payload|, 0);
    forall other | other in s1.streams
      ensures other in s.streams && StreamAccepted(s, f, s1, Refills(s, f), other)
    {
      ChargedStream(s, f, other);
    }
  }

  lemma CloseKeepsHandled(s: Session, f: Frame, s1: Session, id: nat)
    requires Handled(s, f, s1) && s1.valid && id in s1.streams
    ensures Handled(s, f, CloseRemote(s1, id))
  {
    hide SentData, SentInAll, SentGrants, Reserved, OddBelow;
    CloseRemoteTidy(s1, id);
    var s' := CloseRemote(s1, id);
    forall other | other in s'.streams
      ensures StreamAccepted(s, f, s', s'.wire[|s.wire|..], other)
    {
      assert StreamAccepted(s, f, s1, s1.wire[|s.wire|..], other);
    }
  }

  lemma KnownIsBelow(s: Session, id: nat)
    requires IdsInOrder(s) && id in Known(s)
    ensures 0 < id < s.nextStreamId
  {
  }

  lemma DataHandled(s: Session, f: Frame)
    requires Sound(s) && s.valid && f.kind == DATA
    ensures Handled(s, f, OnData(s, f.flags, f.stream, f.payload))
  {
    hide Reserved, OddBelow;
    FailSound(s, PROTOCOL_ERROR);
    if f.stream == 0 {
    } else if f.stream !in s.streams {
      StrayDataHandled(s, f);
    } else if s.streams[f.stream].endStream {
      LateDataHandled(s, f);
    } else {
      LiveDataHandled(s, f);
    }
  }

  /** Every frame, whatever its type and contents. */
  lemma ReceiveHandled(s: Session, f: Frame)
    requires Sound(s) && s.valid
    ensures Handled(s, f, Receive(s, f))
  {
    hide OnSettings, OnWindowUpdate, OnPing, OnGoAway, OnRstStream, OnPushPromise, OnHeaders, OnContinuation, OnData;
    hide Reserved, OddBelow, Fail, SentData, SentInAll, SentGrants;
    FailSound(s, FRAME_SIZE_ERROR);
    NothingSent(s, s);
    if f.kind == SETTINGS { SettingsHandled(s, f); }
    else if f.kind == WINDOW_UPDATE { WindowUpdateHandled(s, f); }
    else if f.kind == PING { PingHandled(s, f); }
    else if f.kind == GOAWAY { GoAwayHandled(s, f); }
    else if f.kind == RST_STREAM { RstStreamHandled(s, f); }
    else if f.kind == PUSH_PROMISE { PushPromiseHandled(s, f); }
    else if f.kind == HEADERS { HeadersHandled(s, f); }
    else if f.kind == CONTINUATION { ContinuationHandled(s, f); }
    else if f.kind == DATA { DataHandled(s, f); }
  }

  // ---------------------------------------------------------------- steps keep the invariant

  lemma StartInv()
    ensures Inv([], Conn(Started(), map[]))
  {
    var s := Started();
    assert Reserved(s.streams) == {};
    NeutralSendsNothing(s.wire, 0);
  }

  /** A run and its last action. */
  ghost predicate Extends(before: seq<Action>, a: Action, run: seq<Action>)
  {
    run != [] && run[..|run| - 1] == before && run[|run| - 1] == a
  }

  lemma CreateShape(s: Session)
    requires Shape(s) && CanCreate(s)
    ensures Shape(Create(s)) && s.nextStreamId !in Known(s) && Known(Create(s)) == Known(s) + {s.nextStreamId}
  {
    hide Reserved, OddBelow;
    var id := s.nextStreamId;
    var s' := Create(s);
    OddBelowNext(id);
    ReservedGrows(s.streams, id, NewStream(s));
    assert Known(s') == Known(s) + {id};
  }

  lemma OddBelowNext(id: nat)
    requires id % 2 == 1
    ensures OddBelow(id + 2) == OddBelow(id) + {id} && id !in OddBelow(id)
  {
    assert (id + 1) % 2 == 0;
    forall x ensures x in OddBelow(id + 2) <==> x in OddBelow(id) + {id} {
      assert x == id + 1 || x == id || x < id || x > id + 1;
    }
  }

  lemma ReservedGrows(streams: map<nat, StreamState>, id: nat, st: StreamState)
    requires id !in streams && st.reserved
    ensures |Reserved(streams[id := st])| == |Reserved(streams)| + 1
  {
    assert Reserved(streams[id := st]) == Reserved(streams) + {id};
  }

  lemma CreateInv(before: seq<Action>, c: Conn, run: seq<Action>)
    requires Inv(before, c) && CanCreate(c.s) && Extends(before, CreateStream(c.s.nextStreamId), run)
    ensures Inv(run, c.(s := Create(c.s)))
  {
    hide SentInAll, SentData, SentGrants, Reserved, OddBelow;
    var s := c.s;
    var id := s.nextStreamId;
    var s' := Create(s);
    CreateShape(s);
    BelowSendsNothing(s.wire, id, id);
    assert id != 0;
    forall other | other in s'.streams
      ensures s'.streams[other].sendWindow == Initial(run) + Granted(run, other) - SentData(s'.wire, other)
      ensures s'.streams[other].recvWindow == DEFAULT_WINDOW + SentGrants(s'.wire, other) - Received(run, other)
      ensures s'.streams[other].body == Body(run, other)
    {
      if other != id { assert s'.streams[other] == s.streams[other] && other in s.streams; }
    }
  }

  lemma ReceiveInv(before: seq<Action>, c: Conn, f: Frame, run: seq<Action>)
    requires Inv(before, c) && c.s.valid && Extends(before, ReceiveFrame(f), run)
    ensures Inv(run, c.(s := Receive(c.s, f)))
  {
    hide Receive, SentInAll, SentData, SentGrants, Reserved, OddBelow, Ranges;
    var s, s' := c.s, Receive(c.s, f);
    ReceiveHandled(s, f);
    if s'.valid {
      var out := s'.wire[|s.wire|..];
      assert s'.wire == s.wire + out;
      SentAppend(s.wire, out, 0);
      forall id | id in s'.streams
        ensures s'.streams[id].sendWindow == Initial(run) + Granted(run, id) - SentData(s'.wire, id)
        ensures s'.streams[id].recvWindow == DEFAULT_WINDOW + SentGrants(s'.wire, id) - Received(run, id)
        ensures s'.streams[id].body == Body(run, id)
      {
        SentAppend(s.wire, out, id);
        assert StreamAccepted(s, f, s', out, id);
      }
    }
    assert Known(s') == Known(s);
  }

  lemma EndSendInv(before: seq<Action>, c: Conn, id: nat, run: seq<Action>)
    requires Inv(before, c) && id in c.inFlight && Extends(before, EndSend(id), run)
    ensures Inv(run, Step(c, EndSend(id)))
  {
    hide Reserved, OddBelow, Below, SendLaw, RecvLaw, Ranges, Debit, Emit;
    var f := c.inFlight[id];
    DebitShape(c.s, f, id);
    if c.s.valid { DebitLaws(before, c.s, f, run); }
    DebitValid(c.s, f, id);
  }

  lemma DebitValid(s: Session, f: Frame, id: nat)
    ensures Debit(Emit(s, f), id, |f.payload|).valid == s.valid
    ensures Debit(Emit(s, f), id, |f.payload|).nextStreamId == s.nextStreamId
  {
  }

  lemma DebitLaws(before: seq<Action>, s: Session, f: Frame, run: seq<Action>)
    requires SendLaw(before, s) && RecvLaw(before, s) && Extends(before, EndSend(f.stream), run) && f.kind == DATA
    ensures var s' := Debit(Emit(s, f), f.stream, |f.payload|);
            SendLaw(run, s') && RecvLaw(run, s')
  {
    hide SentInAll, SentData, SentGrants, Initial, Granted, Received, ReceivedInAll, Body, Debit, Emit;
    var s' := Debit(Emit(s, f), f.stream, |f.payload|);
    SameFolds(before, EndSend(f.stream), run);
    DebitConnection(s, f);
    forall other | other in s'.streams
      ensures s'.streams[other].sendWindow == Initial(run) + Granted(run, other) - SentData(s'.wire, other)
      ensures s'.streams[other].recvWindow == DEFAULT_WINDOW + SentGrants(s'.wire, other) - Received(run, other)
      ensures s'.streams[other].body == Body(run, other)
    {
      DebitStream(s, f, other);
    }
  }

  lemma DebitConnection(s: Session, f: Frame)
    requires f.kind == DATA
    ensures var s' := Debit(Emit(s, f), f.stream, |f.payload|);
            && s'.streams.Keys == s.streams.Keys && s'.remoteInitialWindow == s.remoteInitialWindow
            && s'.connectionSendWindow == s.connectionSendWindow - |f.payload|
            && s'.connectionRecvWindow == s.connectionRecvWindow
            && SentInAll(s'.wire) == SentInAll(s.wire) + |f.payload| && SentGrants(s'.wire, 0) == SentGrants(s.wire, 0)
  {
    hide SentInAll, SentData, SentGrants;
    SentOne(f);
    SentAppend(s.wire, [f], 0);
  }

  lemma DebitStream(s: Session, f: Frame, id: nat)
    requires f.kind == DATA && id in s.streams
    ensures var s' := Debit(Emit(s, f), f.stream, |f.payload|);
            && id in s'.streams && SentGrants(s'.wire, id) == SentGrants(s.wire, id)
            && s'.streams[id].sendWindow + SentData(s'.wire, id) == s.streams[id].sendWindow + SentData(s.wire, id)
            && s'.streams[id].recvWindow == s.streams[id].recvWindow && s'.streams[id].body == s.streams[id].body
  {
    hide SentInAll, SentData, SentGrants;
    SentOne(f);
    SentAppend(s.wire, [f], id);
  }

  /** Actions other than creating a stream and receiving a frame change no account. */
  lemma SameFolds(before: seq<Action>, a: Action, run: seq<Action>)
    requires Extends(before, a, run) && !a.CreateStream? && !a.ReceiveFrame?
    ensures Initial(run) == Initial(before) && ReceivedInAll(run) == ReceivedInAll(before)
    ensures forall id: nat :: Granted(run, id) == Granted(before, id) && Received(run, id) == Received(before, id)
    ensures forall id: nat :: Body(run, id) == Body(before, id)
  {
  }

  lemma DebitShape(s: Session, f: Frame, id: nat)
    requires Shape(s) && (s.valid ==> Ranges(s)) && id in Known(s) && f.kind == DATA && f.stream == id
    ensures var s' := Debit(Emit(s, f), id, |f.payload|);
            Shape(s') && (s'.valid ==> Ranges(s')) && Known(s') == Known(s) && s'.streams.Keys == s.streams.Keys
  {
    hide Reserved, OddBelow;
    var s' := Debit(Emit(s, f), id, |f.payload|);
    KnownIsBelow(s, id);
    assert s'.streams.Keys == s.streams.Keys;
    SameReserved(s.streams, s'.streams);
  }

  lemma SentOne(f: Frame)
    requires f.kind == DATA
    ensures SentInAll([f]) == |f.payload|
    ensures forall id: nat :: SentData([f], id) == (if id == f.stream then |f.payload| else 0) && SentGrants([f], id) == 0
  {
    assert [f][1..] == [];
  }

  /** Steps that only end streams, after at most one frame without DATA or credit. */
  lemma LeavingInv(before: seq<Action>, c: Conn, a: Action, s': Session, run: seq<Action>)
    requires Inv(before, c) && Extends(before, a, run) && !a.CreateStream? && !a.ReceiveFrame?
    requires Counted(s') && IdsInOrder(s') && s'.nextStreamId == c.s.nextStreamId && (s'.valid ==> c.s.valid)
    requires SameWindows(c.s, s') && (s'.wire == c.s.wire || exists g :: NeutralFrame(g) && s'.wire == c.s.wire + [g])
    ensures Inv(run, c.(s := s'))
  {
    hide SentInAll, SentData, SentGrants, Reserved, OddBelow;
    var s := c.s;
    forall id: nat
      ensures SentData(s'.wire, id) == SentData(s.wire, id) && SentInAll(s'.wire) == SentInAll(s.wire)
      ensures SentGrants(s'.wire, id) == SentGrants(s.wire, id)
    {
      if s'.wire != s.wire {
        var g :| NeutralFrame(g) && s'.wire == s.wire + [g];
        NeutralSendsNothing([g], id);
        SentAppend(s.wire, [g], id);
      }
    }
    assert SentInAll(s'.wire) == SentInAll(s.wire) by { assert SentData(s'.wire, 0) == SentData(s.wire, 0); }
    assert Known(s') == Known(s);
  }

  lemma ReleaseInv(before: seq<Action>, c: Conn, id: nat, rst: bool, code: nat, run: seq<Action>)
    requires Inv(before, c) && code < TWO_32 && Extends(before, ReleaseStream(id, rst, code), run)
    ensures Inv(run, c.(s := Release(c.s, id, rst, code)))
  {
    hide Reserved, OddBelow;
    var s := c.s;
    var s' := Release(s, id, rst, code);
    if id in s.streams {
      assert Known(s') == Known(s);
      assert NeutralFrame(RstFrame(id, code));
      assert s'.wire == s.wire || s'.wire == s.wire + [RstFrame(id, code)];
    }
    LeavingInv(before, c, ReleaseStream(id, rst, code), s', run);
  }

  lemma ShutdownInv(before: seq<Action>, c: Conn, a: Action, run: seq<Action>)
    requires Inv(before, c) && (a.ReaderExits? || a.CloseSession?) && Extends(before, a, run)
    ensures Inv(run, Step(c, a))
  {
    hide Reserved, OddBelow, Inv;
    var s := c.s;
    var g := Frame(GOAWAY, 0, 0, Be32(LastStreamId(s)) + Be32(0));
    var s1 := if a.ReaderExits? then s.(valid := false) else Emit(s.(goingAway := true, valid := false), g);
    var s' := EndStreams(s1, s.streams.Keys, CANCEL);
    assert Step(c, a) == c.(s := s');
    assert NeutralFrame(g);
    InvTidy(before, c);
    EndStreamsTidy(s1, s.streams.Keys, CANCEL);
    NoneLeft(s1, CANCEL);
    LeavingInv(before, c, a, s', run);
  }

  lemma InvTidy(run: seq<Action>, c: Conn)
    requires Inv(run, c)
    ensures Counted(c.s) && IdsInOrder(c.s)
  {
  }

  lemma NoneLeft(s: Session, code: nat)
    ensures EndStreams(s, s.streams.Keys, code).streams == map[]
  {
    hide Reserved;
  }

  lemma {:induction false} InvHolds(run: seq<Action>)
    requires Legal(run)
    ensures Inv(run, After(run))
    decreases |run|
  {
    hide Inv, Enabled, Step;
    if run == [] {
      StartInv();
    } else {
      var before := run[..|run| - 1];
      InvHolds(before);
      StepInv(before, After(before), run[|run| - 1], run);
    }
  }

  lemma StepInv(before: seq<Action>, c: Conn, a: Action, run: seq<Action>)
    requires Inv(before, c) && Enabled(c, a) && Extends(before, a, run)
    ensures Inv(run, Step(c, a))
  {
    match a {
      case CreateStream(_) => CreateInv(before, c, run);
      case ReceiveFrame(f) => ReceiveInv(before, c, f, run);
      case EndSend(id) => EndSendInv(before, c, id, run);
      case ReleaseStream(id, rst, code) => ReleaseInv(before, c, id, rst, code, run);
      case ReaderExits => ShutdownInv(before, c, a, run);
      case CloseSession => ShutdownInv(before, c, a, run);
      case BeginSend(_, _, _) => LeavingInv(before, c, a, c.s, run);
      case AbandonSend(_) => LeavingInv(before, c, a, c.s, run);
    }
  }

  /** A run made longer by one action. */
  lemma OneMore(before: seq<Action>, a: Action)
    requires Legal(before) && Enabled(After(before), a)
    ensures Legal(before + [a]) && After(before + [a]) == Step(After(before), a)
    ensures forall id: nat :: !a.ReceiveFrame? && !(a.CreateStream? && a.id == id) ==> Granted(before + [a], id) == Granted(before, id)
  {
    hide Step, Enabled, FrameGrant;
    var run := before + [a];
    assert run[..|run| - 1] == before;
  }
}
