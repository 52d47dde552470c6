/**
 The session object: its fields are updated in place by the frame handlers, with the loops of the
 source; every method is proved to do what the corresponding function of Http2Session says.
 */
module Http2Client {
  import opened Bytes
  import opened Http2Frames
  import opened Http2Session
  import Http2Runs
  import opened HpackTable
  import Hpack
  import HpackCodec

  lemma {:induction false} EndMore(s: Session, a: set<nat>, id: nat, code: nat)
    requires id in s.streams && id !in a
    ensures EndStreams(EndStreams(s, a, code), {id}, code) == EndStreams(s, a + {id}, code)
  {
    hide Reserved;
    var one := EndStreams(EndStreams(s, a, code), {id}, code);
    var both := EndStreams(s, a + {id}, code);
    assert one.streams == both.streams by { LeftMore(s.streams, a, id); }
    EndedMore(s.streams, s.ended, a, id, code);
  }

  function Ended(streams: map<nat, StreamState>, ended: map<nat, End>, doomed: set<nat>, code: nat): map<nat, End>
  {
    ended + (map id | id in streams && id in doomed :: End(true, code))
  }

  lemma EndedMore(streams: map<nat, StreamState>, ended: map<nat, End>, a: set<nat>, id: nat, code: nat)
    requires id in streams && id !in a
    ensures Ended(Left(streams, a), Ended(streams, ended, a, code), {id}, code) == Ended(streams, ended, a + {id}, code)
  {
  }

  function Left(streams: map<nat, StreamState>, doomed: set<nat>): map<nat, StreamState>
  {
    map id | id in streams && id !in doomed :: streams[id]
  }

  lemma LeftMore(streams: map<nat, StreamState>, a: set<nat>, id: nat)
    ensures Left(Left(streams, a), {id}) == Left(streams, a + {id})
  {
  }

  lemma StillThere(s: Session, a: set<nat>, id: nat, code: nat)
    requires id in s.streams && id !in a
    ensures var e := EndStreams(s, a, code);
            id in e.streams && e.activeStreamCount == |Reserved(e.streams)|
  {
  }

  lemma ReservedWithout(streams: map<nat, StreamState>, id: nat)
    requires id in streams
    ensures |Reserved(streams - {id})| == |Reserved(streams)| - (if streams[id].reserved then 1 else 0)
  {
    if streams[id].reserved {
      assert Reserved(streams) == Reserved(streams - {id}) + {id};
    } else {
      assert Reserved(streams) == Reserved(streams - {id});
    }
  }

  /** No stream has a number that is still to be handed out. */
  ghost predicate Numbered(streams: map<nat, StreamState>, next: nat)
  {
    forall id :: id in streams ==> id < next
  }

  class Http2ClientSession {
    var streams: map<nat, StreamState>
    var ended: map<nat, End>  // the state in which a stream object was left when it went out of the table
    var nextStreamId: nat
    var connectionSendWindow: int
    var connectionRecvWindow: int
    var remoteInitialWindow: int
    var maxFrameSize: nat
    var maxConcurrentStreams: nat
    var activeStreamCount: nat
    var goAwayLastStreamId: nat
    var valid: bool
    var goingAway: bool
    var peerSettingsSeen: bool
    var headerBlockBuffer: seq<byte>
    var headerBlockStream: nat
    var headerBlockFlags: byte
    var wire: seq<Frame>
    const encoder: HpackCodec.HpackEncoder
    const decoder: HpackCodec.HpackDecoder

    ghost function View(): Session
      reads this, encoder.table, decoder.table
    {
      Session(streams, ended, nextStreamId, connectionSendWindow, connectionRecvWindow, remoteInitialWindow,
              maxFrameSize, maxConcurrentStreams, activeStreamCount, goAwayLastStreamId,
              valid, goingAway, peerSettingsSeen,
              Pending(headerBlockStream, headerBlockFlags, headerBlockBuffer),
              encoder.table.View(), decoder.table.View(), wire)
    }

    ghost predicate Valid()
      reads this, encoder.table, decoder.table
    {
      encoder.table != decoder.table && decoder.Valid() && Counted(View()) && Numbered(streams, nextStreamId)
    }

    /** A session that has just sent its preface and settings. */
    constructor ()
      ensures Valid() && fresh(encoder.table) && fresh(decoder.table) && View() == Started()
    {
      streams, ended, nextStreamId := map[], map[], 1;
      connectionSendWindow, connectionRecvWindow, remoteInitialWindow := 65535, 65535, 65535;
      maxFrameSize, maxConcurrentStreams := 16384, TWO_32 - 1;
      activeStreamCount, goAwayLastStreamId := 0, TWO_32 - 1;
      valid, goingAway, peerSettingsSeen := true, false, false;
      headerBlockBuffer, headerBlockStream, headerBlockFlags := [], 0, 0;
      wire := [Frame(SETTINGS, 0, 0, [0, 2] + Be32(0) + [0, 4] + Be32(65535) + [0, 3] + Be32(100))];
      encoder := new HpackCodec.HpackEncoder();
      decoder := new HpackCodec.HpackDecoder();
      new;
      assert Reserved(streams) == {};
    }

    method SendFrame(f: Frame)
      modifies this`wire
      ensures View() == Emit(old(View()), f)
    {
      wire := wire + [f];
    }

    // -------------------------------------------------------------- ending streams

    method FinishStreamError(id: nat, code: nat)
      requires id in streams && activeStreamCount == |Reserved(streams)|
      modifies this`streams, this`ended, this`activeStreamCount
      ensures View() == EndStreams(old(View()), {id}, code)
    {
      hide Reserved;
      ghost var goal := EndStreams(View(), {id}, code);
      ReservedWithout(streams, id);
      assert goal.streams == streams - {id};
      assert goal.ended == ended[id := End(true, code)];
      if streams[id].reserved && activeStreamCount > 0 { activeStreamCount := activeStreamCount - 1; }
      ended := ended[id := End(true, code)];
      streams := streams - {id};
    }

    /** Snapshots the streams to end, then ends them one by one. */
    method FinishStreamsWhere(code: nat, onlyAbove: bool, last: nat)
      requires activeStreamCount == |Reserved(streams)|
      modifies this`streams, this`ended, this`activeStreamCount
      ensures View() == EndStreams(old(View()), (set id | id in old(streams) && (!onlyAbove || id > last)), code)
    {
      hide Reserved, EndStreams;
      ghost var start := View();
      var doomed := set id | id in streams && (!onlyAbove || id > last);
      ghost var all := doomed;
      EndNoneShape(start, code);
      assert all - doomed == {};
      while doomed != {}
        invariant doomed <= all && View() == EndStreams(start, all - doomed, code)
        decreases |doomed|
      {
        var id :| id in doomed;
        EndMore(start, all - doomed, id, code);
        StillThere(start, all - doomed, id, code);
        assert all - (doomed - {id}) == all - doomed + {id};
        FinishStreamError(id, code);
        doomed := doomed - {id};
      }
      assert all - {} == all;
    }

    method FailConnection(code: nat)
      requires code < TWO_32 && activeStreamCount == |Reserved(streams)|
      modifies this`streams, this`ended, this`activeStreamCount, this`goingAway, this`valid, this`wire
      ensures View() == Fail(old(View()), code)
    {
      if !valid && goingAway { return; }
      goingAway := true;
      valid := false;
      SendFrame(GoAwayFrame(code));
      assert (set id | id in streams && (!false || id > 0)) == streams.Keys;
      FinishStreamsWhere(code, false, 0);
    }

    method ReleaseStream(id: nat, sendRst: bool, code: nat)
      requires Valid() && code < TWO_32
      modifies this
      ensures Valid() && View() == Release(old(View()), id, sendRst, code)
    {
      hide Reserved, HpackCodec.HpackDecoder.Valid;
      if id !in streams { return; }
      var st := streams[id];
      if sendRst && !st.endStream { SendFrame(RstFrame(id, code)); }
      ended := ended[id := End(sendRst, code)];
      ReservedWithout(streams, id);
      if st.reserved && activeStreamCount > 0 { activeStreamCount := activeStreamCount - 1; }
      streams := streams - {id};
    }

    // -------------------------------------------------------------- creating streams

    /** Fails, like the source, where it would have to wait for a slot. */
    method CreateStream() returns (id: Option<nat>)
      requires Valid()
      modifies this
      ensures Valid() && id.Some? == old(CanCreate(View()))
      ensures View() == if id.Some? then Create(old(View())) else old(View())
      ensures id.Some? ==> id.value == old(nextStreamId)
    {
      if activeStreamCount >= maxConcurrentStreams || !valid || goingAway || nextStreamId > goAwayLastStreamId {
        return None;
      }
      hide Reserved, HpackCodec.HpackDecoder.Valid;
      var n := nextStreamId;
      Http2Runs.ReservedGrows(streams, n, NewStream(View()));
      nextStreamId := nextStreamId + 2;
      streams := streams[n := StreamState(remoteInitialWindow, DEFAULT_WINDOW, false, false, true, [], [], [])];
      activeStreamCount := activeStreamCount + 1;
      id := Some(n);
    }

    // -------------------------------------------------------------- SETTINGS

    /** Shifts the windows one stream at a time and gives up at the first that leaves its range. */
    method ShiftWindows(delta: int) returns (ok: bool)
      modifies this`streams
      ensures ok <==> !exists id :: id in old(streams) && !(0 <= old(streams)[id].sendWindow + delta <= MAX_WINDOW)
      ensures ok ==> streams == map id | id in old(streams) :: Shifted(old(streams)[id], delta)
      ensures streams.Keys == old(streams).Keys && Reserved(streams) == Reserved(old(streams))
    {
      hide Reserved;
      ghost var before := streams;
      var todo := streams.Keys;
      while todo != {}
        invariant PartlyShifted(before, streams, todo, delta)
        invariant forall id :: id in before && id !in todo ==> 0 <= before[id].sendWindow + delta <= MAX_WINDOW
        decreases |todo|
      {
        var id :| id in todo;
        var next := streams[id].sendWindow + delta;
        if next > 0x7fff_ffff || next < 0 {
          SameCount(before, streams, todo, delta);
          return false;
        }
        streams := streams[id := streams[id].(sendWindow := next)];
        todo := todo - {id};
      }
      SameCount(before, streams, {}, delta);
      ok := true;
    }

    method ApplyInitialWindowSize(newSize: nat)
      requires Valid()
      modifies this
      ensures Valid() && View() == Http2Session.ApplyInitialWindowSize(old(View()), newSize)
    {
      hide Reserved, Fail, Shifted, HpackCodec.HpackDecoder.Valid;
      if newSize > 0x7fff_ffff {
        Failing(FLOW_CONTROL_ERROR);
        return;
      }
      var delta := newSize - remoteInitialWindow;
      remoteInitialWindow := newSize;
      ghost var start := View();
      var ok := ShiftWindows(delta);
      if !ok {
        FailIgnoresStreams(start, streams, FLOW_CONTROL_ERROR);
        FailCounted(start, FLOW_CONTROL_ERROR);
        FailConnection(FLOW_CONTROL_ERROR);
      }
    }

    /** Six bytes at a time. */
    method HandleSettings(flags: byte, payload: seq<byte>)
      requires Valid()
      modifies this, encoder.table, decoder.table
      ensures Valid() && View() == OnSettings(old(View()), flags, payload)
    {
      hide ApplySetting, Fail, Reserved, HpackCodec.HpackDecoder.Valid;
      if HasFlag(flags, ACK) {
        if payload != [] { Failing(FRAME_SIZE_ERROR); }
        return;
      }
      if |payload| % 6 != 0 {
        Failing(FRAME_SIZE_ERROR);
        return;
      }
      ghost var start := View();
      var i := 0;
      assert payload[0..] == payload;
      while i + 6 <= |payload|
        invariant 0 <= i <= |payload| && Valid()
        invariant ApplySettings(start, payload) == ApplySettings(View(), payload[i..])
        decreases |payload| - i
      {
        var id := payload[i] as int * 256 + payload[i + 1] as int;
        assert payload[i..][2..6] == payload[i + 2..i + 6] && payload[i..][6..] == payload[i + 6..];
        var go := HandleSetting(id, ReadBe32(payload[i + 2..i + 6]));
        if !go { return; }
        i := i + 6;
      }
      peerSettingsSeen := true;
      SendFrame(Frame(SETTINGS, ACK, 0, []));
    }

    method HandleSetting(id: nat, value: nat) returns (go: bool)
      requires Valid() && value < TWO_32
      modifies this, encoder.table, decoder.table
      ensures Valid() && Outcome(View(), go) == ApplySetting(old(View()), id, value)
    {
      hide Reserved, Resize, HpackCodec.HpackDecoder.Valid;
      go := true;
      if id == 4 {
        ApplyInitialWindowSize(value);
      } else if id == 5 {
        if value < 16384 || value > 16777215 {
          Failing(PROTOCOL_ERROR);
          return false;
        }
        maxFrameSize := value;
      } else if id == 1 {
        encoder.table.SetMaxDynamicTableSize(value);
        decoder.table.SetMaxDynamicTableSize(value);
      } else if id == 3 {
        maxConcurrentStreams := value;
      }
    }

    /** failConnection, from a state in which the session is consistent. */
    method Failing(code: nat)
      requires Valid() && code < TWO_32
      modifies this
      ensures Valid() && View() == Fail(old(View()), code)
    {
      hide Reserved;
      ghost var s := View();
      FailConnection(code);
      FailCounted(s, code);
    }

    /** Ends one stream, from a state in which the session is consistent. */
    method Finishing(id: nat, code: nat)
      requires Valid() && id in streams
      modifies this
      ensures Valid() && View() == EndStreams(old(View()), {id}, code)
    {
      FinishStreamError(id, code);
    }

    method Reset(id: nat, code: nat)
      requires Valid() && id in streams && code < TWO_32
      modifies this
      ensures Valid() && View() == EndStreams(Emit(old(View()), RstFrame(id, code)), {id}, code)
    {
      SendFrame(RstFrame(id, code));
      Finishing(id, code);
    }

    // -------------------------------------------------------------- the smaller handlers

    method HandleWindowUpdate(id: nat, payload: seq<byte>)
      requires Valid()
      modifies this
      ensures Valid() && View() == OnWindowUpdate(old(View()), id, payload)
    {
      hide Reserved, Fail, EndStreams, ReadBe32, HpackCodec.HpackDecoder.Valid;
      if |payload| != 4 {
        Failing(FRAME_SIZE_ERROR);
        return;
      }
      var increment := ReadBe32(payload) % TWO_31;
      if increment == 0 {
        if id == 0 {
          Failing(PROTOCOL_ERROR);
        } else if id in streams {
          Reset(id, PROTOCOL_ERROR);
        }
        return;
      }
      if id == 0 {
        if connectionSendWindow + increment > 0x7fff_ffff {
          Failing(FLOW_CONTROL_ERROR);
          return;
        }
        connectionSendWindow := connectionSendWindow + increment;
      } else if id in streams {
        var next := streams[id].sendWindow + increment;
        if next > 0x7fff_ffff {
          Failing(FLOW_CONTROL_ERROR);
          return;
        }
        ReservedSame(streams, id, streams[id].(sendWindow := next));
        streams := streams[id := streams[id].(sendWindow := next)];
      }
    }

    method HandlePing(flags: byte, payload: seq<byte>)
      requires Valid()
      modifies this
      ensures Valid() && View() == OnPing(old(View()), flags, payload)
    {
      if |payload| != 8 {
        Failing(FRAME_SIZE_ERROR);
        return;
      }
      if !HasFlag(flags, ACK) { SendFrame(Frame(PING, ACK, 0, payload)); }
    }

    method HandleGoAway(payload: seq<byte>)
      requires Valid()
      modifies this
      ensures Valid() && View() == OnGoAway(old(View()), payload)
    {
      hide Reserved, ReadBe32, HpackCodec.HpackDecoder.Valid;
      goingAway := true;
      if |payload| >= 8 {
        goAwayLastStreamId := ReadBe32(payload) % TWO_31;
        ghost var last := goAwayLastStreamId;
        assert (set id | id in streams && (!true || id > last)) == set id | id in streams && id > last;
        FinishStreamsWhere(ReadBe32(payload[4..]), true, goAwayLastStreamId);
      } else {
        valid := false;
        assert (set id | id in streams && (!false || id > 0)) == streams.Keys;
        FinishStreamsWhere(CANCEL, false, 0);
        assert streams == map[];
      }
    }

    method HandleRstStream(id: nat, payload: seq<byte>)
      requires Valid()
      modifies this
      ensures Valid() && View() == OnRstStream(old(View()), id, payload)
    {
      if |payload| != 4 {
        Failing(FRAME_SIZE_ERROR);
        return;
      }
      if id in streams { Finishing(id, ReadBe32(payload)); }
    }

    method HandlePushPromise(flags: byte, payload: seq<byte>)
      requires Valid()
      modifies this
      ensures Valid() && View() == OnPushPromise(old(View()), flags, payload)
    {
      hide Reserved, Fail, HpackCodec.HpackDecoder.Valid;
      var promised := 0;
      if |payload| >= 4 {
        var offset := 0;
        if HasFlag(flags, PADDED) { offset := 1; }
        if |payload| < offset + 4 {
          Failing(PROTOCOL_ERROR);
          return;
        }
        promised := ReadBe32(payload[offset..]) % TWO_31;
      }
      if promised != 0 { SendFrame(RstFrame(promised, REFUSED_STREAM)); }
    }

    // -------------------------------------------------------------- headers

    method HandleHeaders(flags: byte, id: nat, payload: seq<byte>)
      requires Valid()
      modifies this, decoder.table
      ensures Valid() && View() == OnHeaders(old(View()), flags, id, payload)
    {
      hide Reserved, Fail, Http2Session.CompleteBlock, HpackCodec.HpackDecoder.Valid;
      if id == 0 || headerBlockStream != 0 {
        Failing(PROTOCOL_ERROR);
        return;
      }
      var fragment := payload;
      if HasFlag(flags, PADDED) {
        if payload == [] || 1 + payload[0] as int > |payload| {
          Failing(PROTOCOL_ERROR);
          return;
        }
        fragment := payload[1..|payload| - payload[0] as int];
      }
      if HasFlag(flags, PRIORITY_FLAG) {
        if |fragment| < 5 {
          Failing(PROTOCOL_ERROR);
          return;
        }
        fragment := fragment[5..];
      }
      headerBlockStream, headerBlockFlags, headerBlockBuffer := id, flags, fragment;
      if HasFlag(flags, END_HEADERS) { CompleteBlock(HasFlag(flags, END_STREAM)); }
    }

    method HandleContinuation(flags: byte, id: nat, payload: seq<byte>)
      requires Valid()
      modifies this, decoder.table
      ensures Valid() && View() == OnContinuation(old(View()), flags, id, payload)
    {
      hide Reserved, Fail, Http2Session.CompleteBlock, WithFlag, HasFlag, HpackCodec.HpackDecoder.Valid;
      if id == 0 || id != headerBlockStream {
        Failing(PROTOCOL_ERROR);
        return;
      }
      headerBlockBuffer := headerBlockBuffer + payload;
      headerBlockFlags := WithFlag(headerBlockFlags, END_HEADERS, HasFlag(flags, END_HEADERS));
      if HasFlag(flags, END_STREAM) { headerBlockFlags := WithFlag(headerBlockFlags, END_STREAM, true); }
      if HasFlag(headerBlockFlags, END_HEADERS) { CompleteBlock(HasFlag(headerBlockFlags, END_STREAM)); }
    }

    method CompleteBlock(endStream: bool)
      requires Valid()
      modifies this, decoder.table
      ensures Valid() && View() == Http2Session.CompleteBlock(old(View()), endStream)
    {
      hide Reserved, Fail, EndStreams, Hpack.DecodeBlock, HpackCodec.HpackDecoder.Valid;
      var id := headerBlockStream;
      var block := headerBlockBuffer;
      headerBlockStream, headerBlockBuffer := 0, [];
      if id !in streams { return; }
      var st := streams[id];
      if st.endStream {
        Reset(id, STREAM_CLOSED);
        return;
      }
      var ok, decoded := decoder.Decode(block);
      if !ok {
        Failing(COMPRESSION_ERROR);
        return;
      }
      if !st.endHeaders {
        st := st.(endHeaders := true, responseHeaders := decoded);
      } else {
        st := st.(trailers := st.trailers + decoded);
      }
      ReservedSame(streams, id, st);
      streams := streams[id := st];
      if endStream { EndRemote(id); }
    }

    method EndRemote(id: nat)
      requires Valid() && id in streams
      modifies this`streams, this`activeStreamCount
      ensures Valid() && View() == CloseRemote(old(View()), id)
    {
      hide HpackCodec.HpackDecoder.Valid;
      var st := streams[id];
      ReservedWithout(streams, id);
      ghost var closed := streams[id := st.(endStream := true, reserved := false)];
      assert Reserved(closed) == Reserved(streams - {id});
      streams := streams[id := st.(endStream := true)];
      if st.reserved {
        streams := streams[id := streams[id].(reserved := false)];
        if activeStreamCount > 0 { activeStreamCount := activeStreamCount - 1; }
      }
      assert streams == closed;
    }

    // -------------------------------------------------------------- DATA

    /** Charges the connection; false if the peer overran the window. */
    method ChargeConnection(n: nat) returns (ok: bool)
      modifies this`connectionRecvWindow
      ensures ok == (old(connectionRecvWindow) - n >= 0) && connectionRecvWindow == old(connectionRecvWindow) - n
    {
      connectionRecvWindow := connectionRecvWindow - n;
      ok := connectionRecvWindow >= 0;
    }

    method RefillConnection()
      requires connectionRecvWindow >= 0
      modifies this`connectionRecvWindow, this`wire
      ensures connectionRecvWindow == Refill(old(connectionRecvWindow))
      ensures wire == old(wire) + RefillFrames(0, old(connectionRecvWindow))
    {
      if connectionRecvWindow < DEFAULT_WINDOW / 2 {
        var incr := DEFAULT_WINDOW - connectionRecvWindow;
        connectionRecvWindow := DEFAULT_WINDOW;
        SendFrame(WindowUpdateFrame(0, incr));
      }
    }

    method RefillStream(id: nat)
      requires id in streams && streams[id].recvWindow >= 0
      modifies this`streams, this`wire
      ensures Reserved(streams) == Reserved(old(streams))
      ensures streams == old(streams)[id := old(streams)[id].(recvWindow := Refill(old(streams)[id].recvWindow))]
      ensures wire == old(wire) + RefillFrames(id, old(streams)[id].recvWindow)
    {
      hide Reserved;
      var window := streams[id].recvWindow;
      ReservedSame(streams, id, streams[id].(recvWindow := Refill(window)));
      if window < DEFAULT_WINDOW / 2 {
        streams := streams[id := streams[id].(recvWindow := DEFAULT_WINDOW)];
        SendFrame(WindowUpdateFrame(id, DEFAULT_WINDOW - window));
      }
    }

    method HandleData(flags: byte, id: nat, payload: seq<byte>)
      requires Valid()
      modifies this
      ensures Valid() && View() == OnData(old(View()), flags, id, payload)
    {
      hide Reserved, Fail, EndStreams, Refill, RefillFrames, CloseRemote, HpackCodec.HpackDecoder.Valid;
      if id == 0 {
        Failing(PROTOCOL_ERROR);
        return;
      }
      if id !in streams {
        var ok := ChargeConnection(|payload|);
        if !ok {
          Failing(FLOW_CONTROL_ERROR);
        } else {
          RefillConnection();
        }
        return;
      }
      if streams[id].endStream {
        var ok := ChargeConnection(|payload|);
        if !ok {
          Failing(FLOW_CONTROL_ERROR);
        } else {
          Reset(id, STREAM_CLOSED);
        }
        return;
      }
      HandleOpenData(flags, id, payload);
    }

    method HandleOpenData(flags: byte, id: nat, payload: seq<byte>)
      requires Valid() && id != 0 && id in streams && !streams[id].endStream
      modifies this
      ensures Valid() && View() == OnData(old(View()), flags, id, payload)
    {
      hide Reserved, Fail, EndStreams, Refill, RefillFrames, CloseRemote, HpackCodec.HpackDecoder.Valid;
      var data := payload;
      if HasFlag(flags, PADDED) {
        if payload == [] || 1 + payload[0] as int > |payload| {
          Failing(PROTOCOL_ERROR);
          return;
        }
        data := payload[1..|payload| - payload[0] as int];
      }
      var ok := StoreData(id, data, |payload|);
      if ok && HasFlag(flags, END_STREAM) { EndRemote(id); }
    }

    /** Appends to the body, charges both windows, and refills or fails. */
    method StoreData(id: nat, data: seq<byte>, n: nat) returns (ok: bool)
      requires Valid() && id in streams
      modifies this
      ensures Valid()
      ensures ok == (n <= old(connectionRecvWindow) && n <= old(streams)[id].recvWindow)
      ensures ok ==> View() == Stored(old(View()), id, data, n)
      ensures !ok ==> View() == Fail(old(View()).(connectionRecvWindow := old(connectionRecvWindow) - n), FLOW_CONTROL_ERROR)
    {
      hide Reserved, Fail, Refill, RefillFrames, EndStreams, HpackCodec.HpackDecoder.Valid;
      ghost var start := View();
      ok := ChargeBoth(id, data, n);
      if !ok {
        FailIgnoresStreams(start.(connectionRecvWindow := connectionRecvWindow), streams, FLOW_CONTROL_ERROR);
        Failing(FLOW_CONTROL_ERROR);
        return;
      }
      RefillBoth(id);
      assert streams == Stored(start, id, data, n).streams;
    }

    method RefillBoth(id: nat)
      requires id in streams && streams[id].recvWindow >= 0 && connectionRecvWindow >= 0
      modifies this`streams, this`wire, this`connectionRecvWindow
      ensures Reserved(streams) == Reserved(old(streams))
      ensures streams == old(streams)[id := old(streams)[id].(recvWindow := Refill(old(streams)[id].recvWindow))]
      ensures connectionRecvWindow == Refill(old(connectionRecvWindow))
      ensures wire == old(wire) + RefillFrames(0, old(connectionRecvWindow)) + RefillFrames(id, old(streams)[id].recvWindow)
    {
      RefillConnection();
      RefillStream(id);
    }

    method ChargeBoth(id: nat, data: seq<byte>, n: nat) returns (ok: bool)
      requires Valid() && id in streams
      modifies this`streams, this`connectionRecvWindow
      ensures Valid() && connectionRecvWindow == old(connectionRecvWindow) - n
      ensures streams == old(streams)[id := old(streams)[id].(body := old(streams)[id].body + data,
                                                             recvWindow := old(streams)[id].recvWindow - n)]
      ensures ok == (n <= old(connectionRecvWindow) && n <= old(streams)[id].recvWindow)
      ensures |Reserved(streams)| == |Reserved(old(streams))|
    {
      hide Reserved, HpackCodec.HpackDecoder.Valid;
      var st := streams[id].(body := streams[id].body + data);
      ok := ChargeConnection(n);
      st := st.(recvWindow := st.recvWindow - n);
      ReservedSame(streams, id, st);
      streams := streams[id := st];
      ok := ok && st.recvWindow >= 0;
    }

    // -------------------------------------------------------------- dispatch

    method HandleFrame(f: Frame)
      requires Valid()
      modifies this, encoder.table, decoder.table
      ensures Valid() && View() == Http2Session.HandleFrame(old(View()), f)
    {
      hide OnSettings, OnWindowUpdate, OnPing, OnGoAway, OnRstStream, OnPushPromise, OnHeaders, OnContinuation, OnData;
      hide Reserved, HpackCodec.HpackDecoder.Valid;
      if f.kind == SETTINGS { HandleSettings(f.flags, f.payload); }
      else if f.kind == WINDOW_UPDATE { HandleWindowUpdate(f.stream, f.payload); }
      else if f.kind == PING { HandlePing(f.flags, f.payload); }
      else if f.kind == GOAWAY { HandleGoAway(f.payload); }
      else if f.kind == RST_STREAM { HandleRstStream(f.stream, f.payload); }
      else if f.kind == PUSH_PROMISE { HandlePushPromise(f.flags, f.payload); }
      else if f.kind == HEADERS { HandleHeaders(f.flags, f.stream, f.payload); }
      else if f.kind == CONTINUATION { HandleContinuation(f.flags, f.stream, f.payload); }
      else if f.kind == DATA { HandleData(f.flags, f.stream, f.payload); }
    }
  }

  ghost function Stored(s: Session, id: nat, data: seq<byte>, n: nat): Session
    requires id in s.streams && n <= s.connectionRecvWindow && n <= s.streams[id].recvWindow
  {
    var st := s.streams[id];
    s.(streams := s.streams[id := st.(body := st.body + data, recvWindow := Refill(st.recvWindow - n))],
       connectionRecvWindow := Refill(s.connectionRecvWindow - n),
       wire := s.wire + RefillFrames(0, s.connectionRecvWindow - n) + RefillFrames(id, st.recvWindow - n))
  }

  lemma ReservedSame(streams: map<nat, StreamState>, id: nat, st: StreamState)
    requires id in streams && st.reserved == streams[id].reserved
    ensures Reserved(streams[id := st]) == Reserved(streams)
  {
  }

  lemma EndNoneShape(s: Session, code: nat)
    requires s.activeStreamCount == |Reserved(s.streams)|
    ensures EndStreams(s, {}, code) == s
  {
    var e := EndStreams(s, {}, code);
    assert e.streams == s.streams;
    assert e.ended == s.ended;
  }

  lemma FailCounted(s: Session, code: nat)
    requires Counted(s) && code < TWO_32
    ensures Counted(Fail(s, code))
    ensures Fail(s, code).streams.Keys <= s.streams.Keys && Fail(s, code).nextStreamId == s.nextStreamId
  {
    var f := Fail(s, code);
    if s.valid || !s.goingAway { assert f.streams == map[]; }
  }

  /** All but the streams in `todo` have moved. */
  ghost predicate PartlyShifted(before: map<nat, StreamState>, now: map<nat, StreamState>, todo: set<nat>, delta: int)
  {
    && now.Keys == before.Keys && todo <= before.Keys
    && forall id :: id in before ==> now[id] == if id in todo then before[id] else Shifted(before[id], delta)
  }

  lemma SameCount(before: map<nat, StreamState>, now: map<nat, StreamState>, todo: set<nat>, delta: int)
    requires PartlyShifted(before, now, todo, delta)
    ensures Reserved(now) == Reserved(before)
  {
  }

  /** A failing session forgets its streams, so it does not matter what had happened to them. */
  lemma FailIgnoresStreams(s: Session, now: map<nat, StreamState>, code: nat)
    requires now.Keys == s.streams.Keys && Counted(s) && code < TWO_32 && s.activeStreamCount == |Reserved(now)|
    ensures Fail(s.(streams := now), code) == Fail(s, code)
  {
    var a, b := Fail(s.(streams := now), code), Fail(s, code);
    if s.valid || !s.goingAway {
      assert a.streams == map[] && b.streams == map[];
      assert a.ended == b.ended;
    } else {
      assert s.streams == map[] && now == map[];
    }
  }
}
