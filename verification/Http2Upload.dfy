/** A body sent by the loop, in the states of one run of the session, with anything else going on around it. */
module Http2Upload {
  import opened Bytes
  import opened Http2Frames
  import opened Http2Session
  import opened Http2Runs
  import opened Http2Flow
  import opened Http2Send

  /** What the send loop of a live stream finds in a state of the session. */
  function LookAt(s: Session, id: nat): Look
    requires id in s.streams
  {
    Look(s.streams[id].sendWindow, s.connectionSendWindow, s.maxFrameSize, true, true)
  }

  /** The loop's checks are the machine's: a frame fits what was seen exactly if its send may begin. */
  lemma LookDecidesSend(c: Conn, id: nat, f: Frame, last: bool)
    requires id in c.s.streams && id !in c.inFlight && f.payload != []
    ensures Fits(f, LookAt(c.s, id)) <==> Enabled(c, BeginSend(id, f.payload, last))
  {
  }

  // ---------------------------------------------------------------- what is written on one stream

  predicate IsData(f: Frame, id: nat) { f.kind == DATA && f.stream == id }

  /** The DATA frames of a stream, in order. */
  function DataOn(wire: seq<Frame>, id: nat): seq<Frame>
  {
    if wire == [] then []
    else
      var f := wire[|wire| - 1];
      DataOn(wire[..|wire| - 1], id) + if IsData(f, id) then [f] else []
  }

  lemma DataOnOne(wire: seq<Frame>, f: Frame, id: nat)
    ensures DataOn(wire + [f], id) == DataOn(wire, id) + if IsData(f, id) then [f] else []
  {
    assert (wire + [f])[..|wire|] == wire;
  }

  /** Nothing is written on the stream, and no stream is forgotten. */
  ghost predicate Silent(s: Session, s': Session, id: nat)
  {
    DataOn(s'.wire, id) == DataOn(s.wire, id) && s.nextStreamId <= s'.nextStreamId
  }

  lemma EmitSilent(s: Session, f: Frame, id: nat)
    requires !IsData(f, id)
    ensures Silent(s, Emit(s, f), id)
  {
    hide DataOn;
    DataOnOne(s.wire, f, id);
  }

  lemma FailSilent(s: Session, code: nat, id: nat)
    requires code < TWO_32
    ensures Silent(s, Fail(s, code), id)
  {
    hide DataOn;
    DataOnOne(s.wire, GoAwayFrame(code), id);
  }

  lemma {:induction false} SettingsSilent(s: Session, payload: seq<byte>, id: nat)
    ensures Silent(s, ApplySettings(s, payload).s, id)
    decreases |payload|
  {
    hide DataOn, Fail, ApplySetting;
    if |payload| >= 6 {
      var key, value := payload[0] as int * 256 + payload[1] as int, ReadBe32(payload[2..6]);
      SettingSilent(s, key, value, id);
      SettingsSilent(ApplySetting(s, key, value).s, payload[6..], id);
    }
  }

  lemma SettingSilent(s: Session, key: nat, value: nat, id: nat)
    requires value < TWO_32
    ensures Silent(s, ApplySetting(s, key, value).s, id)
  {
    hide DataOn, Fail;
    FailSilent(s, PROTOCOL_ERROR, id);
    FailSilent(s, FLOW_CONTROL_ERROR, id);
    FailSilent(s.(remoteInitialWindow := value), FLOW_CONTROL_ERROR, id);
  }

  lemma OnSettingsSilent(s: Session, flags: byte, payload: seq<byte>, id: nat)
    ensures Silent(s, OnSettings(s, flags, payload), id)
  {
    hide DataOn, Fail, ApplySettings;
    FailSilent(s, FRAME_SIZE_ERROR, id);
    SettingsSilent(s, payload, id);
    var done := ApplySettings(s, payload).s.(peerSettingsSeen := true);
    EmitSilent(done, Frame(SETTINGS, ACK, 0, []), id);
  }

  lemma WindowUpdateSilent(s: Session, stream: nat, payload: seq<byte>, id: nat)
    ensures Silent(s, OnWindowUpdate(s, stream, payload), id)
  {
    hide DataOn, Fail;
    FailSilent(s, FRAME_SIZE_ERROR, id);
    FailSilent(s, PROTOCOL_ERROR, id);
    FailSilent(s, FLOW_CONTROL_ERROR, id);
    EmitSilent(s, RstFrame(stream, PROTOCOL_ERROR), id);
  }

  lemma PingSilent(s: Session, flags: byte, payload: seq<byte>, id: nat)
    ensures Silent(s, OnPing(s, flags, payload), id)
  {
    hide DataOn, Fail, HasFlag;
    FailSilent(s, FRAME_SIZE_ERROR, id);
    EmitSilent(s, Frame(PING, ACK, 0, payload), id);
  }

  lemma GoAwaySilent(s: Session, payload: seq<byte>, id: nat)
    ensures Silent(s, OnGoAway(s, payload), id)
  {
    hide DataOn, ReadBe32, Reserved;
  }

  lemma RstSilent(s: Session, stream: nat, payload: seq<byte>, id: nat)
    ensures Silent(s, OnRstStream(s, stream, payload), id)
  {
    hide DataOn, Fail, ReadBe32, Reserved;
    FailSilent(s, FRAME_SIZE_ERROR, id);
  }

  lemma PushSilent(s: Session, flags: byte, payload: seq<byte>, id: nat)
    ensures Silent(s, OnPushPromise(s, flags, payload), id)
  {
    hide DataOn, Fail, ReadBe32, HasFlag, RstFrame;
    FailSilent(s, PROTOCOL_ERROR, id);
    var offset := if HasFlag(flags, PADDED) then 1 else 0;
    if |payload| >= offset + 4 { RefuseSilent(s, ReadBe32(payload[offset..]) % TWO_31, id); }
  }

  lemma RefuseSilent(s: Session, promised: nat, id: nat)
    ensures Silent(s, Emit(s, RstFrame(promised, REFUSED_STREAM)), id)
  {
    hide DataOn;
    EmitSilent(s, RstFrame(promised, REFUSED_STREAM), id);
  }

  lemma BlockSilent(s: Session, endStream: bool, id: nat)
    ensures Silent(s, CompleteBlock(s, endStream), id)
  {
    hide DataOn, Fail;
    var s1 := s.(pending := Pending(0, s.pending.flags, []));
    EmitSilent(s1, RstFrame(s.pending.stream, STREAM_CLOSED), id);
    var b := Hpack.DecodeBlock(s.decoder, s.pending.buffer, 0);
    FailSilent(s1.(decoder := b.table), COMPRESSION_ERROR, id);
  }

  lemma HeadersSilent(s: Session, f: Frame, id: nat)
    requires f.kind == HEADERS || f.kind == CONTINUATION
    ensures Silent(s, HandleFrame(s, f), id)
  {
    hide DataOn, Fail, CompleteBlock, WithFlag;
    FailSilent(s, PROTOCOL_ERROR, id);
    if f.kind == HEADERS {
      var fragment := Fragment(f.flags, f.payload);
      if fragment.Some? {
        BlockSilent(s.(pending := Pending(f.stream, f.flags, fragment.value)), HasFlag(f.flags, END_STREAM), id);
      }
    } else {
      var kept := WithFlag(s.pending.flags, END_HEADERS, HasFlag(f.flags, END_HEADERS));
      var merged := if HasFlag(f.flags, END_STREAM) then WithFlag(kept, END_STREAM, true) else kept;
      BlockSilent(s.(pending := Pending(f.stream, merged, s.pending.buffer + f.payload)), HasFlag(merged, END_STREAM), id);
    }
  }

  lemma RefillSilent(wire: seq<Frame>, stream: nat, window: int, id: nat)
    requires 0 <= window
    ensures DataOn(wire + RefillFrames(stream, window), id) == DataOn(wire, id)
  {
    hide DataOn;
    if window < DEFAULT_WINDOW / 2 {
      DataOnOne(wire, WindowUpdateFrame(stream, DEFAULT_WINDOW - window), id);
    } else {
      assert wire + [] == wire;
    }
  }

  lemma DataSilent(s: Session, flags: byte, stream: nat, payload: seq<byte>, id: nat)
    ensures Silent(s, OnData(s, flags, stream, payload), id)
  {
    hide DataOn, Fail, RefillFrames;
    var conn := s.connectionRecvWindow - |payload|;
    var s1 := s.(connectionRecvWindow := conn);
    FailSilent(s, PROTOCOL_ERROR, id);
    FailSilent(s1, FLOW_CONTROL_ERROR, id);
    EmitSilent(s1, RstFrame(stream, STREAM_CLOSED), id);
    if conn >= 0 {
      RefillSilent(s.wire, 0, conn, id);
      if stream in s.streams && s.streams[stream].recvWindow - |payload| >= 0 {
        RefillSilent(s.wire + RefillFrames(0, conn), stream, s.streams[stream].recvWindow - |payload|, id);
      }
    }
  }

  lemma ReceiveSilent(s: Session, f: Frame, id: nat)
    ensures Silent(s, Receive(s, f), id)
  {
    hide DataOn, Fail, OnSettings, OnWindowUpdate, OnPing, OnGoAway, OnRstStream, OnPushPromise, OnHeaders, OnContinuation, OnData;
    FailSilent(s, FRAME_SIZE_ERROR, id);
    OnSettingsSilent(s, f.flags, f.payload, id);
    WindowUpdateSilent(s, f.stream, f.payload, id);
    DataSilent(s, f.flags, f.stream, f.payload, id);
    PingSilent(s, f.flags, f.payload, id);
    GoAwaySilent(s, f.payload, id);
    RstSilent(s, f.stream, f.payload, id);
    PushSilent(s, f.flags, f.payload, id);
    if f.kind == HEADERS || f.kind == CONTINUATION { HeadersSilent(s, f, id); }
  }

  // ---------------------------------------------------------------- everything else

  /** Not a send on this stream. */
  predicate Foreign(a: Action, id: nat) { !((a.BeginSend? || a.EndSend? || a.AbandonSend?) && a.id == id) }

  ghost predicate AllForeign(acts: seq<Action>, id: nat) { forall i :: 0 <= i < |acts| ==> Foreign(acts[i], id) }

  ghost predicate Possible(c: Conn, acts: seq<Action>)
    decreases |acts|
  {
    acts == [] || (Enabled(c, acts[0]) && Possible(Step(c, acts[0]), acts[1..]))
  }

  ghost function Do(c: Conn, acts: seq<Action>): Conn
    requires Possible(c, acts)
    decreases |acts|
  {
    if acts == [] then c else Do(Step(c, acts[0]), acts[1..])
  }

  /** A foreign step leaves the stream's frame in flight, its DATA on the wire and its number alone. */
  ghost predicate Aside(c: Conn, d: Conn, id: nat)
  {
    && Silent(c.s, d.s, id) && (id in d.inFlight <==> id in c.inFlight)
    && (id in c.inFlight ==> d.inFlight[id] == c.inFlight[id])
  }

  lemma ForeignAside(c: Conn, a: Action, id: nat)
    requires FlightPlan(c) && Enabled(c, a) && Foreign(a, id)
    ensures Aside(c, Step(c, a), id)
  {
    hide DataOn, Receive;
    match a
    case ReceiveFrame(f) => ReceiveSilent(c.s, f, id);
    case EndSend(other) =>
      var f := c.inFlight[other];
      DataOnOne(c.s.wire, f, id);
    case ReleaseStream(other, _, code) => DataOnOne(c.s.wire, RstFrame(other, code), id);
    case CloseSession =>
      DataOnOne(c.s.wire, Frame(GOAWAY, 0, 0, Be32(LastStreamId(c.s)) + Be32(0)), id);
    case _ =>
  }

  lemma {:induction false} ForeignRun(run: seq<Action>, acts: seq<Action>, id: nat)
    requires Legal(run) && AllForeign(acts, id) && Possible(After(run), acts)
    ensures Legal(run + acts) && After(run + acts) == Do(After(run), acts) && Aside(After(run), After(run + acts), id)
    decreases |acts|
  {
    hide Legal, After, Enabled, Step, DataOn;
    if acts == [] {
      assert run + acts == run;
    } else {
      OneMore(run, acts[0]);
      InvHolds(run);
      ForeignAside(After(run), acts[0], id);
      ForeignRun(run + [acts[0]], acts[1..], id);
      assert run + [acts[0]] + acts[1..] == run + acts;
    }
  }

  // ---------------------------------------------------------------- the loop's frames among it

  /** What else happens before one turn of the loop, and while its frame is being written. */
  datatype Turn = Turn(before: seq<Action>, during: seq<Action>)

  predicate Ends(f: Frame) { f.flags == END_STREAM }

  function Begin(id: nat, f: Frame): Action { BeginSend(id, f.payload, Ends(f)) }

  /** A frame with what happens around it. */
  function Around(t: Turn, id: nat, f: Frame): seq<Action> { t.before + [Begin(id, f)] + t.during + [EndSend(id)] }

  /** Is the next frame, number `i`, sent in turn `k`? */
  predicate Sends(frames: seq<Frame>, turns: seq<nat>, k: nat, i: nat) { i < |frames| && i < |turns| && turns[i] == k }

  /** All turns from `k` on, when `i` frames have gone. */
  function Woven(env: seq<Turn>, frames: seq<Frame>, turns: seq<nat>, id: nat, k: nat, i: nat): seq<Action>
    decreases |env| - k
  {
    if k >= |env| then []
    else if Sends(frames, turns, k, i) then Around(env[k], id, frames[i]) + Woven(env, frames, turns, id, k + 1, i + 1)
    else env[k].before + Woven(env, frames, turns, id, k + 1, i)
  }

  /**
   What the loop finds. The window of a stream that has ended, by a reset of the peer for instance, is what it was then,
   less what was sent since; the session keeps it no longer, so it is any number here.
   */
  ghost predicate Sees(c: Conn, id: nat, l: Look)
  {
    && l.connectionWindow == c.s.connectionSendWindow && l.maxFrameSize == c.s.maxFrameSize
    && (id in c.s.streams ==> l == LookAt(c.s, id).(waited := l.waited, written := l.written))
  }

  /**
   The looks are what the loop finds in the states of one run, turn by turn; the other actions, and only they, are
   taken to be possible when their time comes.
   */
  ghost predicate Watched(c: Conn, env: seq<Turn>, looks: seq<Look>, frames: seq<Frame>, turns: seq<nat>, id: nat, k: nat, i: nat)
    requires |env| == |looks|
    decreases |looks| - k
  {
    k < |looks| ==>
      var t := env[k];
      && AllForeign(t.before, id) && AllForeign(t.during, id) && Possible(c, t.before)
      && var here := Do(c, t.before);
      && Sees(here, id, looks[k])
      && if Sends(frames, turns, k, i) then
           Enabled(here, Begin(id, frames[i])) ==>
             var mid := Step(here, Begin(id, frames[i]));
             && Possible(mid, t.during)
             && (Enabled(Do(mid, t.during), EndSend(id)) ==>
                   Watched(Step(Do(mid, t.during), EndSend(id)), env, looks, frames, turns, id, k + 1, i + 1))
         else Watched(here, env, looks, frames, turns, id, k + 1, i)
  }

  /** A DATA frame of the stream as the machine writes it. */
  predicate Plain(f: Frame, id: nat) { f == Frame(DATA, EndFlag(Ends(f)), id, f.payload) }

  lemma BeginPuts(c: Conn, id: nat, f: Frame)
    requires Enabled(c, Begin(id, f)) && Plain(f, id)
    ensures var d := Step(c, Begin(id, f)); d.s == c.s && id in d.inFlight && d.inFlight[id] == f
  {
    hide Receive, Create, Release, ReaderExit, Close, Debit;
  }

  lemma EndWrites(c: Conn, id: nat, f: Frame)
    requires id in c.inFlight && c.inFlight[id] == f && Plain(f, id)
    ensures Enabled(c, EndSend(id))
    ensures var d := Step(c, EndSend(id));
      id !in d.inFlight && DataOn(d.s.wire, id) == DataOn(c.s.wire, id) + [f] && d.s.nextStreamId == c.s.nextStreamId
  {
    hide Receive, Create, Release, ReaderExit, Close, DataOn;
    DataOnOne(c.s.wire, f, id);
  }

  /** One send with what happens around it. */
  lemma SendIsARun(run: seq<Action>, t: Turn, id: nat, f: Frame)
    requires Legal(run) && id !in After(run).inFlight && Plain(f, id)
    requires AllForeign(t.before, id) && AllForeign(t.during, id) && Possible(After(run), t.before)
    requires var here := Do(After(run), t.before);
      Enabled(here, Begin(id, f)) && Possible(Step(here, Begin(id, f)), t.during)
    ensures var all := run + Around(t, id, f);
      var late := Do(Step(Do(After(run), t.before), Begin(id, f)), t.during);
      && Legal(all) && Enabled(late, EndSend(id)) && After(all) == Step(late, EndSend(id)) && id !in After(all).inFlight
      && DataOn(After(all).s.wire, id) == DataOn(After(run).s.wire, id) + [f]
      && After(run).s.nextStreamId <= After(all).s.nextStreamId
  {
    hide Legal, After, DataOn, Possible, Do, Step, Enabled;
    ForeignRun(run, t.before, id);
    var r1 := run + t.before;
    OneMore(r1, Begin(id, f));
    var r2 := r1 + [Begin(id, f)];
    BeginPuts(After(r1), id, f);
    ForeignRun(r2, t.during, id);
    var r3 := r2 + t.during;
    EndWrites(After(r3), id, f);
    OneMore(r3, EndSend(id));
    assert r3 + [EndSend(id)] == run + Around(t, id, f);
  }

  lemma KnownStays(run: seq<Action>, later: seq<Action>, id: nat)
    requires Legal(run) && Legal(later) && id in Http2Runs.Known(After(run).s)
    requires After(run).s.nextStreamId <= After(later).s.nextStreamId
    ensures id in Http2Runs.Known(After(later).s)
  {
    hide Legal, After;
    InvHolds(run);
    InvHolds(later);
  }

  lemma {:induction false} WeaveIsARun(run: seq<Action>, env: seq<Turn>, looks: seq<Look>, frames: seq<Frame>, turns: seq<nat>,
                                       id: nat, k: nat, i: nat)
    requires Legal(run) && id !in After(run).inFlight && id in Http2Runs.Known(After(run).s)
    requires |env| == |looks| && k <= |looks| && i <= |frames|
    requires Permitted(frames, looks, turns) && Nonempty(frames) && forall j :: 0 <= j < |frames| ==> Plain(frames[j], id)
    requires forall j :: i <= j < |turns| ==> k <= turns[j]
    requires Watched(After(run), env, looks, frames, turns, id, k, i)
    ensures var all := run + Woven(env, frames, turns, id, k, i);
      && Legal(all) && id !in After(all).inFlight
      && DataOn(After(all).s.wire, id) == DataOn(After(run).s.wire, id) + frames[i..]
      && After(run).s.nextStreamId <= After(all).s.nextStreamId
    decreases |looks| - k
  {
    hide Legal, After, DataOn, Enabled, Step, Possible, Do, Around, Sees, Fits, Plain, AllForeign, Http2Runs.Known;
    if k == |looks| {
      assert run + [] == run;
      assert frames[i..] == [];
    } else if Sends(frames, turns, k, i) {
      var t, f := env[k], frames[i];
      var here := Do(After(run), t.before);
      ForeignRun(run, t.before, id);
      KnownStays(run, run + t.before, id);
      SeenFits(here, id, f, looks[k]);
      SendIsARun(run, t, id, f);
      var next := run + Around(t, id, f);
      KnownStays(run, next, id);
      WeaveIsARun(next, env, looks, frames, turns, id, k + 1, i + 1);
      assert next + Woven(env, frames, turns, id, k + 1, i + 1) == run + Woven(env, frames, turns, id, k, i);
      assert frames[i..] == [f] + frames[i + 1..];
    } else {
      var t := env[k];
      ForeignRun(run, t.before, id);
      var next := run + t.before;
      KnownStays(run, next, id);
      WeaveIsARun(next, env, looks, frames, turns, id, k + 1, i);
      assert next + Woven(env, frames, turns, id, k + 1, i) == run + Woven(env, frames, turns, id, k, i);
    }
  }

  lemma SeenFits(c: Conn, id: nat, f: Frame, l: Look)
    requires Sees(c, id, l) && Fits(f, l) && f.payload != [] && id !in c.inFlight && id in Http2Runs.Known(c.s)
    ensures Enabled(c, Begin(id, f))
  {
    if id in c.s.streams { LookDecidesSend(c, id, f, Ends(f)); }
  }

  // ---------------------------------------------------------------- whole bodies

  /** The loop's turns, and then the empty frame that ends a body of unknown size, if it is sent. */
  function BodyActions(env: seq<Turn>, final: Turn, frames: seq<Frame>, turns: seq<nat>, id: nat): seq<Action>
  {
    Woven(env, Flowed(frames), turns, id, 0, 0)
    + if Flowed(frames) == frames then [] else Around(final, id, frames[|frames| - 1])
  }

  /** The other actions around the final frame are possible too. */
  ghost predicate FinalWatched(c: Conn, final: Turn, id: nat, f: Frame)
  {
    && AllForeign(final.before, id) && AllForeign(final.during, id) && Possible(c, final.before)
    && (Enabled(Do(c, final.before), Begin(id, f)) ==> Possible(Step(Do(c, final.before), Begin(id, f)), final.during))
  }

  /** The whole body was sent in the states of the run. */
  ghost predicate BodyWatched(run: seq<Action>, env: seq<Turn>, final: Turn, looks: seq<Look>, frames: seq<Frame>,
                              turns: seq<nat>, id: nat)
    requires Legal(run) && |env| == |looks|
  {
    && Watched(After(run), env, looks, Flowed(frames), turns, id, 0, 0)
    && (Flowed(frames) != frames ==>
          var loop := run + Woven(env, Flowed(frames), turns, id, 0, 0);
          Legal(loop) ==> FinalWatched(After(loop), final, id, frames[|frames| - 1]))
  }

  /**
   Frames that passed the loop's checks in the states of a run, with anything going on before them and while they are
   written, form a run with it. On the stream's wire they follow what was there, whole and in order.
   */
  lemma BodyIsARun(run: seq<Action>, env: seq<Turn>, final: Turn, looks: seq<Look>, frames: seq<Frame>, turns: seq<nat>, id: nat)
    requires Legal(run) && id in Http2Runs.Known(After(run).s) && id !in After(run).inFlight && |env| == |looks|
    requires Permitted(Flowed(frames), looks, turns) && Nonempty(Flowed(frames))
    requires forall j :: 0 <= j < |frames| ==> Plain(frames[j], id)
    requires BodyWatched(run, env, final, looks, frames, turns, id)
    ensures var all := run + BodyActions(env, final, frames, turns, id);
      Legal(all) && DataOn(After(all).s.wire, id) == DataOn(After(run).s.wire, id) + frames
  {
    hide Legal, After, DataOn, Enabled, Step, Possible, Do, Around, Watched, Permitted, Woven, Http2Runs.Known;
    var flowed := Flowed(frames);
    WeaveIsARun(run, env, looks, flowed, turns, id, 0, 0);
    assert flowed[0..] == flowed;
    var loop := run + Woven(env, flowed, turns, id, 0, 0);
    if flowed == frames {
      assert loop + [] == run + BodyActions(env, final, frames, turns, id);
      assert loop + [] == loop;
    } else {
      var f := frames[|frames| - 1];
      KnownStays(run, loop, id);
      ForeignRun(loop, final.before, id);
      KnownStays(loop, loop + final.before, id);
      EmptyEnabled(After(loop + final.before), id, f);
      SendIsARun(loop, final, id, f);
      assert loop + Around(final, id, f) == run + BodyActions(env, final, frames, turns, id);
      assert flowed + [f] == frames;
    }
  }

  lemma EmptyEnabled(c: Conn, id: nat, f: Frame)
    requires id in Http2Runs.Known(c.s) && id !in c.inFlight && f.payload == []
    ensures Enabled(c, Begin(id, f))
  {
  }

  lemma PlainFrames(frames: seq<Frame>, id: nat)
    requires DataFrames(frames, id) && (EndsOnce(frames) || Unended(frames))
    ensures forall j :: 0 <= j < |frames| ==> Plain(frames[j], id)
  {
  }

  /**
   Sending a body in a session: if what the loop saw are states of one run, its frames and everything around them are a
   legal run, and a completed body stands on the stream whole, ended once.
   */
  method Upload(id: nat, body: BodySource, looks: seq<Look>, closing: bool,
                ghost run: seq<Action>, ghost env: seq<Turn>, ghost final: Turn)
    returns (ok: bool, frames: seq<Frame>, ghost turns: seq<nat>)
    requires forall i :: 0 <= i < |looks| ==> looks[i].maxFrameSize > 0
    requires Legal(run) && id in Http2Runs.Known(After(run).s) && id !in After(run).inFlight && |env| == |looks|
    ensures Permitted(Flowed(frames), looks, turns)
    ensures BodyWatched(run, env, final, looks, frames, turns, id) ==>
      var all := run + BodyActions(env, final, frames, turns, id);
      Legal(all) && DataOn(After(all).s.wire, id) == DataOn(After(run).s.wire, id) + frames
    ensures ok ==> Payloads(frames) == Contents(body) && if body == BodySource.Known([]) then frames == [] else EndsOnce(frames)
    ensures !ok ==> Payloads(frames) <= Contents(body) && Unended(frames)
  {
    hide Legal, After, BodyWatched, Payloads, Contents;
    ok, frames, turns := SendBody(id, body, looks, closing);
    if ok && frames == [] { assert Unended(frames); }
    PlainFrames(frames, id);
    if BodyWatched(run, env, final, looks, frames, turns, id) {
      BodyIsARun(run, env, final, looks, frames, turns, id);
    }
  }
}
