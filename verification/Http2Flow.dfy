/** What the client's flow control guarantees over every run (sections 5.1.2, 6.5 and 6.9 of RFC 7540). */
module Http2Flow {
  import opened Bytes
  import opened Http2Frames
  import opened Http2Session
  import opened Http2Runs

  // ---------------------------------------------------------------- conservation

  /**
   Send windows, over any interleaving of stream creation, SETTINGS and sends: each live stream
   has the initial window in force plus its credit minus the DATA on the wire; the connection
   has 65535 plus its credit minus all DATA, whatever SETTINGS did; none exceeds 2^31-1.
   */
  lemma SendWindowsConserved(run: seq<Action>)
    requires Legal(run)
    ensures var s := After(run).s;
            s.valid ==> SendLaw(run, s) && s.connectionSendWindow <= MAX_WINDOW
                        && forall id :: id in s.streams ==> s.streams[id].sendWindow <= MAX_WINDOW
  {
    InvHolds(run);
  }

  /**
   Receive windows: 65535 plus the increments sent minus all DATA received, padding included,
   on live, unknown and closed streams alike; within 0..65535; and each live stream holds
   exactly the body the peer sent.
   */
  lemma ReceiveWindowsConserved(run: seq<Action>)
    requires Legal(run)
    ensures var s := After(run).s;
            s.valid ==> RecvLaw(run, s) && 0 <= s.connectionRecvWindow <= DEFAULT_WINDOW
                        && forall id :: id in s.streams ==> 0 <= s.streams[id].recvWindow <= DEFAULT_WINDOW
  {
    InvHolds(run);
  }

  /** Every stream ever created is either live or ended; the counter is right; an invalid session has no streams. */
  lemma StreamsAccountedFor(run: seq<Action>)
    requires Legal(run)
    ensures var s := After(run).s;
            && s.streams.Keys + s.ended.Keys == OddBelow(s.nextStreamId) && s.streams.Keys !! s.ended.Keys
            && s.activeStreamCount == |Reserved(s.streams)| && (!s.valid ==> s.streams == map[])
  {
    InvHolds(run);
  }

  /** After DATA was accepted on an open stream, at least 32767 bytes of both windows are open again. */
  lemma WindowsReopen(run: seq<Action>, f: Frame)
    requires Legal(run) && After(run).s.valid && Chargeable(After(run).s, f) && |f.payload| <= After(run).s.maxFrameSize
    ensures var s' := Receive(After(run).s, f);
            s'.valid && f.stream in s'.streams
            && s'.connectionRecvWindow >= 32767 && s'.streams[f.stream].recvWindow >= 32767
  {
    hide Legal, After, Receive, OnData, Reserved, OddBelow, SendLaw, RecvLaw, RefillFrames;
    InvHolds(run);
    var s := After(run).s;
    ReceiveIsOnData(s, f);
    ChargedIsOnData(s, f);
    RefillAccount(0, 0, s.connectionRecvWindow - |f.payload|);
    RefillAccount(f.stream, 0, s.streams[f.stream].recvWindow - |f.payload|);
  }

  lemma ReceiveIsOnData(s: Session, f: Frame)
    requires f.kind == DATA && |f.payload| <= s.maxFrameSize
    ensures Receive(s, f) == OnData(s, f.flags, f.stream, f.payload)
  {
    hide OnData, OnSettings, OnWindowUpdate, OnPing, OnGoAway, OnRstStream, OnPushPromise, OnHeaders, OnContinuation;
  }

  // ---------------------------------------------------------------- credit on a stream

  /** No live stream has sent more than its credit. */
  ghost predicate WithinCredit(run: seq<Action>)
    requires Legal(run)
  {
    After(run).s.valid ==> forall id :: id in After(run).s.streams ==>
      SentData(After(run).s.wire, id) <= Initial(run) + Granted(run, id)
  }

  /** So far, and at every moment before. */
  ghost predicate AlwaysWithinCredit(run: seq<Action>)
    requires Legal(run)
  {
    WithinCredit(run) && (run != [] ==> AlwaysWithinCredit(run[..|run| - 1]))
  }

  /** The frame whose write has returned still fits the window it is about to be debited from. */
  ghost predicate DebitFits(c: Conn, a: Action)
  {
    a.EndSend? && c.s.valid && a.id in c.inFlight && a.id in c.s.streams ==>
      |c.inFlight[a.id].payload| <= c.s.streams[a.id].sendWindow
  }

  ghost predicate DebitsFit(run: seq<Action>)
    requires Legal(run)
  {
    run != [] ==> DebitsFit(run[..|run| - 1]) && DebitFits(After(run[..|run| - 1]), run[|run| - 1])
  }

  ghost predicate NonNegative(s: Session)
  {
    s.valid ==> forall id :: id in s.streams ==> s.streams[id].sendWindow >= 0
  }

  lemma CreditIsWindow(run: seq<Action>)
    requires Legal(run)
    ensures WithinCredit(run) <==> NonNegative(After(run).s)
  {
    hide Legal, After, SentData, Initial, Granted;
    SendWindowsConserved(run);
  }

  lemma SettingNonNegative(s: Session, id: nat, value: nat)
    requires value < TWO_32 && NonNegative(s)
    ensures NonNegative(ApplySetting(s, id, value).s)
  {
    hide Reserved;
  }

  lemma {:induction false} SettingsNonNegative(s: Session, payload: seq<byte>)
    requires NonNegative(s)
    ensures NonNegative(ApplySettings(s, payload).s)
    decreases |payload|
  {
    hide ApplySetting, NonNegative;
    if |payload| >= 6 {
      var id, value := payload[0] as int * 256 + payload[1] as int, ReadBe32(payload[2..6]);
      SettingNonNegative(s, id, value);
      SettingsNonNegative(ApplySetting(s, id, value).s, payload[6..]);
    }
  }

  /** No frame that is accepted takes a send window below zero: a SETTINGS that would is refused. */
  lemma ReceiveNonNegative(s: Session, f: Frame)
    requires Sound(s) && s.valid && NonNegative(s)
    ensures NonNegative(Receive(s, f))
  {
    hide Receive, Sound, OnSettings;
    ReceiveHandled(s, f);
    if f.kind == SETTINGS && |f.payload| <= s.maxFrameSize {
      ReceiveIsOnSettings(s, f);
      OnSettingsNonNegative(s, f);
    } else {
      var s' := Receive(s, f);
      if |f.payload| > s.maxFrameSize { OversizeFails(s, f); }
      forall id | s'.valid && id in s'.streams ensures s'.streams[id].sendWindow >= 0 {
        assert StreamAccepted(s, f, s', s'.wire[Min(|s.wire|, |s'.wire|)..], id);
      }
    }
  }

  lemma OversizeFails(s: Session, f: Frame)
    requires |f.payload| > s.maxFrameSize
    ensures !Receive(s, f).valid
  {
  }

  lemma ReceiveIsOnSettings(s: Session, f: Frame)
    requires f.kind == SETTINGS && |f.payload| <= s.maxFrameSize
    ensures Receive(s, f) == OnSettings(s, f.flags, f.payload)
  {
    hide OnSettings;
  }

  lemma OnSettingsNonNegative(s: Session, f: Frame)
    requires NonNegative(s)
    ensures NonNegative(OnSettings(s, f.flags, f.payload))
  {
    hide ApplySettings;
    SettingsNonNegative(s, f.payload);
  }

  /** Only a debit can take a window below zero, and it does so exactly when the frame no longer fits. */
  lemma StepNonNegative(before: seq<Action>, a: Action)
    requires Legal(before) && Enabled(After(before), a) && NonNegative(After(before).s)
    ensures NonNegative(Step(After(before), a).s) <==> DebitFits(After(before), a)
  {
    hide Legal, After, Receive, Reserved, OddBelow;
    var c := After(before);
    SoundAfter(before);
    match a {
      case ReceiveFrame(f) => ReceiveNonNegative(c.s, f);
      case CreateStream(_) => InitialNonNegative(before);
      case EndSend(id) => DebitNonNegative(c, id);
      case BeginSend(_, _, _) =>
      case AbandonSend(_) =>
      case ReleaseStream(_, _, _) =>
      case ReaderExits =>
      case CloseSession =>
    }
  }

  lemma InitialNonNegative(run: seq<Action>)
    requires Legal(run)
    ensures After(run).s.valid ==> After(run).s.remoteInitialWindow >= 0
  {
    InvHolds(run);
  }

  lemma DebitNonNegative(c: Conn, id: nat)
    requires id in c.inFlight && NonNegative(c.s)
    ensures NonNegative(Step(c, EndSend(id)).s) <==> DebitFits(c, EndSend(id))
  {
    var s, f := c.s, c.inFlight[id];
    var s' := Step(c, EndSend(id)).s;
    assert s'.valid == s.valid;
    if id in s.streams {
      assert s'.streams == s.streams[id := Shifted(s.streams[id], 0 - |f.payload|)];
      assert s'.streams[id].sendWindow == s.streams[id].sendWindow - |f.payload|;
    } else {
      assert s'.streams == s.streams;
    }
  }

  /**
   Exactly when no stream ever has written more than its credit: in every run, at every moment, if and
   only if each DATA frame still fits its stream's window when its write has returned.
   */
  lemma {:induction false} DebitsExactly(run: seq<Action>)
    requires Legal(run)
    ensures AlwaysWithinCredit(run) <==> DebitsFit(run)
    ensures AlwaysWithinCredit(run) ==> NonNegative(After(run).s)
    decreases |run|
  {
    hide WithinCredit, NonNegative, DebitFits, Enabled, Step;
    CreditIsWindow(run);
    if run == [] {
      NothingOwed();
    } else {
      var before, a := run[..|run| - 1], run[|run| - 1];
      DebitsExactly(before);
      if AlwaysWithinCredit(before) { StepNonNegative(before, a); }
    }
  }

  lemma NothingOwed()
    ensures NonNegative(After([]).s) && FlightsFit(After([]))
  {
  }

  /** While a write is under way no SETTINGS lowers the initial window. */
  ghost predicate Calm(run: seq<Action>)
    requires Legal(run)
  {
    run != [] ==> Calm(run[..|run| - 1])
                  && (After(run[..|run| - 1]).inFlight != map[] ==> Initial(run) >= Initial(run[..|run| - 1]))
  }

  /** Check, write and debit of a send are one step: nothing happens while a write is under way. */
  ghost predicate Atomic(run: seq<Action>)
    requires Legal(run)
  {
    run != [] ==> Atomic(run[..|run| - 1])
                  && (After(run[..|run| - 1]).inFlight != map[] ==> run[|run| - 1].EndSend? || run[|run| - 1].AbandonSend?)
  }

  lemma {:induction false} AtomicIsCalm(run: seq<Action>)
    requires Legal(run) && Atomic(run)
    ensures Calm(run)
    decreases |run|
  {
    hide Enabled, Step;
    if run != [] { AtomicIsCalm(run[..|run| - 1]); }
  }

  /** What each stream is writing fits its window. */
  ghost predicate FlightsFit(c: Conn)
  {
    c.s.valid ==> forall id :: id in c.inFlight && id in c.s.streams ==>
      |c.inFlight[id].payload| <= c.s.streams[id].sendWindow
  }

  lemma ReceiveKeepsFlights(c: Conn, f: Frame)
    requires Sound(c.s) && c.s.valid && FlightsFit(c)
    requires c.inFlight != map[] ==> FrameInitial(f, c.s.remoteInitialWindow) >= c.s.remoteInitialWindow
    ensures FlightsFit(c.(s := Receive(c.s, f)))
  {
    hide Receive, Sound;
    var s, s' := c.s, Receive(c.s, f);
    ReceiveHandled(s, f);
    forall id | s'.valid && id in c.inFlight && id in s'.streams
      ensures |c.inFlight[id].payload| <= s'.streams[id].sendWindow
    {
      assert StreamAccepted(s, f, s', s'.wire[Min(|s.wire|, |s'.wire|)..], id);
    }
  }

  lemma {:induction false} CalmFlightsFit(run: seq<Action>)
    requires Legal(run) && Calm(run)
    ensures FlightsFit(After(run)) && NonNegative(After(run).s) && DebitsFit(run)
    decreases |run|
  {
    hide Receive, Inv, Reserved, OddBelow, Sound;
    if run != [] {
      var before, a := run[..|run| - 1], run[|run| - 1];
      var c := After(before);
      CalmFlightsFit(before);
      assert DebitFits(c, a);
      StepNonNegative(before, a);
      CalmStep(before, a, run);
    }
  }

  lemma CalmStep(before: seq<Action>, a: Action, run: seq<Action>)
    requires Legal(before) && Enabled(After(before), a) && Extends(before, a, run)
    requires FlightsFit(After(before)) && NonNegative(After(before).s)
    requires After(before).inFlight != map[] ==> Initial(run) >= Initial(before)
    ensures FlightsFit(Step(After(before), a))
  {
    hide Legal, After, Receive, Reserved, OddBelow, Sound;
    var c := After(before);
    SoundAfter(before);
    match a {
      case ReceiveFrame(f) =>
        InitialInForce(before);
        ReceiveKeepsFlights(c, f);
      case CreateStream(id) => NewStreamNotInFlight(before);
      case BeginSend(_, _, _) =>
      case EndSend(_) =>
      case AbandonSend(_) =>
      case ReleaseStream(_, _, _) =>
      case ReaderExits =>
      case CloseSession =>
    }
  }

  lemma InitialInForce(run: seq<Action>)
    requires Legal(run)
    ensures After(run).s.valid ==> After(run).s.remoteInitialWindow == Initial(run)
  {
    InvHolds(run);
  }

  lemma NewStreamNotInFlight(run: seq<Action>)
    requires Legal(run)
    ensures After(run).s.nextStreamId !in After(run).inFlight
  {
    InvHolds(run);
  }

  // ---------------------------------------------------------------- exactly

  /** What each live stream has written and is writing is within its credit. */
  ghost predicate Covered(run: seq<Action>)
    requires Legal(run)
  {
    After(run).s.valid ==> forall id :: id in After(run).s.streams ==>
      SentData(After(run).s.wire, id) + Writing(After(run), id) <= Initial(run) + Granted(run, id)
  }

  ghost predicate AlwaysCovered(run: seq<Action>)
    requires Legal(run)
  {
    Covered(run) && (run != [] ==> AlwaysCovered(run[..|run| - 1]))
  }

  /** A SETTINGS frame that the session survives leaves every frame being written within its stream's window. */
  ghost predicate LeavesRoom(c: Conn, a: Action)
    requires Enabled(c, a)
  {
    a.ReceiveFrame? && a.frame.kind == SETTINGS && Step(c, a).s.valid ==>
      forall id :: id in c.inFlight && id in c.s.streams && id in Step(c, a).s.streams ==>
        |c.inFlight[id].payload|
        <= c.s.streams[id].sendWindow + FrameInitial(a.frame, c.s.remoteInitialWindow) - c.s.remoteInitialWindow
  }

  ghost predicate SettingsLeaveRoom(run: seq<Action>)
    requires Legal(run)
  {
    run != [] ==> SettingsLeaveRoom(run[..|run| - 1]) && LeavesRoom(After(run[..|run| - 1]), run[|run| - 1])
  }

  lemma CoveredIsFit(run: seq<Action>)
    requires Legal(run)
    ensures Covered(run) <==> FlightsFit(After(run)) && NonNegative(After(run).s)
  {
    hide Legal, After, SentData, Initial, Granted;
    SendWindowsConserved(run);
  }

  lemma ReceiveFits(c: Conn, f: Frame)
    requires Sound(c.s) && c.s.valid && FlightsFit(c) && NonNegative(c.s)
    ensures FlightsFit(c.(s := Receive(c.s, f))) <==> LeavesRoom(c, ReceiveFrame(f))
  {
    hide Receive, Sound;
    var s, s' := c.s, Receive(c.s, f);
    ReceiveHandled(s, f);
    forall id | s'.valid && id in s'.streams
      ensures id in s.streams
      ensures s'.streams[id].sendWindow
           == s.streams[id].sendWindow + FrameGrant(f, id) + FrameInitial(f, s.remoteInitialWindow) - s.remoteInitialWindow
    {
      assert StreamAccepted(s, f, s', s'.wire[Min(|s.wire|, |s'.wire|)..], id);
    }
  }

  lemma StepFits(before: seq<Action>, a: Action)
    requires Legal(before) && Enabled(After(before), a) && FlightsFit(After(before)) && NonNegative(After(before).s)
    ensures FlightsFit(Step(After(before), a)) && NonNegative(Step(After(before), a).s) <==> LeavesRoom(After(before), a)
  {
    hide Legal, After, Receive, Reserved, OddBelow, Sound;
    var c := After(before);
    SoundAfter(before);
    StepNonNegative(before, a);
    match a {
      case ReceiveFrame(f) => ReceiveFits(c, f);
      case CreateStream(id) => NewStreamNotInFlight(before);
      case BeginSend(_, _, _) =>
      case EndSend(_) =>
      case AbandonSend(_) =>
      case ReleaseStream(_, _, _) =>
      case ReaderExits =>
      case CloseSession =>
    }
  }

  /**
   In every run, at every moment, what each stream has written and is writing stays within its credit if and only if
   every SETTINGS frame that is survived leaves the frames being written within their windows.
   */
  lemma {:induction false} StreamCreditExactly(run: seq<Action>)
    requires Legal(run)
    ensures AlwaysCovered(run) <==> SettingsLeaveRoom(run)
    ensures AlwaysCovered(run) ==> FlightsFit(After(run)) && NonNegative(After(run).s)
    decreases |run|
  {
    hide Covered, NonNegative, FlightsFit, LeavesRoom, Enabled, Step;
    CoveredIsFit(run);
    if run == [] {
      NothingOwed();
    } else {
      var before, a := run[..|run| - 1], run[|run| - 1];
      StreamCreditExactly(before);
      if AlwaysCovered(before) { StepFits(before, a); }
    }
  }

  /** If sends are atomic, what a stream has written and is writing stays within its credit, at every moment. */
  lemma StreamStaysWithinCredit(run: seq<Action>, id: nat)
    requires Legal(run) && Atomic(run) && After(run).s.valid && id in After(run).s.streams
    ensures SentData(After(run).s.wire, id) + Writing(After(run), id) <= Initial(run) + Granted(run, id)
  {
    AtomicIsCalm(run);
    CalmStaysWithinCredit(run, id);
  }

  function Writing(c: Conn, id: nat): nat { if id in c.inFlight then |c.inFlight[id].payload| else 0 }

  /** It is enough that no SETTINGS lowers the initial window during a write; all else may interleave. */
  lemma CalmStaysWithinCredit(run: seq<Action>, id: nat)
    requires Legal(run) && Calm(run) && After(run).s.valid && id in After(run).s.streams
    ensures SentData(After(run).s.wire, id) + Writing(After(run), id) <= Initial(run) + Granted(run, id)
  {
    hide Legal, After, SentData, Initial, Granted, Calm;
    CalmFlightsFit(run);
    SendWindowsConserved(run);
  }

  /** One stream, on which 16384 bytes are being written. */
  lemma WritingOne(run: seq<Action>)
    requires run == [CreateStream(1), BeginSend(1, Piece(), false)]
    ensures Legal(run) && After(run).inFlight == map[1 := Frame(DATA, 0, 1, Piece())]
    ensures var s := After(run).s;
      && s.valid && s.streams.Keys == {1} && s.streams[1].sendWindow == 65535 && s.remoteInitialWindow == 65535
      && s.maxFrameSize == 16384 && s.wire == Started().wire
  {
    hide Legal, After, OnlyMade, Piece;
    var create, send := CreateStream(1), BeginSend(1, Piece(), false);
    MadeNothing();
    MakesOneMore([], {}, 1);
    assert [] + [create] == [create] && {} + {1} == {1};
    BeginsOne([create]);
    assert [create] + [send] == run;
  }

  lemma BeginsOne(before: seq<Action>)
    requires Legal(before) && OnlyMade(before, {1}, 3)
    ensures var run := before + [BeginSend(1, Piece(), false)];
      && Legal(run) && After(run) == Conn(After(before).s, map[1 := Frame(DATA, 0, 1, Piece())])
      && After(before).s.valid && 1 in After(before).s.streams && After(before).s.streams.Keys == {1}
      && After(before).s.streams[1].sendWindow == 65535 && After(before).s.remoteInitialWindow == 65535
      && After(before).s.maxFrameSize == 16384 && After(before).s.wire == Started().wire
  {
    hide Legal, After, Granted, Piece, Started, Receive, Create, Release, ReaderExit, Close, Debit;
    assert |Piece()| == 16384 by { StartsNeutral(); }
    OneMore(before, BeginSend(1, Piece(), false));
  }

  /** Otherwise it fails: the window shrinks to nothing while 16384 bytes are being written. */
  lemma ShrinkDuringWriteOverdraws() returns (run: seq<Action>)
    ensures Legal(run) && After(run).s.valid && 1 in After(run).s.streams
    ensures SentData(After(run).s.wire, 1) == 16384 && Initial(run) == 0 && Granted(run, 1) == 0
  {
    hide Receive, SentData, ShrinkFrame, Legal, After, Initial, Granted, Piece, Started;
    var create, send, shrink, done := CreateStream(1), BeginSend(1, Piece(), false), ReceiveFrame(ShrinkFrame()), EndSend(1);
    var before := [create, send];
    WritingOne(before);
    ShrinkAccepted(After(before).s, 1);
    OneMore(before, shrink);
    assert before + [shrink] == [create, send, shrink];
    OneMore([create, send, shrink], done);
    run := [create, send, shrink, done];
    assert [create, send, shrink] + [done] == run;
    StartsNeutral();
    DataAfterNeutral(Started().wire, Frame(SETTINGS, ACK, 0, []), Frame(DATA, 0, 1, Piece()));
    ShrinkFolds(create, send, shrink, done);
  }

  lemma StartsNeutral()
    ensures Neutral(Started().wire) && Neutral([Frame(SETTINGS, ACK, 0, [])]) && |Piece()| == 16384
  {
  }

  lemma ShrinkFolds(create: Action, send: Action, shrink: Action, done: Action)
    requires create == CreateStream(1) && send.BeginSend? && shrink == ReceiveFrame(ShrinkFrame()) && done.EndSend?
    ensures Initial([create, send, shrink, done]) == 0 && Granted([create, send, shrink, done], 1) == 0
  {
    var run := [create, send, shrink, done];
    assert run[..3] == [create, send, shrink] && run[..3][..2] == [create, send] && run[..3][..2][..1] == [create];
    ShrinkBytes();
    hide ShrinkFrame, ReadBe32;
    assert ReadBe32([0, 0, 0, 0]) == 0 by { ZeroWord(); }
    assert SettingsInitial(ShrinkFrame().payload, 65535) == 0 by {
      assert ShrinkFrame().payload[2..6] == [0, 0, 0, 0] && ShrinkFrame().payload[6..] == [];
    }
    assert Initial([create]) == 65535 && Initial([create, send]) == 65535 && Initial([create, send, shrink]) == 0;
    assert Granted([create], 1) == 0 && Granted([create, send], 1) == 0 && Granted([create, send, shrink], 1) == 0;
  }

  lemma DataAfterNeutral(wire: seq<Frame>, ack: Frame, data: Frame)
    requires Neutral(wire) && Neutral([ack]) && data.kind == DATA
    ensures SentData(wire + [ack] + [data], data.stream) == |data.payload|
  {
    hide SentData, SentInAll, SentGrants;
    NeutralSendsNothing(wire, data.stream);
    NeutralSendsNothing([ack], data.stream);
    SentAppend(wire, [ack], data.stream);
    SentAppend(wire + [ack], [data], data.stream);
    SentOne(data);
  }

  /** A SETTINGS frame that takes the only stream's untouched window to zero is accepted. */
  lemma ShrinkAccepted(s: Session, id: nat)
    requires s.valid && s.streams.Keys == {id} && s.streams[id].sendWindow == 65535 && s.remoteInitialWindow == 65535
    requires s.maxFrameSize >= 16384
    ensures var s' := Receive(s, ShrinkFrame());
            && s'.valid && s'.streams.Keys == {id} && s'.ended == s.ended
            && s'.wire == s.wire + [Frame(SETTINGS, ACK, 0, [])]
  {
    hide Receive, WindowFrame;
    WindowSettingApplied(s, 0);
  }

  lemma OneSetting(s: Session, payload: seq<byte>)
    requires |payload| == 6
    ensures ApplySettings(s, payload) == ApplySetting(s, payload[0] as int * 256 + payload[1] as int, ReadBe32(payload[2..6]))
  {
    hide ApplySetting;
    assert payload[6..] == [];
  }

  function WindowFrame(v: nat): Frame
    requires v < TWO_32
  {
    Frame(SETTINGS, 0, 0, [0, 4] + Be32(v))
  }

  /**
   A SETTINGS frame with a new initial window is survived exactly if it leaves no stream a negative window, which
   section 6.9.2 of RFC 7540 allows, nor one beyond 2^31-1.
   */
  lemma WindowSettingExactly(s: Session, v: nat)
    requires s.valid && v < TWO_32 && s.maxFrameSize >= 16384
    ensures Receive(s, WindowFrame(v)).valid <==>
      v <= MAX_WINDOW
      && forall id :: id in s.streams ==> 0 <= s.streams[id].sendWindow + (v - s.remoteInitialWindow) <= MAX_WINDOW
  {
    hide Receive, WindowFrame;
    WindowSettingApplied(s, v);
  }

  lemma WindowSettingApplied(s: Session, v: nat)
    requires v < TWO_32 && s.maxFrameSize >= 16384
    ensures Receive(s, WindowFrame(v))
         == Emit(ApplyInitialWindowSize(s, v).(peerSettingsSeen := true), Frame(SETTINGS, ACK, 0, []))
  {
    hide Receive, ApplySettings, ApplyInitialWindowSize, Be32, ReadBe32;
    var f := WindowFrame(v);
    Be32RoundTrip(v, []);
    assert Be32(v) + [] == Be32(v) && f.payload[2..6] == Be32(v);
    ReceiveIsOnSettings(s, f);
    OneSetting(s, f.payload);
    assert !HasFlag(0, ACK);
  }

  /** A peer that lowers the initial window to zero after 16384 bytes were written on a stream ends the session. */
  lemma ShrinkAfterWriteFails() returns (run: seq<Action>)
    ensures Legal(run) && run != [] && run[|run| - 1] == ReceiveFrame(ShrinkFrame())
    ensures After(run[..|run| - 1]).s.valid && !After(run).s.valid
  {
    hide Receive, ShrinkFrame, Legal, After, Started;
    var done := EndSend(1);
    var during := [CreateStream(1), BeginSend(1, Piece(), false)];
    WritingOne(during);
    OneMore(during, done);
    var before := during + [done];
    assert After(before).s.streams[1].sendWindow == 65535 - 16384;
    WindowSettingExactly(After(before).s, 0);
    assert ShrinkFrame() == WindowFrame(0) by { ShrinkIsWindow(); }
    OneMore(before, ReceiveFrame(ShrinkFrame()));
    run := before + [ReceiveFrame(ShrinkFrame())];
    assert run[..|run| - 1] == before;
  }

  lemma ShrinkIsWindow()
    ensures ShrinkFrame() == WindowFrame(0)
  {
  }

  function ShrinkFrame(): Frame { WindowFrame(0) }

  lemma ZeroWord()
    ensures ReadBe32([0, 0, 0, 0]) == 0
  {
  }

  lemma ShrinkBytes()
    ensures ShrinkFrame() == Frame(SETTINGS, 0, 0, [0, 4, 0, 0, 0, 0])
  {
    assert Be32(0) == [0, 0, 0, 0];
  }

  // ---------------------------------------------------------------- credit on the connection

  /** Bytes handed to the connection whose debit is still to come. */
  ghost function PendingBytes(m: map<nat, Frame>): nat
    decreases |m|
  {
    if m == map[] then 0
    else
      var id :| id in m;
      assert (m - {id}).Keys == m.Keys - {id};
      |m[id].payload| + PendingBytes(m - {id})
  }

  lemma {:induction false} PendingRemove(m: map<nat, Frame>, id: nat)
    requires id in m
    ensures PendingBytes(m) == |m[id].payload| + PendingBytes(m - {id})
    decreases |m|
  {
    var k :| k in m && PendingBytes(m) == |m[k].payload| + PendingBytes(m - {k});
    if k != id {
      assert (m - {k}).Keys == m.Keys - {k};
      PendingRemove(m - {k}, id);
      assert m - {k} - {id} == m - {id} - {k};
      assert (m - {id}).Keys == m.Keys - {id};
      PendingRemove(m - {id}, k);
    }
  }

  lemma PendingAdd(m: map<nat, Frame>, id: nat, f: Frame)
    requires id !in m
    ensures PendingBytes(m[id := f]) == PendingBytes(m) + |f.payload|
  {
    assert m[id := f] - {id} == m;
    PendingRemove(m[id := f], id);
  }

  /** What is on the wire or on its way stays within the connection's credit. */
  ghost predicate ConnectionWithin(run: seq<Action>)
    requires Legal(run)
  {
    After(run).s.valid ==>
      SentInAll(After(run).s.wire) + PendingBytes(After(run).inFlight) <= DEFAULT_WINDOW + Granted(run, 0)
  }

  ghost predicate AlwaysConnectionWithin(run: seq<Action>)
    requires Legal(run)
  {
    ConnectionWithin(run) && (run != [] ==> AlwaysConnectionWithin(run[..|run| - 1]))
  }

  /** A new send leaves room for those already under way. */
  ghost predicate BeginFits(c: Conn, a: Action)
  {
    a.BeginSend? && c.s.valid ==> PendingBytes(c.inFlight) + |a.data| <= c.s.connectionSendWindow
  }

  ghost predicate BeginsFit(run: seq<Action>)
    requires Legal(run)
  {
    run != [] ==> BeginsFit(run[..|run| - 1]) && BeginFits(After(run[..|run| - 1]), run[|run| - 1])
  }

  ghost predicate PendingFits(c: Conn)
  {
    c.s.valid ==> PendingBytes(c.inFlight) <= c.s.connectionSendWindow
  }

  lemma ConnectionCreditIsWindow(run: seq<Action>)
    requires Legal(run)
    ensures ConnectionWithin(run) <==> PendingFits(After(run))
  {
    hide Legal, After, SentInAll, PendingBytes, Granted;
    SendWindowsConserved(run);
  }

  /** Only a send that begins can break the bound, and it does so exactly when it does not fit. */
  lemma StepPending(before: seq<Action>, a: Action)
    requires Legal(before) && Enabled(After(before), a) && PendingFits(After(before))
    ensures PendingFits(Step(After(before), a)) <==> BeginFits(After(before), a)
  {
    hide Legal, After, Receive, Sound, Reserved, OddBelow, PendingBytes;
    var c := After(before);
    match a {
      case ReceiveFrame(f) =>
        SoundAfter(before);
        ReceiveHandled(c.s, f);
      case BeginSend(id, data, last) =>
        PendingAdd(c.inFlight, id, Frame(DATA, if last then END_STREAM else 0, id, data));
      case EndSend(id) => PendingRemove(c.inFlight, id);
      case AbandonSend(id) => PendingRemove(c.inFlight, id);
      case CreateStream(_) =>
      case ReleaseStream(_, _, _) =>
      case ReaderExits =>
      case CloseSession =>
    }
  }

  lemma SoundAfter(run: seq<Action>)
    requires Legal(run)
    ensures Sound(After(run).s)
  {
    InvHolds(run);
  }

  /**
   The connection's credit over whole runs, sends interleaving as they like: what is written or
   being written is within it at every moment if and only if each send, when it began, fitted the
   connection's window together with all sends then under way.
   */
  lemma {:induction false} OverdraftExactly(run: seq<Action>)
    requires Legal(run)
    ensures AlwaysConnectionWithin(run) <==> BeginsFit(run)
    ensures AlwaysConnectionWithin(run) ==> PendingFits(After(run))
    decreases |run|
  {
    hide ConnectionWithin, PendingFits, BeginFits, Enabled, Step;
    ConnectionCreditIsWindow(run);
    if run == [] {
      NothingPending();
    } else {
      var before, a := run[..|run| - 1], run[|run| - 1];
      OverdraftExactly(before);
      if AlwaysConnectionWithin(before) { StepPending(before, a); }
    }
  }

  lemma NothingPending()
    ensures PendingFits(After([]))
  {
  }

  /** The check, the write and the debit of a send are never interleaved with another send's. */
  ghost predicate Serial(run: seq<Action>)
    requires Legal(run)
  {
    run != [] ==> Serial(run[..|run| - 1])
                  && (run[|run| - 1].BeginSend? ==> After(run[..|run| - 1]).inFlight == map[])
  }

  /** A send that passes the check while no other is under way fits. */
  lemma {:induction false} SerialBeginsFit(run: seq<Action>)
    requires Legal(run) && Serial(run)
    ensures BeginsFit(run)
    decreases |run|
  {
    hide Step, PendingFits;
    if run != [] {
      var before := run[..|run| - 1];
      SerialBeginsFit(before);
      OverdraftExactly(before);
      SerialBeginFits(After(before), run[|run| - 1]);
    }
  }

  lemma SerialBeginFits(c: Conn, a: Action)
    requires Enabled(c, a) && PendingFits(c) && (a.BeginSend? ==> c.inFlight == map[])
    ensures BeginFits(c, a)
  {
  }

  /** With serial sends, the DATA bytes on the wire or on their way never exceed the connection's credit. */
  lemma ConnectionStaysWithinCredit(run: seq<Action>)
    requires Legal(run) && Serial(run) && After(run).s.valid
    ensures SentInAll(After(run).s.wire) + PendingBytes(After(run).inFlight) <= DEFAULT_WINDOW + Granted(run, 0)
  {
    hide Legal, After, SentInAll, PendingBytes, Granted;
    SerialBeginsFit(run);
    OverdraftExactly(run);
  }

  // ---------------------------------------------------------------- an overdraft

  function Piece(): seq<byte> { seq(16384, i => 0) }

  /** Four streams that all pass the check before any of them is debited: 65536 bytes against a credit of 65535. */
  lemma InterleavedSendsOverdraw() returns (run: seq<Action>)
    ensures Legal(run) && After(run).s.valid
    ensures SentInAll(After(run).s.wire) + PendingBytes(After(run).inFlight) > DEFAULT_WINDOW + Granted(run, 0)
  {
    run := FourStreams();
    run := FourSends(run);
  }

  /** Nothing but streams has been made, up to the number before `next`. */
  ghost predicate OnlyMade(run: seq<Action>, keys: set<nat>, next: nat)
    requires Legal(run)
  {
    var c := After(run);
    && c.inFlight == map[] && CanCreate(c.s) && c.s.nextStreamId == next && c.s.streams.Keys == keys
    && c.s.activeStreamCount <= next && c.s.maxConcurrentStreams == c.s.goAwayLastStreamId == TWO_32 - 1
    && c.s.maxFrameSize == 16384 && c.s.connectionSendWindow == 65535 && c.s.remoteInitialWindow == 65535
    && (forall id :: id in c.s.streams ==> c.s.streams[id].sendWindow == 65535)
    && c.s.wire == Started().wire && Granted(run, 0) == 0
  }

  lemma MakesOneMore(run: seq<Action>, keys: set<nat>, next: nat)
    requires Legal(run) && OnlyMade(run, keys, next) && 0 < next < 10
    ensures var more := run + [CreateStream(next)]; Legal(more) && OnlyMade(more, keys + {next}, next + 2)
  {
    hide Legal, After, Granted, Started;
    OneMore(run, CreateStream(next));
  }

  lemma FourStreams() returns (run: seq<Action>)
    ensures Legal(run) && OnlyMade(run, {1, 3, 5, 7}, 9)
  {
    hide Legal, OnlyMade;
    run := [];
    assert Legal(run) && OnlyMade(run, {}, 1) by { MadeNothing(); }
    MakesOneMore(run, {}, 1); run := run + [CreateStream(1)];
    MakesOneMore(run, {} + {1}, 3); run := run + [CreateStream(3)];
    MakesOneMore(run, {} + {1} + {3}, 5); run := run + [CreateStream(5)];
    MakesOneMore(run, {} + {1} + {3} + {5}, 7); run := run + [CreateStream(7)];
    assert {} + {1} + {3} + {5} + {7} == {1, 3, 5, 7};
  }

  lemma MadeNothing()
    ensures Legal([]) && OnlyMade([], {}, 1)
  {
  }

  lemma FourSends(before: seq<Action>) returns (run: seq<Action>)
    requires Legal(before) && After(before).inFlight == map[] && Granted(before, 0) == 0
    requires var s := After(before).s;
             s.valid && s.maxFrameSize == 16384 && s.connectionSendWindow == 65535 && s.streams.Keys == {1, 3, 5, 7}
    requires forall id :: id in After(before).s.streams ==> After(before).s.streams[id].sendWindow == 65535
    ensures Legal(run) && After(run).s.valid
    ensures SentInAll(After(run).s.wire) + PendingBytes(After(run).inFlight) > DEFAULT_WINDOW + Granted(run, 0)
  {
    run := SendPiece(before, 1);
    run := SendPiece(run, 3);
    run := SendPiece(run, 5);
    run := SendPiece(run, 7);
  }

  lemma SendPiece(before: seq<Action>, id: nat) returns (run: seq<Action>)
    requires Legal(before) && id in Known(After(before).s) && id !in After(before).inFlight
    requires WindowsAllow(After(before).s, id, 16384)
    ensures Legal(run) && After(run).s == After(before).s && Granted(run, 0) == Granted(before, 0)
    ensures After(run).inFlight.Keys == After(before).inFlight.Keys + {id}
    ensures PendingBytes(After(run).inFlight) == PendingBytes(After(before).inFlight) + 16384
  {
    hide Legal, After, Granted, PendingBytes, Piece, Receive, Create, Release, ReaderExit, Close, Debit;
    assert |Piece()| == 16384 by { StartsNeutral(); }
    var a := BeginSend(id, Piece(), false);
    OneMore(before, a);
    run := before + [a];
    PendingAdd(After(before).inFlight, id, Frame(DATA, 0, id, Piece()));
  }
}
