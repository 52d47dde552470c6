/**
 The decoder's table and the frame size over runs of a session, against what RFC 7540 asks for.

 Section 4.3 wants every header block decoded, whatever becomes of its stream, and the peer's
 HEADER_TABLE_SIZE is for the client's encoder alone (section 6.5.2).  The code drops the blocks of streams it no
 longer knows or that have ended, and resizes its decoder too.  Section 4.2 bounds arriving frames by
 the size the client allows, which is the default; the code bounds them by the size the peer allows.
 */
module Http2Tables {
  import opened Bytes
  import opened Http2Frames
  import opened Http2Session
  import opened Http2Runs
  import opened HpackTable
  import Hpack

  // ---------------------------------------------------------------- what a frame does to table and size

  /** The header block that frame `f` completes, whatever its stream. */
  function Completes(s: Session, f: Frame): Option<seq<byte>>
  {
    if f.stream == 0 || !HasFlag(f.flags, END_HEADERS) || |f.payload| > s.maxFrameSize then None
    else if f.kind == HEADERS && s.pending.stream == 0 then Fragment(f.flags, f.payload)
    else if f.kind == CONTINUATION && s.pending.stream == f.stream then Some(s.pending.buffer + f.payload)
    else None
  }

  /** The block of stream `id` is dropped undecoded. */
  predicate Drops(s: Session, id: nat) { id !in s.streams || s.streams[id].endStream }

  /** The parameters that frame `f` sets. */
  function Parameters(s: Session, f: Frame): seq<byte>
  {
    if f.kind == SETTINGS && !HasFlag(f.flags, ACK) && |f.payload| % 6 == 0 && |f.payload| <= s.maxFrameSize
    then f.payload else []
  }

  function Key(payload: seq<byte>): nat
    requires |payload| >= 6
  {
    payload[0] as int * 256 + payload[1] as int
  }

  function Value(payload: seq<byte>): (v: nat)
    requires |payload| >= 6
    ensures v < TWO_32
  {
    ReadBe32(payload[2..6])
  }

  /** A frame size outside its range, at which the code stops reading parameters. */
  predicate BadSize(payload: seq<byte>)
    requires |payload| >= 6
  {
    Key(payload) == 5 && !(16384 <= Value(payload) <= 16777215)
  }

  /** The table sizes asked for, in order. */
  function TableSizes(payload: seq<byte>): seq<nat>
    decreases |payload|
  {
    if |payload| < 6 || BadSize(payload) then []
    else (if Key(payload) == 1 then [Value(payload)] else []) + TableSizes(payload[6..])
  }

  function Resizes(t: Table, sizes: seq<nat>): Table
    decreases |sizes|
  {
    if sizes == [] then t else Resizes(Resize(t, sizes[0]), sizes[1..])
  }

  /** The frame size after these parameters. */
  function FrameSize(payload: seq<byte>, current: nat): nat
    decreases |payload|
  {
    if |payload| < 6 || BadSize(payload) then current
    else FrameSize(payload[6..], if Key(payload) == 5 then Value(payload) else current)
  }

  /** The number of streams the peer allows at a time, after these parameters. */
  function Concurrency(payload: seq<byte>, current: nat): nat
    decreases |payload|
  {
    if |payload| < 6 || BadSize(payload) then current
    else Concurrency(payload[6..], if Key(payload) == 3 then Value(payload) else current)
  }

  ghost predicate Untouched(s: Session, s': Session)
  {
    s'.decoder == s.decoder && s'.maxFrameSize == s.maxFrameSize
  }

  lemma {:induction false} SettingsTouch(s: Session, payload: seq<byte>)
    ensures var s' := ApplySettings(s, payload).s;
      && s'.decoder == Resizes(s.decoder, TableSizes(payload)) && s'.encoder == Resizes(s.encoder, TableSizes(payload))
      && s'.maxFrameSize == FrameSize(payload, s.maxFrameSize)
      && s'.maxConcurrentStreams == Concurrency(payload, s.maxConcurrentStreams)
    decreases |payload|
  {
    hide Resize;
    if |payload| >= 6 {
      SettingTouches(s, Key(payload), Value(payload));
      hide ApplySetting;
      if !BadSize(payload) {
        SettingsTouch(ApplySetting(s, Key(payload), Value(payload)).s, payload[6..]);
        var rest := TableSizes(payload[6..]);
        assert ([Value(payload)] + rest)[1..] == rest && [] + rest == rest;
      }
    }
  }

  lemma SettingTouches(s: Session, key: nat, value: nat)
    requires value < TWO_32
    ensures var o := ApplySetting(s, key, value);
      && o.done == (key != 5 || 16384 <= value <= 16777215)
      && o.s.decoder == (if key == 1 then Resize(s.decoder, value) else s.decoder)
      && o.s.encoder == (if key == 1 then Resize(s.encoder, value) else s.encoder)
      && o.s.maxConcurrentStreams == (if key == 3 then value else s.maxConcurrentStreams)
      && o.s.maxFrameSize == (if key == 5 && o.done then value else s.maxFrameSize)
  {
    hide Resize, Reserved;
  }

  lemma CompleteBlockTouches(s: Session, endStream: bool)
    ensures var s' := CompleteBlock(s, endStream);
      && s'.maxFrameSize == s.maxFrameSize
      && s'.decoder == (if Drops(s, s.pending.stream) then s.decoder
                        else Hpack.DecodeBlock(s.decoder, s.pending.buffer, 0).table)
  {
    hide Reserved, Hpack.DecodeBlock;
  }

  lemma FailTouchesNothing(s: Session, code: nat)
    requires code < TWO_32
    ensures Untouched(s, Fail(s, code))
  {
    hide Reserved;
  }

  lemma OthersTouchNothing(s: Session, f: Frame)
    requires f.kind != SETTINGS && f.kind != HEADERS && f.kind != CONTINUATION
    ensures Untouched(s, HandleFrame(s, f))
  {
    if f.kind == DATA { DataTouchesNothing(s, f); } else { hide OnData; PlainTouchesNothing(s, f); }
  }

  lemma DataTouchesNothing(s: Session, f: Frame)
    ensures Untouched(s, OnData(s, f.flags, f.stream, f.payload))
  {
    hide Reserved, HasFlag, Fail, RefillFrames, Refill, Unpad;
    var conn := s.connectionRecvWindow - |f.payload|;
    FailTouchesNothing(s, PROTOCOL_ERROR);
    FailTouchesNothing(s.(connectionRecvWindow := conn), FLOW_CONTROL_ERROR);
  }

  lemma PlainTouchesNothing(s: Session, f: Frame)
    requires f.kind != SETTINGS && f.kind != HEADERS && f.kind != CONTINUATION && f.kind != DATA
    ensures Untouched(s, HandleFrame(s, f))
  {
    hide Reserved, ReadBe32, HasFlag, Fail;
    FailTouchesNothing(s, PROTOCOL_ERROR);
    FailTouchesNothing(s, FLOW_CONTROL_ERROR);
    FailTouchesNothing(s, FRAME_SIZE_ERROR);
  }

  lemma BlocksTouch(s: Session, f: Frame)
    requires (f.kind == HEADERS || f.kind == CONTINUATION) && |f.payload| <= s.maxFrameSize
    ensures var s', block := HandleFrame(s, f), Completes(s, f);
      && s'.maxFrameSize == s.maxFrameSize
      && s'.decoder == (if block.None? || Drops(s, f.stream) then s.decoder
                        else Hpack.DecodeBlock(s.decoder, block.value, 0).table)
  {
    hide Reserved, HasFlag, Fragment, CompleteBlock, Hpack.DecodeBlock, Fail;
    FailTouchesNothing(s, PROTOCOL_ERROR);
    if f.kind == HEADERS {
      var fragment := Fragment(f.flags, f.payload);
      if fragment.Some? {
        CompleteBlockTouches(s.(pending := Pending(f.stream, f.flags, fragment.value)), HasFlag(f.flags, END_STREAM));
      }
    } else {
      var kept := WithFlag(s.pending.flags, END_HEADERS, HasFlag(f.flags, END_HEADERS));
      var merged := if HasFlag(f.flags, END_STREAM) then WithFlag(kept, END_STREAM, true) else kept;
      CompleteBlockTouches(s.(pending := Pending(f.stream, merged, s.pending.buffer + f.payload)),
                           HasFlag(merged, END_STREAM));
    }
  }

  /** What any frame does to the decoder's table and to the bound on frames. */
  lemma ReceiveTouches(s: Session, f: Frame)
    ensures var s', block := Receive(s, f), Completes(s, f);
      && s'.maxFrameSize == FrameSize(Parameters(s, f), s.maxFrameSize)
      && s'.decoder == (if block.None? then Resizes(s.decoder, TableSizes(Parameters(s, f)))
                        else if Drops(s, f.stream) then s.decoder
                        else Hpack.DecodeBlock(s.decoder, block.value, 0).table)
  {
    hide Reserved, HasFlag, Fragment, Hpack.DecodeBlock, CompleteBlock, ApplySettings, HandleFrame, Resizes;
    if |f.payload| <= s.maxFrameSize {
      if f.kind == SETTINGS {
        SettingsFrameTouches(s, f);
      } else if f.kind == HEADERS || f.kind == CONTINUATION {
        BlocksTouch(s, f);
        NoSizes(s.decoder);
      } else {
        OthersTouchNothing(s, f);
        NoSizes(s.decoder);
      }
    } else {
      NoSizes(s.decoder);
    }
  }

  lemma NoSizes(t: Table)
    ensures Resizes(t, TableSizes([])) == t
  {
  }

  lemma NothingSet(current: nat)
    ensures FrameSize([], current) == current
  {
  }

  lemma SettingsFrameTouches(s: Session, f: Frame)
    requires f.kind == SETTINGS && |f.payload| <= s.maxFrameSize
    ensures var s' := HandleFrame(s, f);
      && s'.maxFrameSize == FrameSize(Parameters(s, f), s.maxFrameSize)
      && s'.decoder == Resizes(s.decoder, TableSizes(Parameters(s, f)))
  {
    hide Reserved, HasFlag, ApplySettings, Resizes, TableSizes, FrameSize, Fail;
    FailTouchesNothing(s, FRAME_SIZE_ERROR);
    NothingSet(s.maxFrameSize);
    SettingsTouch(s, f.payload);
    NoSizes(s.decoder);
  }

  // ---------------------------------------------------------------- a table that size settings leave alone

  lemma {:induction false} EvictShortens(t: Table)
    ensures |Evict(t).entries| <= |t.entries| && Evict(t).limit == t.limit
    ensures t.size <= t.limit || t.entries == [] ==> Evict(t) == t
    ensures t.size > t.limit && t.entries != [] ==> |Evict(t).entries| < |t.entries|
    decreases |t.entries|
  {
    if t.size > t.limit && t.entries != [] {
      var last := |t.entries| - 1;
      EvictShortens(Table(t.entries[..last], (t.size - EntrySize(t.entries[last])) % TWO_32, t.limit));
    }
  }

  /** No size in the list drops an entry, and the last one is the limit as it was. */
  predicate Idle(t: Table, sizes: seq<nat>)
  {
    && (t.entries == [] || forall i :: 0 <= i < |sizes| ==> sizes[i] >= t.size)
    && (sizes == [] || sizes[|sizes| - 1] == t.limit)
  }

  /** Sizes leave the table as it was exactly if none drops an entry and the last is the old limit. */
  lemma ResizesExactly(t: Table, sizes: seq<nat>)
    ensures Resizes(t, sizes) == t <==> Idle(t, sizes)
  {
    ResizesFrom(t, sizes);
  }

  lemma {:induction false} ResizesFrom(t: Table, sizes: seq<nat>)
    ensures var r := Resizes(t, sizes);
      && |r.entries| <= |t.entries|
      && (if t.entries == [] || (forall i :: 0 <= i < |sizes| ==> sizes[i] >= t.size)
          then r == t.(limit := if sizes == [] then t.limit else sizes[|sizes| - 1])
          else |r.entries| < |t.entries|)
    decreases |sizes|
  {
    if sizes != [] {
      EvictShortens(t.(limit := sizes[0]));
      hide Evict;
      var t', rest := Resize(t, sizes[0]), sizes[1..];
      ResizesFrom(t', rest);
      assert forall i :: 0 <= i < |rest| ==> rest[i] == sizes[i + 1];
      assert forall i :: 0 < i < |sizes| ==> sizes[i] == rest[i - 1];
    }
  }

  // ---------------------------------------------------------------- over whole runs

  /** The table of a decoder that reads every completed block and is resized by the blocks alone. */
  ghost function Conforming(run: seq<Action>): Table
    requires Legal(run)
    decreases |run|
  {
    if run == [] then Empty(DEFAULT_LIMIT)
    else
      var before, a := run[..|run| - 1], run[|run| - 1];
      var t := Conforming(before);
      var block := if a.ReceiveFrame? then Completes(After(before).s, a.frame) else None;
      if block.None? then t else Hpack.DecodeBlock(t, block.value, 0).table
  }

  ghost predicate AlwaysConforms(run: seq<Action>)
    requires Legal(run)
    decreases |run|
  {
    After(run).s.decoder == Conforming(run) && (run != [] ==> AlwaysConforms(run[..|run| - 1]))
  }

  /** A block that is dropped would have changed nothing, and sizes that are set change nothing. */
  ghost predicate Harmless(s: Session, f: Frame)
  {
    match Completes(s, f)
    case Some(block) => Drops(s, f.stream) ==> Hpack.DecodeBlock(s.decoder, block, 0).table == s.decoder
    case None => Idle(s.decoder, TableSizes(Parameters(s, f)))
  }

  ghost predicate AllHarmless(run: seq<Action>)
    requires Legal(run)
    decreases |run|
  {
    run == [] ||
    var before, a := run[..|run| - 1], run[|run| - 1];
    AllHarmless(before) && (a.ReceiveFrame? ==> Harmless(After(before).s, a.frame))
  }

  lemma OnlyFramesTouch(c: Conn, a: Action)
    requires Enabled(c, a) && !a.ReceiveFrame?
    ensures Untouched(c.s, Step(c, a).s)
  {
    hide Reserved;
  }

  /** In every run the decoder's table is always the conforming one exactly if every frame was harmless. */
  lemma {:induction false} ConformsExactly(run: seq<Action>)
    requires Legal(run)
    ensures AlwaysConforms(run) <==> AllHarmless(run)
    decreases |run|
  {
    hide Step, Hpack.DecodeBlock, Idle, Resizes, Completes, Parameters, Enabled;
    if run != [] {
      var before, a := run[..|run| - 1], run[|run| - 1];
      ConformsExactly(before);
      var c := After(before);
      assert After(run) == Step(c, a);
      match a
      case ReceiveFrame(f) =>
        FrameStep(c, f);
        ReceiveTouches(c.s, f);
        ResizesExactly(c.s.decoder, TableSizes(Parameters(c.s, f)));
      case _ => OnlyFramesTouch(c, a);
    }
  }

  lemma FrameStep(c: Conn, f: Frame)
    requires Enabled(c, ReceiveFrame(f))
    ensures Step(c, ReceiveFrame(f)).s == Receive(c.s, f)
  {
  }

  // ---------------------------------------------------------------- the size of arriving frames

  ghost predicate AlwaysDefaultSize(run: seq<Action>)
    requires Legal(run)
    decreases |run|
  {
    After(run).s.maxFrameSize == DEFAULT_MAX_FRAME && (run != [] ==> AlwaysDefaultSize(run[..|run| - 1]))
  }

  /** No SETTINGS frame that was taken ended with a frame size other than the default. */
  ghost predicate NoOtherSize(run: seq<Action>)
    requires Legal(run)
    decreases |run|
  {
    run == [] ||
    var before, a := run[..|run| - 1], run[|run| - 1];
    NoOtherSize(before) &&
      (a.ReceiveFrame? ==> FrameSize(Parameters(After(before).s, a.frame), DEFAULT_MAX_FRAME) == DEFAULT_MAX_FRAME)
  }

  lemma {:induction false} SizeWithinRange(payload: seq<byte>, current: nat)
    requires 16384 <= current <= 16777215
    ensures 16384 <= FrameSize(payload, current) <= 16777215
    decreases |payload|
  {
    if |payload| >= 6 && !BadSize(payload) {
      SizeWithinRange(payload[6..], if Key(payload) == 5 then Value(payload) else current);
    }
  }

  /**
   Every frame the client allows is within the code's bound; that bound is always the client's own
   exactly if the peer never announced another size for the frames sent to it.
   */
  lemma {:induction false} FrameBoundExactly(run: seq<Action>)
    requires Legal(run)
    ensures DEFAULT_MAX_FRAME <= After(run).s.maxFrameSize <= 16777215
    ensures AlwaysDefaultSize(run) <==> NoOtherSize(run)
    decreases |run|
  {
    hide Step, Parameters, Enabled, FrameSize, Completes;
    if run != [] {
      var before, a := run[..|run| - 1], run[|run| - 1];
      FrameBoundExactly(before);
      var c := After(before);
      assert After(run) == Step(c, a);
      match a
      case ReceiveFrame(f) =>
        FrameStep(c, f);
        ReceiveTouches(c.s, f);
        SizeWithinRange(Parameters(c.s, f), c.s.maxFrameSize);
      case _ => OnlyFramesTouch(c, a);
    }
  }

  // ---------------------------------------------------------------- runs that differ

  /** A block of one header with a new name, to be stored in the table. */
  function StoredBlock(h: Header): seq<byte> { [0x40] + Hpack.EncodeString(h.name) + Hpack.EncodeString(h.value) }

  lemma StoredBlockReads(t: Table, h: Header)
    requires Hpack.Sized(h)
    ensures Hpack.DecodeBlock(t, StoredBlock(h), 0) == Hpack.Block([h], Insert(t, h))
  {
    hide Hpack.DecodeString, Hpack.DecodeBlock, Hpack.EncodeString, Hpack.Int.Decode, Insert;
    var name, value, data := Hpack.EncodeString(h.name), Hpack.EncodeString(h.value), StoredBlock(h);
    Hpack.LiteralZero(data, 0);
    assert data[1..] == name + value;
    Hpack.StringRoundTrip(data, 1, h.name, value);
    assert data[1 + |name|..] == value + [];
    Hpack.StringRoundTrip(data, 1 + |name|, h.value, []);
    assert Hpack.DecodeLiteral(t, data, 0, 6) == Hpack.Field(h, |data|);
    Hpack.LiteralStep(t, data, 0);
    Hpack.EndOfBlock(Insert(t, h), data, |data|);
  }

  /** The block that refers to the newest entry of the table. */
  const NEWEST: seq<byte> := [0xbe]

  lemma NewestReads(t: Table)
    ensures Hpack.DecodeBlock(t, NEWEST, 0) ==
      if t.entries == [] then Hpack.BadBlock(t) else Hpack.Block([t.entries[0]], t)
  {
    hide Hpack.StaticTable;
    Hpack.StaticSize();
    Pow2Values();
    assert Hpack.Int.Decode(NEWEST, 0, 7) == Hpack.Int.Good(62, 1);
    Hpack.EndOfBlock(t, NEWEST, 1);
  }

  lemma ConformingMore(before: seq<Action>, a: Action)
    requires Legal(before) && Enabled(After(before), a)
    ensures var run := before + [a];
      && Legal(run) && After(run) == Step(After(before), a)
      && Conforming(run) ==
         (if !a.ReceiveFrame? || Completes(After(before).s, a.frame).None? then Conforming(before)
          else Hpack.DecodeBlock(Conforming(before), Completes(After(before).s, a.frame).value, 0).table)
  {
    hide Step, Enabled, Hpack.DecodeBlock, Completes;
    OneMore(before, a);
    assert (before + [a])[..|before|] == before;
  }

  function HeadersFrame(id: nat, block: seq<byte>): Frame { Frame(HEADERS, END_HEADERS, id, block) }

  lemma HeadersFlags()
    ensures HasFlag(END_HEADERS, END_HEADERS) && !HasFlag(END_HEADERS, PADDED) && !HasFlag(END_HEADERS, PRIORITY_FLAG)
    ensures !HasFlag(END_HEADERS, END_STREAM)
  {
  }

  /** Two streams are made and the first is cancelled. */
  lemma FirstCancelled() returns (run: seq<Action>)
    ensures Legal(run) && Conforming(run) == Empty(DEFAULT_LIMIT)
    ensures var s := After(run).s;
      && s.valid && 1 !in s.streams && 3 in s.streams && !s.streams[3].endStream
      && s.decoder == Empty(DEFAULT_LIMIT) && s.pending.stream == 0 && s.maxFrameSize == DEFAULT_MAX_FRAME
  {
    hide Legal, After, Conforming, Reserved, Completes, Receive, ReaderExit, Close, Debit;
    run := [];
    assert Legal(run) && After(run).s == Started() && Conforming(run) == Empty(DEFAULT_LIMIT) by { StartsAt(); }
    ConformingMore(run, CreateStream(1)); run := run + [CreateStream(1)];
    ConformingMore(run, CreateStream(3)); run := run + [CreateStream(3)];
    ConformingMore(run, ReleaseStream(1, true, CANCEL)); run := run + [ReleaseStream(1, true, CANCEL)];
  }

  lemma StartsAt()
    ensures Legal([]) && After([]).s == Started() && Conforming([]) == Empty(DEFAULT_LIMIT)
  {
  }

  /**
   For every header: a block that stores it arrives on a cancelled stream, and one that refers to it on
   another.  A conforming decoder reads that header; the code ends the session.
   */
  lemma DroppedBlockEndsSession(h: Header) returns (run: seq<Action>, last: Action)
    requires EntrySize(h) <= DEFAULT_LIMIT && |StoredBlock(h)| <= DEFAULT_MAX_FRAME && Hpack.Sized(h)
    ensures Legal(run) && Legal(run + [last]) && last == ReceiveFrame(HeadersFrame(3, NEWEST))
    ensures After(run).s.valid && !After(run + [last]).s.valid
    ensures Hpack.DecodeBlock(Conforming(run), NEWEST, 0).Block? &&
      Hpack.DecodeBlock(Conforming(run), NEWEST, 0).headers == [h]
  {
    hide Legal, After, Conforming, Reserved, Hpack.DecodeBlock, StoredBlock;
    run := FirstCancelled();
    var first := ReceiveFrame(HeadersFrame(1, StoredBlock(h)));
    last := ReceiveFrame(HeadersFrame(3, NEWEST));
    HeadersFlags();
    ConformingMore(run, first);
    StoredBlockReads(Empty(DEFAULT_LIMIT), h);
    assert Insert(Empty(DEFAULT_LIMIT), h).entries == [h];
    run := run + [first];
    NewestReads(After(run).s.decoder);
    NewestReads(Conforming(run));
    ConformingMore(run, last);
  }

  function ParameterFrame(key: byte, value: nat): Frame
    requires value < TWO_32
  {
    Frame(SETTINGS, 0, 0, [0, key] + Be32(value))
  }

  lemma ParameterReads(s: Session, key: byte, value: nat)
    requires value < TWO_32 && s.maxFrameSize >= 6
    ensures var p := Parameters(s, ParameterFrame(key, value));
      |p| == 6 && Key(p) == key as int && Value(p) == value && p[6..] == []
  {
    assert !HasFlag(0, ACK);
    var p := [0, key] + Be32(value);
    assert p[2..6] == Be32(value) + [];
    Be32RoundTrip(value, []);
  }

  /** A size for the client's encoder also becomes the limit of its decoder, which the peer's encoder does not share. */
  lemma DecoderResized(limit: nat) returns (run: seq<Action>)
    requires limit < TWO_32 && limit != DEFAULT_LIMIT
    ensures Legal(run) && After(run).s.valid
    ensures After(run).s.decoder == Empty(limit) && Conforming(run) == Empty(DEFAULT_LIMIT)
  {
    hide Legal, After, Conforming, Reserved;
    StartsAt();
    var f, s := ParameterFrame(1, limit), Started();
    ParameterReads(s, 1, limit);
    var o := ApplySetting(s, 1, limit);
    assert ApplySettings(o.s, []) == Outcome(o.s, true);
    assert o.s.decoder == Empty(limit);
    assert Receive(s, f) == Emit(o.s.(peerSettingsSeen := true), Frame(SETTINGS, ACK, 0, []));
    ConformingMore([], ReceiveFrame(f));
    run := [] + [ReceiveFrame(f)];
  }

  /** After the peer has announced a frame size for itself, a frame of that size is taken. */
  lemma LargeFrameTaken(size: nat) returns (run: seq<Action>)
    requires DEFAULT_MAX_FRAME < size <= 16777215
    ensures Legal(run) && forall f: Frame :: |f.payload| == size ==> Receive(After(run).s, f) == HandleFrame(After(run).s, f)
  {
    hide Legal, After, Conforming, Reserved, HandleFrame;
    StartsAt();
    var f, s := ParameterFrame(5, size), Started();
    ParameterReads(s, 5, size);
    ReceiveTouches(s, f);
    ConformingMore([], ReceiveFrame(f));
    run := [] + [ReceiveFrame(f)];
  }
}
