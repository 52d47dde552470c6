/**
 Cutting headers and bodies into frames, and putting header blocks together again
 (sections 4.3, 6.1, 6.2 and 6.10 of RFC 7540).
 */
module Http2Send {
  import opened Bytes
  import opened Http2Frames
  import opened Http2Session
  import opened HpackTable
  import Hpack

  function Payloads(frames: seq<Frame>): seq<byte>
  {
    if frames == [] then [] else frames[0].payload + Payloads(frames[1..])
  }

  lemma {:induction false} PayloadsAppend(a: seq<Frame>, b: seq<Frame>)
    ensures Payloads(a + b) == Payloads(a) + Payloads(b)
  {
    if a == [] {
      assert a + b == b;
    } else {
      assert (a + b)[1..] == a[1..] + b;
      PayloadsAppend(a[1..], b);
    }
  }

  lemma PayloadsSnoc(a: seq<Frame>, f: Frame)
    ensures Payloads(a + [f]) == Payloads(a) + f.payload
  {
    PayloadsAppend(a, [f]);
    assert [f][1..] == [];
    assert f.payload + [] == f.payload;
  }

  // ---------------------------------------------------------------- header blocks

  function Continuations(id: nat, rest: seq<byte>, size: nat): (r: seq<Frame>)
    requires size > 0
    ensures |r| >= 1
    decreases |rest|
  {
    if |rest| <= size then [Frame(CONTINUATION, END_HEADERS, id, rest)]
    else [Frame(CONTINUATION, 0, id, rest[..size])] + Continuations(id, rest[size..], size)
  }

  function EndFlag(endStream: bool): byte { if endStream then END_STREAM else 0 }

  function HeaderFrames(id: nat, block: seq<byte>, endStream: bool, size: nat): (r: seq<Frame>)
    requires size > 0
    ensures |r| >= 1
  {
    if |block| <= size then [Frame(HEADERS, END_HEADERS + EndFlag(endStream), id, block)]
    else [Frame(HEADERS, EndFlag(endStream), id, block[..size])] + Continuations(id, block[size..], size)
  }

  /** The source's loop over the block. */
  method SendHeaderBlock(id: nat, block: seq<byte>, endStream: bool, maxFrameSize: nat) returns (frames: seq<Frame>)
    requires maxFrameSize > 0
    ensures frames == HeaderFrames(id, block, endStream, maxFrameSize)
  {
    if |block| <= maxFrameSize {
      return [Frame(HEADERS, if endStream then END_HEADERS + END_STREAM else END_HEADERS, id, block)];
    }
    frames := [Frame(HEADERS, if endStream then END_STREAM else 0, id, block[..maxFrameSize])];
    var offset := maxFrameSize;
    while offset < |block|
      invariant maxFrameSize <= offset <= |block|
      invariant offset < |block| ==>
                frames + Continuations(id, block[offset..], maxFrameSize) == HeaderFrames(id, block, endStream, maxFrameSize)
      invariant offset == |block| ==> frames == HeaderFrames(id, block, endStream, maxFrameSize)
    {
      var n := if maxFrameSize <= |block| - offset then maxFrameSize else |block| - offset;
      var chunk := block[offset..offset + n];
      ghost var rest := block[offset..];
      assert chunk == rest[..n] && rest[n..] == block[offset + n..] && rest[..|rest|] == rest;
      offset := offset + n;
      var f := Frame(CONTINUATION, if offset >= |block| then END_HEADERS else 0, id, chunk);
      assert Continuations(id, rest, maxFrameSize) ==
             if offset < |block| then [f] + Continuations(id, block[offset..], maxFrameSize) else [f];
      assert offset < |block| ==>
             frames + ([f] + Continuations(id, block[offset..], maxFrameSize))
             == frames + [f] + Continuations(id, block[offset..], maxFrameSize);
      frames := frames + [f];
    }
  }

  lemma {:induction false} ContinuationsCarryRest(id: nat, rest: seq<byte>, size: nat)
    requires size > 0
    ensures var r := Continuations(id, rest, size);
            && Payloads(r) == rest
            && forall i :: 0 <= i < |r| ==> |r[i].payload| <= size && r[i].kind == CONTINUATION && r[i].stream == id
                                            && r[i].flags == if i == |r| - 1 then END_HEADERS else 0
    decreases |rest|
  {
    var r := Continuations(id, rest, size);
    if |rest| <= size {
      assert r[1..] == [] && rest + [] == rest;
    } else {
      ContinuationsCarryRest(id, rest[size..], size);
      assert r[1..] == Continuations(id, rest[size..], size);
      assert rest[..size] + rest[size..] == rest;
    }
  }

  /** The frames carry exactly the block, none is larger than allowed, and only the last ends the headers. */
  lemma HeaderFramesCarryBlock(id: nat, block: seq<byte>, endStream: bool, size: nat)
    requires size > 0
    ensures var r := HeaderFrames(id, block, endStream, size);
            && Payloads(r) == block && r[0].kind == HEADERS && HasFlag(r[0].flags, END_STREAM) == endStream
            && forall i :: 0 <= i < |r| ==>
                 |r[i].payload| <= size && r[i].stream == id && HasFlag(r[i].flags, END_HEADERS) == (i == |r| - 1)
                 && (i > 0 ==> r[i].kind == CONTINUATION && !HasFlag(r[i].flags, END_STREAM))
  {
    var r := HeaderFrames(id, block, endStream, size);
    if |block| <= size {
      assert r[1..] == [] && block + [] == block;
    } else {
      ContinuationsCarryRest(id, block[size..], size);
      assert r[1..] == Continuations(id, block[size..], size);
      assert block[..size] + block[size..] == block;
    }
  }

  // ---------------------------------------------------------------- reassembly

  ghost function ReceiveAll(s: Session, frames: seq<Frame>): Session
    decreases |frames|
  {
    if frames == [] then s else ReceiveAll(Receive(s, frames[0]), frames[1..])
  }

  /** Collecting the rest of a block that has been started. */
  lemma {:induction false} ContinuationsRejoin(s: Session, id: nat, rest: seq<byte>, size: nat) returns (flags: byte)
    requires 0 < size <= s.maxFrameSize && id != 0 && s.pending.stream == id
    ensures HasFlag(flags, END_STREAM) == HasFlag(s.pending.flags, END_STREAM)
    ensures ReceiveAll(s, Continuations(id, rest, size)) ==
            CompleteBlock(s.(pending := Pending(id, flags, s.pending.buffer + rest)), HasFlag(flags, END_STREAM))
    decreases |rest|
  {
    hide CompleteBlock, Fail;
    var r := Continuations(id, rest, size);
    if |rest| <= size {
      flags := WithFlag(s.pending.flags, END_HEADERS, true);
      assert r[1..] == [];
    } else {
      var kept := WithFlag(s.pending.flags, END_HEADERS, false);
      var s1 := s.(pending := Pending(id, kept, s.pending.buffer + rest[..size]));
      assert Receive(s, r[0]) == s1;
      flags := ContinuationsRejoin(s1, id, rest[size..], size);
      assert r[1..] == Continuations(id, rest[size..], size);
      assert s.pending.buffer + rest[..size] + rest[size..] == s.pending.buffer + rest;
    }
  }

  /** Whatever the cut, the receiver decodes exactly the block that was cut, with END_STREAM preserved. */
  lemma BlockRejoins(s: Session, id: nat, block: seq<byte>, endStream: bool, size: nat) returns (flags: byte)
    requires 0 < size <= s.maxFrameSize && id != 0 && s.pending.stream == 0
    ensures ReceiveAll(s, HeaderFrames(id, block, endStream, size)) ==
            CompleteBlock(s.(pending := Pending(id, flags, block)), endStream)
  {
    hide CompleteBlock, Fail;
    var r := HeaderFrames(id, block, endStream, size);
    if |block| <= size {
      flags := r[0].flags;
      assert r[1..] == [];
    } else {
      var s1 := s.(pending := Pending(id, EndFlag(endStream), block[..size]));
      assert Receive(s, r[0]) == s1;
      flags := ContinuationsRejoin(s1, id, block[size..], size);
      assert r[1..] == Continuations(id, block[size..], size);
      assert block[..size] + block[size..] == block;
    }
  }

  /**
   End to end: headers encoded, cut into frames of any permitted size, received and decoded with
   any decoder table arrive exactly as they were sent, and so does the end of the stream.  The
   first list of a stream is its response headers, later ones are added to its trailers.
   */
  lemma HeadersArrive(s: Session, id: nat, hs: seq<Header>, endStream: bool, size: nat)
    requires 0 < size <= s.maxFrameSize && id != 0 && s.pending.stream == 0
    requires id in s.streams && !s.streams[id].endStream
    requires forall i :: 0 <= i < |hs| ==> Hpack.Sized(hs[i]) && Hpack.NulSafe(hs[i])
    ensures var s' := ReceiveAll(s, HeaderFrames(id, Hpack.EncodeBlock(hs), endStream, size));
            var st := s.streams[id];
            && id in s'.streams && s'.streams[id].endHeaders && s'.streams[id].endStream == endStream
            && s'.streams[id].responseHeaders == (if st.endHeaders then st.responseHeaders else hs)
            && s'.streams[id].trailers == (if st.endHeaders then st.trailers + hs else st.trailers)
            && s'.decoder == Hpack.TableAfter(s.decoder, hs) && s'.pending.stream == 0
  {
    hide *;
    var block := Hpack.EncodeBlock(hs);
    var flags := BlockRejoins(s, id, block, endStream, size);
    BlockDecodes(s.decoder, hs);
    BlockCompletes(s.(pending := Pending(id, flags, block)), hs, endStream);
  }

  lemma BlockDecodes(t: Table, hs: seq<Header>)
    requires forall i :: 0 <= i < |hs| ==> Hpack.Sized(hs[i]) && Hpack.NulSafe(hs[i])
    ensures Hpack.DecodeBlock(t, Hpack.EncodeBlock(hs), 0) == Hpack.Block(hs, Hpack.TableAfter(t, hs))
  {
    hide *;
    var block := Hpack.EncodeBlock(hs);
    assert block[0..] == block;
    Hpack.BlockRoundTrip(t, block, 0, hs);
    Hpack.EndToEnd(t, hs);
    Hpack.TablesStayEqual(t, hs);
  }

  /** A collected block that decodes to `hs` is delivered to its live stream. */
  lemma BlockCompletes(s: Session, hs: seq<Header>, endStream: bool)
    requires s.pending.stream in s.streams && !s.streams[s.pending.stream].endStream
    requires Hpack.DecodeBlock(s.decoder, s.pending.buffer, 0) == Hpack.Block(hs, Hpack.TableAfter(s.decoder, hs))
    ensures var s', id := CompleteBlock(s, endStream), s.pending.stream;
            var st := s.streams[id];
            && id in s'.streams && s'.streams[id].endHeaders && s'.streams[id].endStream == endStream
            && s'.streams[id].responseHeaders == (if st.endHeaders then st.responseHeaders else hs)
            && s'.streams[id].trailers == (if st.endHeaders then st.trailers + hs else st.trailers)
            && s'.decoder == Hpack.TableAfter(s.decoder, hs) && s'.pending.stream == 0
  {
    hide Hpack.DecodeBlock, Hpack.TableAfter, Reserved, Fail;
  }

  // ---------------------------------------------------------------- bodies

  /** What one turn of the send loop finds: the two windows, the frame size, and whether waiting
      for credit and writing the frame succeed.  The environment chooses them anew each turn. */
  datatype Look = Look(streamWindow: int, connectionWindow: int, maxFrameSize: nat, waited: bool, written: bool)

  /** `f` passed the checks of a turn that found `l`. */
  predicate Fits(f: Frame, l: Look)
  {
    |f.payload| <= l.maxFrameSize && |f.payload| <= l.streamWindow && |f.payload| <= l.connectionWindow
  }

  ghost predicate DataFrames(frames: seq<Frame>, id: nat)
  {
    forall i :: 0 <= i < |frames| ==> frames[i].kind == DATA && frames[i].stream == id
  }

  ghost predicate Nonempty(frames: seq<Frame>)
  {
    forall i :: 0 <= i < |frames| ==> frames[i].payload != []
  }

  /** Each frame passed the checks of its own turn, in order. */
  ghost predicate Permitted(frames: seq<Frame>, looks: seq<Look>, turns: seq<nat>)
  {
    && |turns| == |frames|
    && (forall i :: 0 <= i < |frames| ==> turns[i] < |looks| && Fits(frames[i], looks[turns[i]]))
    && (forall i, j :: 0 <= i < j < |frames| ==> turns[i] < turns[j])
  }

  /** END_STREAM on the last frame and nowhere else. */
  ghost predicate EndsOnce(frames: seq<Frame>)
  {
    frames != [] && forall i :: 0 <= i < |frames| ==> frames[i].flags == EndFlag(i == |frames| - 1)
  }

  ghost predicate Unended(frames: seq<Frame>)
  {
    forall i :: 0 <= i < |frames| ==> frames[i].flags == 0
  }

  /**
   The send loop over one chunk.  It uses the looks from `first` on; running out of them means it
   is still blocked, which is reported like a failure.
   */
  method SendChunk(id: nat, chunk: seq<byte>, last: bool, looks: seq<Look>, first: nat)
    returns (ok: bool, frames: seq<Frame>, next: nat, ghost turns: seq<nat>)
    requires first <= |looks| && forall i :: 0 <= i < |looks| ==> looks[i].maxFrameSize > 0
    ensures first <= next <= |looks| && DataFrames(frames, id) && Nonempty(frames) && Permitted(frames, looks, turns)
    ensures forall i :: 0 <= i < |turns| ==> first <= turns[i] < next
    ensures Payloads(frames) <= chunk && (ok <==> Payloads(frames) == chunk)
    ensures if ok && last && chunk != [] then EndsOnce(frames) else Unended(frames)
  {
    hide Payloads;
    frames, turns := [], [];
    next := first;
    var offset := 0;
    assert Payloads(frames) == chunk[..0] by { NoPayloads(); }
    while offset < |chunk|
      invariant first <= next <= |looks| && 0 <= offset <= |chunk|
      invariant DataFrames(frames, id) && Nonempty(frames) && Permitted(frames, looks, turns)
      invariant forall i :: 0 <= i < |turns| ==> first <= turns[i] < next
      invariant Payloads(frames) == chunk[..offset]
      invariant if offset == |chunk| && last && chunk != [] then EndsOnce(frames) else Unended(frames)
      decreases |looks| - next
    {
      if next == |looks| { return false, frames, next, turns; }
      var l := looks[next];
      next := next + 1;
      var allowed := Min(l.streamWindow, l.connectionWindow);
      if allowed <= 0 {
        if !l.waited { return false, frames, next, turns; }
        continue;
      }
      var n := Min(Min(l.maxFrameSize, |chunk| - offset), allowed);
      var flags := if last && offset + n >= |chunk| then END_STREAM else 0;
      var piece := chunk[offset..offset + n];
      if !l.written { return false, frames, next, turns; }
      var f := Frame(DATA, flags, id, piece);
      PayloadsSnoc(frames, f);
      PermittedSnoc(frames, looks, turns, f, next - 1);
      assert flags == EndFlag(last && offset + n == |chunk|);
      assert chunk[..offset] + piece == chunk[..offset + n];
      frames, turns := frames + [f], turns + [next - 1];
      offset := offset + n;
    }
    assert chunk[..|chunk|] == chunk;
    ok := true;
  }

  /** The flow-controlled frames: all but a final empty one. */
  function Flowed(frames: seq<Frame>): seq<Frame>
  {
    if frames != [] && frames[|frames| - 1].payload == [] then frames[..|frames| - 1] else frames
  }

  lemma NoPayloads()
    ensures Payloads([]) == [] && Concat<byte>([]) == []
  {
  }

  lemma PartsPrefix(parts: seq<seq<byte>>, k: nat)
    requires k <= |parts|
    ensures Concat(parts[..k]) <= Concat(parts)
  {
    hide Concat;
    assert parts == parts[..k] + parts[k..];
    ConcatAppend(parts[..k], parts[k..]);
  }

  lemma NextPart(parts: seq<seq<byte>>, k: nat)
    requires k < |parts|
    ensures Concat(parts[..k + 1]) == Concat(parts[..k]) + parts[k] && Concat(parts[..k + 1]) <= Concat(parts)
  {
    hide Concat;
    OnePart(parts, k);
    ConcatAppend(parts[..k], [parts[k]]);
    ConcatOne(parts[k]);
    PartsPrefix(parts, k + 1);
  }

  lemma OnePart(parts: seq<seq<byte>>, k: nat)
    requires k < |parts|
    ensures parts[..k + 1] == parts[..k] + [parts[k]]
  {
  }

  lemma PermittedAppend(a: seq<Frame>, s: seq<nat>, b: seq<Frame>, t: seq<nat>, looks: seq<Look>)
    requires Permitted(a, looks, s) && Permitted(b, looks, t)
    requires forall i, j :: 0 <= i < |s| && 0 <= j < |t| ==> s[i] < t[j]
    ensures Permitted(a + b, looks, s + t)
  {
  }

  lemma PermittedSnoc(frames: seq<Frame>, looks: seq<Look>, turns: seq<nat>, f: Frame, turn: nat)
    requires Permitted(frames, looks, turns) && turn < |looks| && Fits(f, looks[turn])
    requires forall i :: 0 <= i < |turns| ==> turns[i] < turn
    ensures Permitted(frames + [f], looks, turns + [turn])
  {
  }

  /** A request body: its declared size is zero, positive (read at once), or unknown (read chunk by chunk). */
  datatype BodySource = Empty | Known(data: seq<byte>) | Chunks(parts: seq<seq<byte>>)

  function Contents(b: BodySource): seq<byte>
  {
    match b case Empty => [] case Known(data) => data case Chunks(parts) => Concat(parts)
  }

  /**
   A completed body: the frames concatenate to exactly the body, each within the frame size and
   both windows of its turn, with END_STREAM on the last frame only.  The one exception is a body
   that declared a size but turned out empty: nothing at all is sent for it.
   */
  method SendBody(id: nat, body: BodySource, looks: seq<Look>, closing: bool)
    returns (ok: bool, frames: seq<Frame>, ghost turns: seq<nat>)
    requires forall i :: 0 <= i < |looks| ==> looks[i].maxFrameSize > 0
    ensures DataFrames(frames, id)
    ensures ok ==> Payloads(frames) == Contents(body)
    ensures ok ==> if body == Known([]) then frames == [] else EndsOnce(frames)
    ensures !ok ==> Unended(frames) && Payloads(frames) <= Contents(body)
    ensures Permitted(Flowed(frames), looks, turns) && Nonempty(Flowed(frames))
  {
    hide Payloads, Concat, Permitted, EndsOnce, Unended, Nonempty, DataFrames, Flowed;
    var end := Frame(DATA, END_STREAM, id, []);
    NothingSent(id, looks);
    match body {
      case Empty =>
        turns := [];
        Ended([], end, id);
        assert [] + [end] == [end];
        if closing {
          ok, frames := true, [end];
        } else {
          ok, frames := false, [];
        }
      case Known(data) =>
        var next;
        ok, frames, next, turns := SendChunk(id, data, true, looks, 0);
        if ok && data == [] { NoBytes(frames); }
        FlowedAll(frames);
      case Chunks(parts) =>
        var next;
        ok, frames, next, turns := SendChunks(id, parts, looks);
        FlowedAll(frames);
        if ok && closing {
          Ended(frames, end, id);
          frames := frames + [end];
        } else {
          ok := false;
        }
    }
  }

  lemma FlowedAll(frames: seq<Frame>)
    requires Nonempty(frames)
    ensures Flowed(frames) == frames
  {
  }

  lemma NothingSent(id: nat, looks: seq<Look>)
    ensures Permitted([], looks, []) && Unended([]) && Nonempty([]) && DataFrames([], id) && Flowed([]) == [] && Payloads([]) == []
  {
  }

  /** The empty frame that ends a body carries nothing and is not flow-controlled. */
  lemma Ended(frames: seq<Frame>, end: Frame, id: nat)
    requires Unended(frames) && Nonempty(frames) && DataFrames(frames, id) && end == Frame(DATA, END_STREAM, id, [])
    ensures EndsOnce(frames + [end]) && DataFrames(frames + [end], id) && Flowed(frames + [end]) == frames
    ensures Payloads(frames + [end]) == Payloads(frames)
  {
    hide Payloads;
    PayloadsSnoc(frames, end);
    assert Payloads(frames) + [] == Payloads(frames);
    assert (frames + [end])[..|frames|] == frames;
  }

  lemma NoBytes(frames: seq<Frame>)
    requires Nonempty(frames) && Payloads(frames) == []
    ensures frames == []
  {
  }

  method SendChunks(id: nat, parts: seq<seq<byte>>, looks: seq<Look>)
    returns (ok: bool, frames: seq<Frame>, next: nat, ghost turns: seq<nat>)
    requires forall i :: 0 <= i < |looks| ==> looks[i].maxFrameSize > 0
    ensures next <= |looks| && DataFrames(frames, id) && Nonempty(frames) && Permitted(frames, looks, turns) && Unended(frames)
    ensures Payloads(frames) <= Concat(parts) && (ok ==> Payloads(frames) == Concat(parts))
  {
    hide Payloads, Concat;
    ok, frames, next, turns := true, [], 0, [];
    var k := 0;
    assert parts[..0] == [];
    NoPayloads();
    while k < |parts| && ok
      invariant 0 <= k <= |parts| && next <= |looks|
      invariant DataFrames(frames, id) && Nonempty(frames) && Permitted(frames, looks, turns) && Unended(frames)
      invariant forall i :: 0 <= i < |turns| ==> turns[i] < next
      invariant ok ==> Payloads(frames) == Concat(parts[..k])
      invariant Payloads(frames) <= Concat(parts)
      decreases |parts| - k
    {
      var more;
      ghost var moreTurns;
      ok, more, next, moreTurns := SendChunk(id, parts[k], false, looks, next);
      PayloadsAppend(frames, more);
      NextPart(parts, k);
      PermittedAppend(frames, turns, more, moreTurns, looks);
      frames, turns := frames + more, turns + moreTurns;
      k := k + 1;
    }
    assert parts[..|parts|] == parts;
  }
}
