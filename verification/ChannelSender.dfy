/**
 The sending side of a socket channel: the queue, the batch being written, and the completion events
 of those who wait for their packet to be sent.
 */
module ChannelSender {
  import opened Bytes
  import opened ChannelPaths

  const MAX_SEND_SIZE: int := 64 * 1024
  const HEAD_SIZE: int := 8

  /** A packet with the completion event its sender waits on, if any. */
  datatype WritingPacket = WritingPacket(channel: Word, payload: seq<byte>, done: Option<nat>)

  datatype Signal = Signal(event: nat, success: bool)

  function RoutedOf(p: WritingPacket): Routed { Routed(p.channel, p.payload) }

  // ---------------------------------------------------------------- counting events

  function One(b: bool): nat { if b then 1 else 0 }

  /** How many packets carry the event. */
  function Carrying(ps: seq<WritingPacket>, event: nat): nat
  {
    if ps == [] then 0 else One(ps[0].done == Some(event)) + Carrying(ps[1..], event)
  }

  /** How often the event was signalled with this outcome. */
  function Signalled(log: seq<Signal>, event: nat, success: bool): nat
  {
    if log == [] then 0 else One(log[0] == Signal(event, success)) + Signalled(log[1..], event, success)
  }

  /** The signals for all waiters of these packets, in order. */
  function SignalAll(ps: seq<WritingPacket>, success: bool): seq<Signal>
  {
    if ps == [] then [] else SignalOf(ps[0], success) + SignalAll(ps[1..], success)
  }

  function SignalOf(p: WritingPacket, success: bool): seq<Signal>
  {
    if p.done.Some? then [Signal(p.done.value, success)] else []
  }

  lemma {:induction false} CarryingAppend(a: seq<WritingPacket>, b: seq<WritingPacket>, event: nat)
    ensures Carrying(a + b, event) == Carrying(a, event) + Carrying(b, event)
  {
    if a == [] {
      assert a + b == b;
    } else {
      CarryingAppend(a[1..], b, event);
      assert (a + b)[1..] == a[1..] + b;
    }
  }

  lemma {:induction false} SignalledAppend(a: seq<Signal>, b: seq<Signal>, event: nat, success: bool)
    ensures Signalled(a + b, event, success) == Signalled(a, event, success) + Signalled(b, event, success)
  {
    if a == [] {
      assert a + b == b;
    } else {
      SignalledAppend(a[1..], b, event, success);
      assert (a + b)[1..] == a[1..] + b;
    }
  }

  lemma {:induction false} SignalAllCounts(ps: seq<WritingPacket>, event: nat, success: bool)
    ensures Signalled(SignalAll(ps, success), event, success) == Carrying(ps, event)
    ensures Signalled(SignalAll(ps, success), event, !success) == 0
  {
    if ps != [] {
      var first := SignalOf(ps[0], success);
      var rest := SignalAll(ps[1..], success);
      SignalAllCounts(ps[1..], event, success);
      SignalledAppend(first, rest, event, success);
      SignalledAppend(first, rest, event, !success);
    }
  }

  lemma {:induction false} SignalAllAppend(a: seq<WritingPacket>, b: seq<WritingPacket>, success: bool)
    ensures SignalAll(a + b, success) == SignalAll(a, success) + SignalAll(b, success)
  {
    hide SignalOf;
    if a == [] {
      assert a + b == b;
    } else {
      SignalAllAppend(a[1..], b, success);
      assert (a + b)[1..] == a[1..] + b;
    }
  }

  lemma SignalOne(p: WritingPacket)
    ensures SignalAll([p], false) == SignalOf(p, false)
  {
    assert [p][1..] == [];
  }

  // ---------------------------------------------------------------- order

  /** `a` is `b` with some packets left out. */
  predicate Subsequence(a: seq<WritingPacket>, b: seq<WritingPacket>)
  {
    if a == [] then true
    else b != [] && ((a[0] == b[0] && Subsequence(a[1..], b[1..])) || Subsequence(a, b[1..]))
  }

  lemma {:induction false} SubsequenceSkips(a: seq<WritingPacket>, b: seq<WritingPacket>)
    requires a != [] && Subsequence(a, b)
    ensures Subsequence(a[1..], b)
    decreases |b|
  {
    if a[0] == b[0] && Subsequence(a[1..], b[1..]) {
      // a[1..] is already inside b[1..]
      if a[1..] != [] { assert Subsequence(a[1..], b[1..]); }
    } else {
      SubsequenceSkips(a, b[1..]);
    }
  }

  lemma {:induction false} SubsequenceAppend(a: seq<WritingPacket>, b: seq<WritingPacket>, p: WritingPacket)
    requires Subsequence(a, b)
    ensures Subsequence(a + [p], b + [p])
    decreases |b|
  {
    if b == [] {
      assert a + [p] == [p] && b + [p] == [p];
      assert [p][1..] == [];
    } else {
      assert (b + [p])[1..] == b[1..] + [p] && (b + [p])[0] == b[0];
      if a == [] {
        SubsequenceAppend([], b[1..], p);
        assert [] + [p] == [p];
      } else {
        assert (a + [p])[1..] == a[1..] + [p] && (a + [p])[0] == a[0];
        if a[0] == b[0] && Subsequence(a[1..], b[1..]) {
          SubsequenceAppend(a[1..], b[1..], p);
        } else {
          SubsequenceAppend(a, b[1..], p);
        }
      }
    }
  }

  lemma {:induction false} SubsequenceDrops(a: seq<WritingPacket>, k: nat, b: seq<WritingPacket>)
    requires k < |a| && Subsequence(a, b)
    ensures Subsequence(a[..k] + a[k + 1..], b)
    decreases |b|
  {
    if k == 0 {
      SubsequenceSkips(a, b);
      assert a[..0] + a[1..] == a[1..];
    } else {
      var c := a[..k] + a[k + 1..];
      assert c[0] == a[0] && c[1..] == a[1..][..k - 1] + a[1..][k..];
      if a[0] == b[0] && Subsequence(a[1..], b[1..]) {
        SubsequenceDrops(a[1..], k - 1, b[1..]);
      } else {
        SubsequenceDrops(a, k, b[1..]);
      }
    }
  }

  // ---------------------------------------------------------------- what a purge keeps and drops

  function Keep(ps: seq<WritingPacket>, request: (Word, Check)): seq<WritingPacket>
  {
    if ps == [] then []
    else (if Picks(request, RoutedOf(ps[0])) then [] else [ps[0]]) + Keep(ps[1..], request)
  }

  function Drop(ps: seq<WritingPacket>, request: (Word, Check)): seq<WritingPacket>
  {
    if ps == [] then []
    else (if Picks(request, RoutedOf(ps[0])) then [ps[0]] else []) + Drop(ps[1..], request)
  }

  lemma {:induction false} KeepDropCount(ps: seq<WritingPacket>, request: (Word, Check), event: nat)
    ensures Carrying(Keep(ps, request), event) + Carrying(Drop(ps, request), event) == Carrying(ps, event)
  {
    if ps != [] {
      KeepDropCount(ps[1..], request, event);
      CarryingAppend([ps[0]], Keep(ps[1..], request), event);
      CarryingAppend([ps[0]], Drop(ps[1..], request), event);
      var picked := Picks(request, RoutedOf(ps[0]));
      assert picked ==> [] + Keep(ps[1..], request) == Keep(ps[1..], request);
      assert !picked ==> [] + Drop(ps[1..], request) == Drop(ps[1..], request);
    }
  }

  lemma {:induction false} KeepSubsequence(front: seq<WritingPacket>, ps: seq<WritingPacket>, request: (Word, Check),
                                           b: seq<WritingPacket>)
    requires Subsequence(front + ps, b)
    ensures Subsequence(front + Keep(ps, request), b)
    decreases |ps|
  {
    if ps != [] {
      if Picks(request, RoutedOf(ps[0])) {
        var a := front + ps;
        SubsequenceDrops(a, |front|, b);
        assert a[..|front|] + a[|front| + 1..] == front + ps[1..];
        KeepSubsequence(front, ps[1..], request, b);
        assert [] + Keep(ps[1..], request) == Keep(ps[1..], request);
      } else {
        assert front + ps == (front + [ps[0]]) + ps[1..];
        KeepSubsequence(front + [ps[0]], ps[1..], request, b);
        assert (front + [ps[0]]) + Keep(ps[1..], request) == front + ([ps[0]] + Keep(ps[1..], request));
      }
    }
  }

  lemma PurgeNothing(request: (Word, Check))
    ensures Keep([], request) == [] && Drop([], request) == [] && SignalAll([], false) == []
  {
  }

  lemma {:induction false} KeepAppend(a: seq<WritingPacket>, p: WritingPacket, request: (Word, Check))
    ensures Keep(a + [p], request) == Keep(a, request) + (if Picks(request, RoutedOf(p)) then [] else [p])
    ensures Drop(a + [p], request) == Drop(a, request) + (if Picks(request, RoutedOf(p)) then [p] else [])
  {
    hide Picks;
    if a == [] {
      assert a + [p] == [p] && [p][1..] == [];
    } else {
      KeepAppend(a[1..], p, request);
      assert (a + [p])[1..] == a[1..] + [p] && (a + [p])[0] == a[0];
    }
  }

  lemma {:induction false} SubsequenceCut(a: seq<WritingPacket>, mid: seq<WritingPacket>, c: seq<WritingPacket>,
                                          b: seq<WritingPacket>)
    requires Subsequence(a + mid + c, b)
    ensures Subsequence(a + c, b)
    decreases |mid|
  {
    if mid == [] {
      assert a + mid + c == a + c;
    } else {
      var all := a + mid + c;
      SubsequenceDrops(all, |a|, b);
      assert all[..|a|] + all[|a| + 1..] == a + mid[1..] + c;
      SubsequenceCut(a, mid[1..], c, b);
    }
  }

  // ---------------------------------------------------------------- frames on the wire

  predicate Sendable(p: WritingPacket, maxPayload: nat)
  {
    0 < |p.payload| <= maxPayload
  }

  predicate AllSendable(ps: seq<WritingPacket>, maxPayload: nat)
  {
    forall i :: 0 <= i < |ps| ==> Sendable(ps[i], maxPayload)
  }

  function Frame(p: WritingPacket): seq<byte>
    requires |p.payload| < TWO_32
  {
    Be32(|p.payload|) + Be32(p.channel) + p.payload
  }

  /** The length and then the channel stand in front, most significant byte first. */
  lemma FrameLayout(p: WritingPacket)
    requires |p.payload| < TWO_32
    ensures var s := Frame(p);
      && |s| == 8 + |p.payload| && s[8..] == p.payload
      && s[0] as int * 0x100_0000 + s[1] as int * 0x1_0000 + s[2] as int * 0x100 + s[3] as int == |p.payload|
      && s[4] as int * 0x100_0000 + s[5] as int * 0x1_0000 + s[6] as int * 0x100 + s[7] as int == p.channel
  {
    Be32IsBigEndian(|p.payload|);
    Be32IsBigEndian(p.channel);
  }

  function Frames(ps: seq<WritingPacket>, maxPayload: nat): seq<byte>
    requires AllSendable(ps, maxPayload) && maxPayload < TWO_32
  {
    if ps == [] then [] else Frame(ps[0]) + Frames(ps[1..], maxPayload)
  }

  lemma {:induction false} FramesAppend(a: seq<WritingPacket>, b: seq<WritingPacket>, maxPayload: nat)
    requires AllSendable(a, maxPayload) && AllSendable(b, maxPayload) && maxPayload < TWO_32
    ensures AllSendable(a + b, maxPayload)
    ensures Frames(a + b, maxPayload) == Frames(a, maxPayload) + Frames(b, maxPayload)
  {
    hide Frame;
    if a == [] {
      assert a + b == b;
    } else {
      FramesAppend(a[1..], b, maxPayload);
      assert (a + b)[1..] == a[1..] + b && (a + b)[0] == a[0];
    }
  }

  function WireSize(ps: seq<WritingPacket>): nat
  {
    if ps == [] then 0 else HEAD_SIZE + |ps[0].payload| + WireSize(ps[1..])
  }

  lemma {:induction false} WireSizeAppend(a: seq<WritingPacket>, b: seq<WritingPacket>)
    ensures WireSize(a + b) == WireSize(a) + WireSize(b)
  {
    if a == [] {
      assert a + b == b;
    } else {
      WireSizeAppend(a[1..], b);
      assert (a + b)[1..] == a[1..] + b;
    }
  }

  lemma {:induction false} FramesSize(ps: seq<WritingPacket>, maxPayload: nat)
    requires AllSendable(ps, maxPayload) && maxPayload < TWO_32
    ensures |Frames(ps, maxPayload)| == WireSize(ps)
  {
    if ps != [] { FramesSize(ps[1..], maxPayload); }
  }

  // ---------------------------------------------------------------- the peer reading them

  datatype Failure = ReceivingError | PacketTooLarge | InvalidPacket

  /** What `doReceive` hands on from a connection that delivers `input` and then ends. */
  function Deliver(input: seq<byte>, maxPayload: nat): (seq<Routed>, Failure)
    decreases |input|
  {
    if |input| < HEAD_SIZE then ([], ReceivingError)
    else
      var size := ReadBe32(input);
      if size > maxPayload then ([], PacketTooLarge)
      else if |input| < HEAD_SIZE + size then ([], InvalidPacket)
      else
        var (rest, failure) := Deliver(input[HEAD_SIZE + size..], maxPayload);
        ([Routed(ReadBe32(input[4..]), input[HEAD_SIZE..HEAD_SIZE + size])] + rest, failure)
  }

  method DoReceive(input: seq<byte>, maxPayload: nat) returns (packets: seq<Routed>, failure: Failure)
    ensures (packets, failure) == Deliver(input, maxPayload)
  {
    hide ReadBe32;
    packets := [];
    var at := 0;
    assert input[0..] == input;
    while true
      invariant 0 <= at <= |input|
      invariant Deliver(input, maxPayload).0 == packets + Deliver(input[at..], maxPayload).0
      invariant Deliver(input, maxPayload).1 == Deliver(input[at..], maxPayload).1
      decreases |input| - at
    {
      if |input| - at < HEAD_SIZE {
        assert packets + [] == packets;
        return packets, ReceivingError;
      }
      var size := ReadBe32(input[at..]);
      var channel := ReadBe32(input[at..][4..]);
      if size > maxPayload {
        assert packets + [] == packets;
        return packets, PacketTooLarge;
      }
      if |input| - at - HEAD_SIZE < size {
        assert packets + [] == packets;
        return packets, InvalidPacket;
      }
      var next := at + HEAD_SIZE + size;
      assert input[at..][HEAD_SIZE + size..] == input[next..];
      var p := Routed(channel, input[at..][HEAD_SIZE..HEAD_SIZE + size]);
      assert packets + ([p] + Deliver(input[next..], maxPayload).0) == packets + [p] + Deliver(input[next..], maxPayload).0;
      packets := packets + [p];
      at := next;
    }
  }

  function AllRouted(ps: seq<WritingPacket>): (r: seq<Routed>)
    ensures |r| == |ps|
  {
    if ps == [] then [] else [RoutedOf(ps[0])] + AllRouted(ps[1..])
  }

  lemma OneFrame(p: WritingPacket, rest: seq<byte>, maxPayload: nat)
    requires |p.payload| <= maxPayload < TWO_32
    ensures Deliver(Frame(p) + rest, maxPayload) ==
      ([RoutedOf(p)] + Deliver(rest, maxPayload).0, Deliver(rest, maxPayload).1)
  {
    hide Be32, ReadBe32;
    var size, input := |p.payload|, Frame(p) + rest;
    Be32RoundTrip(size, Be32(p.channel) + p.payload + rest);
    Be32RoundTrip(p.channel, p.payload + rest);
    assert input == Be32(size) + (Be32(p.channel) + p.payload + rest);
    assert input[4..] == Be32(p.channel) + (p.payload + rest);
    assert input[HEAD_SIZE..HEAD_SIZE + size] == p.payload;
    assert input[HEAD_SIZE + size..] == rest;
  }

  /** The peer reads back exactly the packets written, in order. */
  lemma {:induction false} FramesArrive(ps: seq<WritingPacket>, maxPayload: nat)
    requires AllSendable(ps, maxPayload) && maxPayload < TWO_32
    ensures Deliver(Frames(ps, maxPayload), maxPayload) == (AllRouted(ps), ReceivingError)
  {
    hide Frame;
    if ps != [] {
      FramesArrive(ps[1..], maxPayload);
      OneFrame(ps[0], Frames(ps[1..], maxPayload), maxPayload);
    }
  }

  /** Packets as they stand on the wire; empty ones may be received, though none is sent. */
  function OnWire(rs: seq<Routed>): seq<byte>
    requires forall i :: 0 <= i < |rs| ==> |rs[i].payload| < TWO_32
  {
    if rs == [] then [] else Frame(WritingPacket(rs[0].channel, rs[0].payload, None)) + OnWire(rs[1..])
  }

  /** What ends the receiving: too few bytes for a head, a length above the limit, or too few bytes for the packet. */
  predicate Ends(tail: seq<byte>, maxPayload: nat, failure: Failure)
  {
    match failure
    case ReceivingError => |tail| < 8
    case PacketTooLarge => |tail| >= 8 && ReadBe32(tail) > maxPayload
    case InvalidPacket => |tail| >= 8 && ReadBe32(tail) <= maxPayload && |tail| < 8 + ReadBe32(tail)
  }

  lemma {:induction false} DeliveredFrom(input: seq<byte>, maxPayload: nat) returns (tail: seq<byte>)
    requires maxPayload < TWO_32
    ensures var (rs, failure) := Deliver(input, maxPayload);
      && (forall i :: 0 <= i < |rs| ==> |rs[i].payload| <= maxPayload)
      && input == OnWire(rs) + tail && Ends(tail, maxPayload, failure)
    decreases |input|
  {
    hide Be32, ReadBe32;
    tail := input;
    if |input| >= HEAD_SIZE && ReadBe32(input) <= maxPayload && |input| >= HEAD_SIZE + ReadBe32(input) {
      var size := ReadBe32(input);
      var next := input[HEAD_SIZE + size..];
      tail := DeliveredFrom(next, maxPayload);
      var (rest, failure) := Deliver(next, maxPayload);
      var first := Routed(ReadBe32(input[4..]), input[HEAD_SIZE..HEAD_SIZE + size]);
      var rs := [first] + rest;
      assert rs[1..] == rest;
      HeadOf(input);
      assert input == Frame(WritingPacket(first.channel, first.payload, None)) + next;
    }
  }

  lemma HeadOf(input: seq<byte>)
    requires |input| >= 8
    ensures input[..8] == Be32(ReadBe32(input)) + Be32(ReadBe32(input[4..]))
  {
    hide Be32;
    Be32Inverse(input[..4]);
    Be32Inverse(input[4..8]);
    assert ReadBe32(input[..4]) == ReadBe32(input) && ReadBe32(input[4..8]) == ReadBe32(input[4..]);
    assert input[..8] == input[..4] + input[4..8];
  }

  lemma NothingDelivered(tail: seq<byte>, maxPayload: nat, failure: Failure)
    requires Ends(tail, maxPayload, failure)
    ensures Deliver(tail, maxPayload) == ([], failure)
  {
    hide ReadBe32;
  }

  lemma {:induction false} DeliveredBack(rs: seq<Routed>, tail: seq<byte>, maxPayload: nat, failure: Failure)
    requires maxPayload < TWO_32 && (forall i :: 0 <= i < |rs| ==> |rs[i].payload| <= maxPayload)
    requires Ends(tail, maxPayload, failure)
    ensures Deliver(OnWire(rs) + tail, maxPayload) == (rs, failure)
  {
    hide Frame, ReadBe32, Deliver, Ends;
    if rs == [] {
      assert OnWire(rs) + tail == tail;
      NothingDelivered(tail, maxPayload, failure);
    } else {
      DeliveredBack(rs[1..], tail, maxPayload, failure);
      var p := WritingPacket(rs[0].channel, rs[0].payload, None);
      OneFrame(p, OnWire(rs[1..]) + tail, maxPayload);
      assert OnWire(rs) + tail == Frame(p) + (OnWire(rs[1..]) + tail);
      assert [RoutedOf(p)] + rs[1..] == rs;
    }
  }

  /** Exactly which packets a connection delivers and why it stops: whole packets up to the first that is not one. */
  lemma DeliversExactly(input: seq<byte>, maxPayload: nat, rs: seq<Routed>, failure: Failure)
    requires maxPayload < TWO_32 && (forall i :: 0 <= i < |rs| ==> |rs[i].payload| <= maxPayload)
    ensures Deliver(input, maxPayload) == (rs, failure) <==>
      exists tail :: input == OnWire(rs) + tail && Ends(tail, maxPayload, failure)
  {
    hide Deliver, OnWire, Ends;
    if Deliver(input, maxPayload) == (rs, failure) {
      var tail := DeliveredFrom(input, maxPayload);
    }
    forall tail | input == OnWire(rs) + tail && Ends(tail, maxPayload, failure)
      ensures Deliver(input, maxPayload) == (rs, failure)
    {
      DeliveredBack(rs, tail, maxPayload, failure);
    }
  }

  // ---------------------------------------------------------------- every event in one place

  /** Each event handed out is queued, being written, or was signalled once; true means written. */
  ghost predicate Balanced(queue: seq<WritingPacket>, batch: seq<WritingPacket>, sent: seq<WritingPacket>,
                           signals: seq<Signal>, next: nat)
  {
    forall e: nat :: BalancedAt(queue, batch, sent, signals, next, e)
  }

  predicate BalancedAt(queue: seq<WritingPacket>, batch: seq<WritingPacket>, sent: seq<WritingPacket>,
                       signals: seq<Signal>, next: nat, e: nat)
  {
    && Carrying(queue, e) + Carrying(batch, e) + Signalled(signals, e, true) + Signalled(signals, e, false) == One(e < next)
    && Signalled(signals, e, true) == Carrying(sent, e)
  }

  lemma AcceptBalanced(queue: seq<WritingPacket>, batch: seq<WritingPacket>, sent: seq<WritingPacket>,
                       signals: seq<Signal>, next: nat, p: WritingPacket)
    requires Balanced(queue, batch, sent, signals, next) && (p.done.Some? ==> p.done.value == next)
    ensures Balanced(queue + [p], batch, sent, signals, if p.done.Some? then next + 1 else next)
  {
    var after := if p.done.Some? then next + 1 else next;
    forall e: nat ensures BalancedAt(queue + [p], batch, sent, signals, after, e) {
      assert BalancedAt(queue, batch, sent, signals, next, e);
      CarryingAppend(queue, [p], e);
    }
  }

  lemma MoveBalanced(batch: seq<WritingPacket>, queue: seq<WritingPacket>, sent: seq<WritingPacket>,
                     signals: seq<Signal>, next: nat)
    requires Balanced(batch + queue, [], sent, signals, next)
    ensures Balanced(queue, batch, sent, signals, next)
  {
    forall e: nat ensures BalancedAt(queue, batch, sent, signals, next, e) {
      assert BalancedAt(batch + queue, [], sent, signals, next, e);
      CarryingAppend(batch, queue, e);
    }
  }

  lemma WrittenBalanced(queue: seq<WritingPacket>, batch: seq<WritingPacket>, sent: seq<WritingPacket>,
                        signals: seq<Signal>, next: nat)
    requires Balanced(queue, batch, sent, signals, next)
    ensures Balanced(queue, [], sent + batch, signals + SignalAll(batch, true), next)
  {
    forall e: nat ensures BalancedAt(queue, [], sent + batch, signals + SignalAll(batch, true), next, e) {
      assert BalancedAt(queue, batch, sent, signals, next, e);
      CarryingAppend(sent, batch, e);
      SignalAllCounts(batch, e, true);
      SignalledAppend(signals, SignalAll(batch, true), e, true);
      SignalledAppend(signals, SignalAll(batch, true), e, false);
    }
  }

  lemma FailedBalanced(queue: seq<WritingPacket>, batch: seq<WritingPacket>, sent: seq<WritingPacket>,
                       signals: seq<Signal>, next: nat)
    requires Balanced(queue, batch, sent, signals, next)
    ensures Balanced(queue, [], sent, signals + SignalAll(batch, false), next)
  {
    forall e: nat ensures BalancedAt(queue, [], sent, signals + SignalAll(batch, false), next, e) {
      assert BalancedAt(queue, batch, sent, signals, next, e);
      SignalAllCounts(batch, e, false);
      SignalledAppend(signals, SignalAll(batch, false), e, true);
      SignalledAppend(signals, SignalAll(batch, false), e, false);
    }
  }

  lemma DroppedBalanced(kept: seq<WritingPacket>, dropped: seq<WritingPacket>, queue: seq<WritingPacket>,
                        batch: seq<WritingPacket>, sent: seq<WritingPacket>, signals: seq<Signal>, next: nat)
    requires Balanced(queue, batch, sent, signals, next)
    requires forall e: nat :: Carrying(kept, e) + Carrying(dropped, e) == Carrying(queue, e)
    ensures Balanced(kept, batch, sent, signals + SignalAll(dropped, false), next)
  {
    forall e: nat ensures BalancedAt(kept, batch, sent, signals + SignalAll(dropped, false), next, e) {
      assert BalancedAt(queue, batch, sent, signals, next, e);
      assert Carrying(kept, e) + Carrying(dropped, e) == Carrying(queue, e);
      SignalAllCounts(dropped, e, false);
      SignalledAppend(signals, SignalAll(dropped, false), e, true);
      SignalledAppend(signals, SignalAll(dropped, false), e, false);
    }
  }

  lemma DrainBalanced(queue: seq<WritingPacket>, batch: seq<WritingPacket>, sent: seq<WritingPacket>,
                      signals: seq<Signal>, next: nat)
    requires Balanced(queue, batch, sent, signals, next)
    ensures Balanced([], batch, sent, signals + SignalAll(queue, false), next)
  {
    hide Balanced;
    forall e: nat ensures Carrying([], e) + Carrying(queue, e) == Carrying(queue, e) {}
    DroppedBalanced([], queue, queue, batch, sent, signals, next);
  }

  // ---------------------------------------------------------------- the sender

  class SocketSender {
    const maxPayload: nat
    var sendingQueue: seq<WritingPacket>
    var writing: seq<WritingPacket>
    var error: bool
    var closed: bool
    /** The sending coroutine has returned. */
    var exited: bool
    var signals: seq<Signal>
    var nextEvent: nat
    /** Bytes the connection took in full. */
    var wire: seq<byte>
    ghost var accepted: seq<WritingPacket>
    ghost var sent: seq<WritingPacket>

    ghost predicate Ordered()
      reads this
    {
      && maxPayload < TWO_32
      && AllSendable(sent, maxPayload) && AllSendable(writing, maxPayload) && AllSendable(sendingQueue, maxPayload)
      && wire == Frames(sent, maxPayload)
      && Subsequence(sent + writing + sendingQueue, accepted)
    }

    ghost predicate Valid()
      reads this
    {
      && closed == error && (closed ==> sendingQueue == []) && (exited ==> error && writing == [])
      && Ordered()
      && Balanced(sendingQueue, writing, sent, signals, nextEvent)
    }

    constructor (maxPayload: nat)
      requires maxPayload < TWO_32
      ensures Valid() && !error && !exited && accepted == [] && signals == [] && nextEvent == 0
    {
      this.maxPayload := maxPayload;
      sendingQueue, writing, signals, wire, accepted, sent := [], [], [], [], [], [];
      error, closed, exited := false, false, false;
      nextEvent := 0;
    }

    /**
     Queues a packet, with a completion event when the caller wants to wait for it.  `room` tells
     whether a blocking put found room before its timeout.
     */
    method SendPacketRaw(channel: Word, payload: seq<byte>, wait: bool, room: bool)
      returns (ok: bool, event: Option<nat>)
      requires Valid()
      modifies this
      ensures Valid() && ok == (!old(error) && 0 < |payload| <= maxPayload && room)
      ensures event == if ok && wait then Some(old(nextEvent)) else None
      ensures accepted == if ok then old(accepted) + [WritingPacket(channel, payload, event)] else old(accepted)
      ensures sendingQueue == if ok then old(sendingQueue) + [WritingPacket(channel, payload, event)] else old(sendingQueue)
      ensures signals == old(signals) && sent == old(sent) && writing == old(writing) && error == old(error)
    {
      hide Balanced, Frames, Subsequence;
      ok, event := false, None;
      if error || payload == [] {
        return;
      }
      if |payload| > maxPayload {
        return;
      }
      if !room || closed {
        return;
      }
      event := if wait then Some(nextEvent) else None;
      var p := WritingPacket(channel, payload, event);
      AcceptBalanced(sendingQueue, writing, sent, signals, nextEvent, p);
      SubsequenceAppend(sent + writing + sendingQueue, accepted, p);
      assert sent + writing + sendingQueue + [p] == sent + writing + (sendingQueue + [p]);
      if wait {
        nextEvent := nextEvent + 1;
      }
      sendingQueue := sendingQueue + [p];
      accepted := accepted + [p];
      ok := true;
    }

    /** Takes the next packet and as many more as fit one write; the first that does not fit goes back. */
    method Collect() returns (count: nat)
      requires Valid() && !exited && writing == [] && sendingQueue != []
      modifies this`sendingQueue, this`writing
      ensures Valid() && writing != [] && old(sendingQueue) == writing + sendingQueue
      ensures count == WireSize(writing)
      ensures |writing| > 1 ==> count <= MAX_SEND_SIZE
      ensures sendingQueue != [] ==> count + HEAD_SIZE + |sendingQueue[0].payload| > MAX_SEND_SIZE
    {
      hide Balanced, Frames, Subsequence;
      ghost var all := sendingQueue;
      var batch := [sendingQueue[0]];
      var queue := sendingQueue[1..];
      count := HEAD_SIZE + |batch[0].payload|;
      while count + HEAD_SIZE < MAX_SEND_SIZE && queue != []
        invariant batch != [] && all == batch + queue && count == WireSize(batch)
        invariant |batch| > 1 ==> count <= MAX_SEND_SIZE
        decreases |queue|
      {
        var p := queue[0];
        if count + HEAD_SIZE + |p.payload| > MAX_SEND_SIZE {
          break;
        }
        count := count + HEAD_SIZE + |p.payload|;
        WireSizeAppend(batch, [p]);
        assert all == (batch + [p]) + queue[1..];
        batch := batch + [p];
        queue := queue[1..];
      }
      assert forall i :: 0 <= i < |batch| ==> batch[i] == all[i];
      assert forall i :: 0 <= i < |queue| ==> queue[i] == all[|batch| + i];
      MoveBalanced(batch, queue, sent, signals, nextEvent);
      assert sent + [] + all == sent + batch + queue;
      writing, sendingQueue := batch, queue;
    }

    /** The bytes of the batch, header by header. */
    method Serialize() returns (buf: seq<byte>)
      requires Valid()
      ensures AllSendable(writing, maxPayload) && maxPayload < TWO_32 && buf == Frames(writing, maxPayload)
    {
      hide Balanced, Frame, Subsequence;
      buf := [];
      for i := 0 to |writing|
        invariant AllSendable(writing[..i], maxPayload) && buf == Frames(writing[..i], maxPayload)
      {
        var p := writing[i];
        assert Sendable(p, maxPayload);
        assert writing[..i + 1] == writing[..i] + [p];
        FramesAppend(writing[..i], [p], maxPayload);
        assert Frames([p], maxPayload) == Frame(p) + Frames([], maxPayload) == Frame(p);
        buf := buf + Frame(p);
      }
      assert writing[..|writing|] == writing;
    }

    /** The connection has taken `taken` bytes of the batch: all of them, or the channel breaks. */
    method FinishWrite(taken: int)
      requires Valid() && writing != []
      modifies this
      ensures Valid() && writing == [] && accepted == old(accepted) && nextEvent == old(nextEvent)
      ensures taken == WireSize(old(writing)) ==>
        && sent == old(sent) + old(writing) && signals == old(signals) + SignalAll(old(writing), true)
        && sendingQueue == old(sendingQueue) && error == old(error) && exited == old(exited)
      ensures taken != WireSize(old(writing)) ==>
        && sent == old(sent) && error && exited
        && signals == old(signals) + SignalAll(old(sendingQueue), false) + SignalAll(old(writing), false)
    {
      hide Balanced, Frames, Subsequence, SignalAll;
      var buf := Serialize();
      FramesSize(writing, maxPayload);
      if taken == |buf| {
        WrittenBalanced(sendingQueue, writing, sent, signals, nextEvent);
        FramesAppend(sent, writing, maxPayload);
        assert sent + writing + sendingQueue == (sent + writing) + [] + sendingQueue;
        wire := wire + buf;
        sent := sent + writing;
        signals := signals + SignalAll(writing, true);
        writing := [];
      } else {
        Abort();
        Leave();
      }
    }

    /** The sending coroutine returns: whatever it was writing has failed. */
    method Leave()
      requires Valid() && error
      modifies this`writing, this`signals, this`exited
      ensures Valid() && exited && writing == [] && signals == old(signals) + SignalAll(old(writing), false)
    {
      hide Balanced, Frames, Subsequence, SignalAll;
      FailedBalanced(sendingQueue, writing, sent, signals, nextEvent);
      SubsequenceCut(sent, writing, sendingQueue, accepted);
      assert sent + [] + sendingQueue == sent + sendingQueue;
      signals := signals + SignalAll(writing, false);
      writing := [];
      exited := true;
    }

    /** Once the sending coroutine has returned, every event handed out has been signalled exactly once. */
    lemma AllSignalledOnce(e: nat)
      requires Valid() && exited && e < nextEvent
      ensures Signalled(signals, e, true) + Signalled(signals, e, false) == 1
      ensures Signalled(signals, e, true) == Carrying(sent, e)
    {
      assert BalancedAt(sendingQueue, writing, sent, signals, nextEvent, e);
    }

    /** Breaks the channel: the queue is closed and everyone waiting in it is told it failed. */
    method Abort()
      requires Valid()
      modifies this`error, this`closed, this`sendingQueue, this`signals
      ensures Valid() && error
      ensures old(error) ==> signals == old(signals) && sendingQueue == old(sendingQueue)
      ensures !old(error) ==> signals == old(signals) + SignalAll(old(sendingQueue), false) && sendingQueue == []
      ensures signals == old(signals) + SignalAll(old(sendingQueue), false)
    {
      hide Balanced, Frames, Subsequence;
      assert SignalAll([], false) == [] && signals + [] == signals;
      hide SignalAll;
      if error {
        return;
      }
      error := true;
      closed := true;
      assert sent + writing + sendingQueue + [] == sent + writing + sendingQueue;
      SubsequenceCut(sent + writing, sendingQueue, [], accepted);
      DrainBalanced(sendingQueue, writing, sent, signals, nextEvent);
      DrainQueue();
    }

    /** Empties the queue, failing every waiter in it. */
    method DrainQueue()
      modifies this`sendingQueue, this`signals
      ensures sendingQueue == [] && signals == old(signals) + SignalAll(old(sendingQueue), false)
    {
      ghost var all, before := sendingQueue, signals;
      assert SignalAll([], false) == [] && signals + [] == signals;
      hide SignalAll;
      ghost var k := 0;
      while sendingQueue != []
        invariant k <= |all| && sendingQueue == all[k..] && signals == before + SignalAll(all[..k], false)
        decreases |sendingQueue|
      {
        var p := sendingQueue[0];
        assert all[..k + 1] == all[..k] + [p];
        SignalAllAppend(all[..k], [p], false);
        SignalOne(p);
        sendingQueue := sendingQueue[1..];
        if p.done.Some? {
          signals := signals + [Signal(p.done.value, false)];
        }
        k := k + 1;
      }
      assert all[..k] == all;
    }

    /** Takes the picked packets out of the queue, failing their waiters; the rest stays in order. */
    method CleanSendingPacket(request: (Word, Check))
      requires Valid()
      modifies this`sendingQueue, this`signals
      ensures Valid()
      ensures sendingQueue == Keep(old(sendingQueue), request)
      ensures signals == old(signals) + SignalAll(Drop(old(sendingQueue), request), false)
    {
      hide Balanced, Frames, Subsequence, Picks, Keep, Drop, SignalAll, AllSendable;
      ghost var all, before := sendingQueue, signals;
      PurgeKeeps(request);
      var reserved := SortOut(request);
      sendingQueue := reserved;
    }

    /** Empties the queue; what is not picked is handed back in order. */
    method SortOut(request: (Word, Check)) returns (reserved: seq<WritingPacket>)
      modifies this`sendingQueue, this`signals
      ensures sendingQueue == [] && reserved == Keep(old(sendingQueue), request)
      ensures signals == old(signals) + SignalAll(Drop(old(sendingQueue), request), false)
    {
      hide Picks, Keep, Drop, SignalAll;
      ghost var all, before := sendingQueue, signals;
      PurgeNothing(request);
      assert before + [] == before;
      reserved := [];
      ghost var k := 0;
      while sendingQueue != []
        invariant k <= |all| && sendingQueue == all[k..]
        invariant reserved == Keep(all[..k], request) && signals == before + SignalAll(Drop(all[..k], request), false)
        decreases |sendingQueue|
      {
        var p := sendingQueue[0];
        assert all[..k + 1] == all[..k] + [p];
        SortStep(all[..k], p, request, before);
        sendingQueue := sendingQueue[1..];
        if Picks(request, RoutedOf(p)) {
          if p.done.Some? {
            signals := signals + [Signal(p.done.value, false)];
          }
        } else {
          reserved := reserved + [p];
        }
        k := k + 1;
      }
      assert all[..k] == all;
    }

    ghost method PurgeKeeps(request: (Word, Check))
      requires Valid()
      ensures AllSendable(Keep(sendingQueue, request), maxPayload)
      ensures sendingQueue == [] ==> Keep(sendingQueue, request) == []
      ensures Subsequence(sent + writing + Keep(sendingQueue, request), accepted)
      ensures Balanced(Keep(sendingQueue, request), writing, sent,
                       signals + SignalAll(Drop(sendingQueue, request), false), nextEvent)
    {
      hide Subsequence, Picks;
      KeepSendable(sendingQueue, request, maxPayload);
      KeepSubsequence(sent + writing, sendingQueue, request, accepted);
      forall e: nat
        ensures Carrying(Keep(sendingQueue, request), e) + Carrying(Drop(sendingQueue, request), e) == Carrying(sendingQueue, e)
      {
        KeepDropCount(sendingQueue, request, e);
      }
      DroppedBalanced(Keep(sendingQueue, request), Drop(sendingQueue, request), sendingQueue, writing, sent, signals, nextEvent);
    }

    /**
     The channel at `path` closes: its DESTROY request is queued if the socket takes it, then its packets and those of
     the channels below it are purged.  Both climb through the virtual channels above, `working` tells which of them
     still work, and stop at the first that does not; they do not start if the parent keeps nothing under the number.
     */
    method CloseChannel(path: seq<Word>, registered: bool, working: seq<bool>)
      requires Valid() && path != [] && |working| == |path| - 1
      modifies this
      ensures Valid()
      ensures sent == old(sent) && writing == old(writing)
      ensures !registered || false in working ==> sendingQueue == old(sendingQueue) && signals == old(signals)
      ensures registered && false !in working ==>
        var last := path[|path| - 1];
        var destroy := Route(path[..|path| - 1], COMMAND_CHANNEL, DestroyRequest(last));
        var queued := !old(error) && |destroy.payload| <= maxPayload && last != COMMAND_CHANNEL;
        && sendingQueue == KeepOutside(old(sendingQueue), path)
                           + (if queued then [WritingPacket(destroy.channel, destroy.payload, None)] else [])
        && signals == old(signals) + SignalAll(DropUnder(old(sendingQueue), path), false)
    {
      if !registered || false in working {
        return;
      }
      Purge(path);
    }

    method Purge(path: seq<Word>)
      requires Valid() && path != []
      modifies this
      ensures Valid()
      ensures var last := path[|path| - 1];
        var destroy := Route(path[..|path| - 1], COMMAND_CHANNEL, DestroyRequest(last));
        var queued := !old(error) && |destroy.payload| <= maxPayload && last != COMMAND_CHANNEL;
        sendingQueue == KeepOutside(old(sendingQueue), path)
                        + (if queued then [WritingPacket(destroy.channel, destroy.payload, None)] else [])
      ensures signals == old(signals) + SignalAll(DropUnder(old(sendingQueue), path), false)
      ensures sent == old(sent) && writing == old(writing)
    {
      hide Balanced, Frames, Subsequence, Picks, Under, Route, CleanRequest;
      var request := CleanRequest(path);
      var last := path[|path| - 1];
      var destroy := Route(path[..|path| - 1], COMMAND_CHANNEL, DestroyRequest(last));
      RouteNotEmpty(path[..|path| - 1], COMMAND_CHANNEL, DestroyRequest(last));
      ghost var before, log := sendingQueue, signals;
      var ok, event := SendPacketRaw(destroy.channel, destroy.payload, false, true);
      ghost var p := WritingPacket(destroy.channel, destroy.payload, None);
      KeepAppend(before, p, request);
      DestroyKeptExactly(path);
      PurgeIsByPath(before, path);
      CleanSendingPacket(request);
      assert RoutedOf(p) == destroy;
      assert Keep(before, request) + [] == Keep(before, request);
      if ok && last == COMMAND_CHANNEL {
        SignalAllAppend(Drop(before, request), [p], false);
        assert SignalAll([p], false) == [];
      } else {
        assert Drop(before, request) + [] == Drop(before, request);
      }
    }
  }

  lemma {:induction false} KeepSendable(ps: seq<WritingPacket>, request: (Word, Check), maxPayload: nat)
    requires AllSendable(ps, maxPayload)
    ensures AllSendable(Keep(ps, request), maxPayload)
  {
    if ps != [] { KeepSendable(ps[1..], request, maxPayload); }
  }

  /** One packet more, picked or not. */
  lemma SortStep(done: seq<WritingPacket>, p: WritingPacket, request: (Word, Check), before: seq<Signal>)
    ensures Keep(done + [p], request) == Keep(done, request) + (if Picks(request, RoutedOf(p)) then [] else [p])
    ensures before + SignalAll(Drop(done + [p], request), false)
         == before + SignalAll(Drop(done, request), false)
            + (if Picks(request, RoutedOf(p)) && p.done.Some? then [Signal(p.done.value, false)] else [])
  {
    hide Picks, Keep, Drop, SignalAll;
    KeepAppend(done, p, request);
    SignalAllAppend(Drop(done, request), [p], false);
    SignalOne(p);
    assert Drop(done, request) + [] == Drop(done, request) && Keep(done, request) + [] == Keep(done, request);
  }

  lemma RouteNotEmpty(path: seq<Word>, channel: Word, payload: seq<byte>)
    requires payload != []
    ensures Route(path, channel, payload).payload != []
  {
    RouteIsPath(path, channel, payload);
  }

  /** The packets whose path does not extend `path`, in order. */
  function KeepOutside(ps: seq<WritingPacket>, path: seq<Word>): seq<WritingPacket>
    requires path != []
  {
    if ps == [] then []
    else (if Under(path, RoutedOf(ps[0])) then [] else [ps[0]]) + KeepOutside(ps[1..], path)
  }

  function DropUnder(ps: seq<WritingPacket>, path: seq<Word>): seq<WritingPacket>
    requires path != []
  {
    if ps == [] then []
    else (if Under(path, RoutedOf(ps[0])) then [ps[0]] else []) + DropUnder(ps[1..], path)
  }

  lemma {:induction false} PurgeIsByPath(ps: seq<WritingPacket>, path: seq<Word>)
    requires path != []
    ensures Keep(ps, CleanRequest(path)) == KeepOutside(ps, path)
    ensures Drop(ps, CleanRequest(path)) == DropUnder(ps, path)
    decreases |ps|
  {
    hide Picks, Under, CleanRequest;
    if ps != [] {
      CleanRequestIsPath(path, RoutedOf(ps[0]));
      PurgeIsByPath(ps[1..], path);
    }
  }
}
