/**
 Slow-down / go-through flow control at one end of a channel.

 A packet that arrives is handled in two steps, because storing it may block on a full queue: the
 check that may ask the peer to slow down, and the put.  Anything may happen between the two.
 */
module ChannelFlow {
  import opened Bytes

  datatype Message = Data(size: nat) | SlowDown | GoThrough

  /** One side: its receiving queue (packet sizes), its gate for sending, and a packet being stored. */
  datatype End = End(
    capacity: nat,
    queue: seq<nat>,
    notFull: bool,
    slowDownRequested: bool,
    goThrough: bool,
    held: Option<nat>)

  function Fresh(capacity: nat): End
  {
    End(capacity, [], true, false, true, None)
  }

  /** Three quarters of the capacity, as 32-bit arithmetic computes it. */
  function Threshold(capacity: nat): nat
  {
    (capacity * 3 % TWO_32) / 4
  }

  // ---------------------------------------------------------------- what one side does

  /** Looks at the next message from the peer; a command is done at once, data is held for the put. */
  function Receive(e: End, m: Message): (r: (End, seq<Message>))
    requires e.held.None?
  {
    match m
    case SlowDown => (e.(goThrough := false), [])
    case GoThrough => (e.(goThrough := true), [])
    case Data(n) =>
      if !e.slowDownRequested && Sum(e.queue) >= Threshold(e.capacity)
      then (e.(slowDownRequested := true, held := Some(n)), [SlowDown])
      else (e.(held := Some(n)), [])
  }

  /** Stores the held packet; the queue must not be full. */
  function Put(e: End): End
    requires e.held.Some? && e.notFull
  {
    var queue := e.queue + [e.held.value];
    e.(queue := queue, held := None, notFull := Sum(queue) < e.capacity)
  }

  /** The application takes a packet. */
  function Take(e: End): (r: (End, seq<Message>))
    requires e.queue != []
  {
    var queue := e.queue[1..];
    var rest := e.(queue := queue, notFull := e.notFull || Sum(queue) < e.capacity);
    if e.slowDownRequested && Sum(queue) <= e.capacity / 2
    then (rest.(slowDownRequested := false), [GoThrough])
    else (rest, [])
  }

  /** The queue is emptied past the check for a pause, packet by packet. */
  function Emptied(e: End): End
  {
    e.(queue := [], notFull := e.notFull || (e.queue != [] && e.capacity > 0))
  }

  /** The packets as messages; an empty one is not sent. */
  function DataOf(sizes: seq<nat>): (messages: seq<Message>)
    ensures forall m :: m in messages ==> m.Data? && m.size > 0
  {
    if sizes == [] then [] else (if sizes[0] == 0 then [] else [Data(sizes[0])]) + DataOf(sizes[1..])
  }

  // ---------------------------------------------------------------- commands in flight

  function Commands(link: seq<Message>): (c: seq<Message>)
    ensures forall m :: m in c ==> !m.Data?
  {
    if link == [] then []
    else if link[0].Data? then Commands(link[1..])
    else [link[0]] + Commands(link[1..])
  }

  /** The commands take turns, the first one changing a gate that is `open`. */
  predicate Alternate(open: bool, commands: seq<Message>)
    decreases |commands|
  {
    commands == [] || (commands[0] == (if open then SlowDown else GoThrough) && Alternate(!open, commands[1..]))
  }

  /** The gate after all these commands have been obeyed. */
  function GateAfter(open: bool, commands: seq<Message>): bool
    decreases |commands|
  {
    if commands == [] then open else GateAfter(commands[0] == GoThrough, commands[1..])
  }

  lemma {:induction false} CommandsAppend(a: seq<Message>, b: seq<Message>)
    ensures Commands(a + b) == Commands(a) + Commands(b)
  {
    if a == [] {
      assert a + b == b;
    } else {
      CommandsAppend(a[1..], b);
      assert (a + b)[0] == a[0] && (a + b)[1..] == a[1..] + b;
      if !a[0].Data? {
        assert [a[0]] + (Commands(a[1..]) + Commands(b)) == ([a[0]] + Commands(a[1..])) + Commands(b);
      }
    }
  }

  lemma {:induction false} AppendCommand(open: bool, commands: seq<Message>, c: Message)
    requires Alternate(open, commands) && c == (if GateAfter(open, commands) then SlowDown else GoThrough)
    ensures Alternate(open, commands + [c])
    ensures GateAfter(open, commands + [c]) == (c == GoThrough)
    decreases |commands|
  {
    if commands != [] {
      AppendCommand(!open, commands[1..], c);
      assert (commands + [c])[1..] == commands[1..] + [c];
      assert (commands[0] == GoThrough) == !open;
    }
  }

  lemma {:induction false} NoCommands(link: seq<Message>)
    requires forall m :: m in link ==> m.Data?
    ensures Commands(link) == []
  {
    if link != [] { NoCommands(link[1..]); }
  }

  lemma {:induction false} GateAppend(open: bool, a: seq<Message>, b: seq<Message>)
    ensures GateAfter(open, a + b) == GateAfter(GateAfter(open, a), b)
    decreases |a|
  {
    if a == [] {
      assert a + b == b;
    } else {
      GateAppend(a[0] == GoThrough, a[1..], b);
      assert (a + b)[0] == a[0] && (a + b)[1..] == a[1..] + b;
    }
  }

  // ---------------------------------------------------------------- why a pause is on

  function Held(e: End): nat { if e.held.Some? then e.held.value else 0 }

  /** Half the capacity, or nothing. */
  function Bound(e: End, half: bool): nat { if half then e.capacity / 2 else 0 }

  /** A receiver that asked for a pause has more than `Bound` bytes left to read or about to be stored. */
  predicate Founded(e: End, half: bool)
  {
    e.slowDownRequested ==> Sum(e.queue) + Held(e) > Bound(e, half)
  }

  predicate PositiveEnd(e: End)
  {
    e.held.Some? ==> e.held.value > 0
  }

  lemma {:induction false} SumIsNat(q: seq<nat>)
    ensures Sum(q) >= 0
  {
    if q != [] { SumIsNat(q[1..]); }
  }

  lemma SumTail(q: seq<nat>)
    requires q != []
    ensures Sum(q) == q[0] + Sum(q[1..]) && Sum(q[1..]) >= 0
  {
  }

  lemma ReceiveFounded(e: End, m: Message, half: bool)
    requires e.held.None? && Founded(e, half) && (m.Data? ==> m.size > 0) && (half ==> e.capacity * 3 < TWO_32)
    ensures Founded(Receive(e, m).0, half)
  {
    var t := Threshold(e.capacity);
    assert e.capacity * 3 < TWO_32 ==> t == e.capacity * 3 / 4;
  }

  lemma PutFounded(e: End, half: bool)
    requires e.held.Some? && e.notFull && Founded(e, half)
    ensures Founded(Put(e), half)
  {
    SumAppend(e.queue, [e.held.value]);
    assert Sum([e.held.value]) == e.held.value;
  }

  lemma TakeFounded(e: End, half: bool)
    requires e.queue != [] && Founded(e, half)
    ensures Founded(Take(e).0, half)
  {
    SumTail(e.queue);
  }

  /** A pause is asked for exactly when none is on and a packet finds three quarters of the capacity queued. */
  lemma AsksExactly(e: End, m: Message)
    requires e.held.None?
    ensures Receive(e, m).1 == if m.Data? && !e.slowDownRequested && Sum(e.queue) >= Threshold(e.capacity) then [SlowDown] else []
    ensures e.capacity * 3 < TWO_32 ==> (Sum(e.queue) >= Threshold(e.capacity) <==> Sum(e.queue) >= e.capacity - (e.capacity + 3) / 4)
    ensures Receive(e, m).0.slowDownRequested == (e.slowDownRequested || SlowDown in Receive(e, m).1)
  {
  }

  /** The peer is let through exactly when a pause is on and what is left is at most half the capacity. */
  lemma LetsThroughExactly(e: End)
    requires e.queue != []
    ensures Take(e).1 == if e.slowDownRequested && 2 * (Sum(e.queue) - e.queue[0]) <= e.capacity then [GoThrough] else []
    ensures Take(e).0.slowDownRequested == (e.slowDownRequested && GoThrough !in Take(e).1)
  {
    SumTail(e.queue);
  }

  /** The end asks for no pause, or a packet of more than `Bound` bytes waits to be stored. */
  predicate Relaxed(e: End, half: bool)
  {
    !e.slowDownRequested || Held(e) > Bound(e, half)
  }

  /** Emptying the queue leaves a pause without a reason unless enough is held. */
  lemma EmptiedFoundedExactly(e: End, half: bool)
    ensures Founded(Emptied(e), half) <==> Relaxed(e, half)
  {
  }

  // ---------------------------------------------------------------- the channel object

  function Sizes(packets: seq<seq<byte>>): (s: seq<nat>)
    ensures |s| == |packets|
  {
    seq(|packets|, i requires 0 <= i < |packets| => |packets[i]|)
  }

  lemma NothingQueued()
    ensures Sizes([]) == [] && Sum([]) == 0 && DataOf([]) == []
  {
  }

  /** Taking the first packet out of a queue and sending it on behind `sent`. */
  lemma FirstOut(queue: seq<seq<byte>>, sent: seq<Message>)
    requires queue != []
    ensures Sum(Sizes(queue)) == |queue[0]| + Sum(Sizes(queue[1..])) && Sum(Sizes(queue[1..])) >= 0
    ensures sent + DataOf(Sizes(queue)) ==
      (if queue[0] == [] then sent else sent + [Data(|queue[0]|)]) + DataOf(Sizes(queue[1..]))
  {
    assert Sizes(queue)[0] == |queue[0]| && Sizes(queue)[1..] == Sizes(queue[1..]);
    SumTail(Sizes(queue));
    var rest := DataOf(Sizes(queue[1..]));
    assert sent + ([Data(|queue[0]|)] + rest) == (sent + [Data(|queue[0]|)]) + rest && [] + rest == rest;
  }

  /** The flow-control part of a data channel; `sent` collects what it hands to its link. */
  class DataChannel {
    var receivingQueue: seq<seq<byte>>
    var currentSize: nat
    var capacity: nat
    var notFull: bool
    var slowDownRequested: bool
    var goThrough: bool
    var held: Option<seq<byte>>
    var pluggedChannel: DataChannel?
    var sent: seq<Message>

    ghost predicate Valid()
      reads this
    {
      currentSize == Sum(Sizes(receivingQueue))
    }

    ghost function View(): End
      reads this
    {
      End(capacity, Sizes(receivingQueue), notFull, slowDownRequested, goThrough,
          if held.Some? then Some(|held.value|) else None)
    }

    constructor (capacity: nat)
      ensures Valid() && View() == Fresh(capacity) && sent == [] && pluggedChannel == null
    {
      receivingQueue, currentSize, this.capacity := [], 0, capacity;
      notFull, slowDownRequested, goThrough := true, false, true;
      held, sent, pluggedChannel := None, [], null;
    }

    /** The check made before a data packet is stored; a plugged channel passes the packet on instead, if it can. */
    method HandleIncoming(payload: seq<byte>) returns (ok: bool)
      requires Valid() && held.None?
      modifies this, (if pluggedChannel == null then {} else {pluggedChannel})`sent
      ensures Valid() && receivingQueue == old(receivingQueue) && pluggedChannel == old(pluggedChannel)
      ensures ok <==> pluggedChannel == null || payload != []
      ensures pluggedChannel == null ==> held == Some(payload)
      ensures pluggedChannel == null ==>
        (View(), sent) == (Receive(old(View()), Data(|payload|)).0, old(sent) + Receive(old(View()), Data(|payload|)).1)
      ensures pluggedChannel != null ==> View() == old(View())
      ensures pluggedChannel != null ==> pluggedChannel.sent == old(pluggedChannel.sent) + DataOf([|payload|])
      ensures pluggedChannel != null && pluggedChannel != this ==> sent == old(sent)
    {
      if pluggedChannel != null {
        assert DataOf([|payload|]) == if payload == [] then [] else [Data(|payload|)];
        if payload != [] {
          pluggedChannel.sent := pluggedChannel.sent + [Data(|payload|)];
        } else {
          assert pluggedChannel.sent + [] == pluggedChannel.sent;
        }
        return payload != [];
      }
      ok, held := true, Some(payload);
      if !slowDownRequested && currentSize >= (capacity * 3 % TWO_32) / 4 {
        slowDownRequested := true;
        sent := sent + [SlowDown];
      } else {
        assert sent + [] == sent;
      }
    }

    /** The put, once the queue has room. */
    method StoreHeld()
      requires Valid() && held.Some? && notFull
      modifies this
      ensures Valid() && View() == Put(old(View())) && sent == old(sent) && pluggedChannel == old(pluggedChannel)
      ensures receivingQueue == old(receivingQueue) + [old(held).value]
    {
      ghost var before := receivingQueue;
      receivingQueue := receivingQueue + [held.value];
      assert Sizes(receivingQueue) == Sizes(before) + [|held.value|];
      SumAppend(Sizes(before), [|held.value|]);
      assert Sum([|held.value|]) == |held.value|;
      currentSize := currentSize + |held.value|;
      notFull := currentSize < capacity;
      held := None;
    }

    method HandleGateCommand(command: Message)
      requires Valid() && held.None? && !command.Data?
      modifies this`goThrough, (if pluggedChannel == null then {} else {pluggedChannel})`sent
      ensures Valid() && View() == if pluggedChannel == null then Receive(old(View()), command).0 else old(View())
      ensures pluggedChannel != null ==> pluggedChannel.sent == old(pluggedChannel.sent) + [command]
    {
      if pluggedChannel != null {
        pluggedChannel.sent := pluggedChannel.sent + [command];
      } else {
        goThrough := command == GoThrough;
      }
    }

    /** Takes every packet out of the queue, without a look at the pause, and sends it on over `other`. */
    method MoveAll(other: DataChannel)
      requires Valid()
      modifies this`receivingQueue, this`currentSize, this`notFull, other`sent
      ensures Valid() && View() == Emptied(old(View())) && receivingQueue == []
      ensures other.sent == old(other.sent) + DataOf(Sizes(old(receivingQueue)))
      ensures other != this ==> sent == old(sent)
    {
      hide Sizes, Sum, DataOf;
      ghost var before := receivingQueue;
      ghost var moved := 0;
      while receivingQueue != []
        invariant moved <= |before| && receivingQueue == before[moved..] && Valid()
        invariant notFull == (old(notFull) || (moved > 0 && currentSize < capacity))
        invariant other.sent + DataOf(Sizes(receivingQueue)) == old(other.sent) + DataOf(Sizes(before))
        invariant other != this ==> sent == old(sent)
        decreases |receivingQueue|
      {
        var taken := receivingQueue[0];
        FirstOut(receivingQueue, other.sent);
        receivingQueue, currentSize := receivingQueue[1..], currentSize - |taken|;
        moved := moved + 1;
        if currentSize < capacity {
          notFull := true;
        }
        if taken != [] {
          other.sent := other.sent + [Data(|taken|)];
        }
      }
      assert Sizes([]) == [] && Sum([]) == 0 && DataOf([]) == [] by { NothingQueued(); }
      assert other.sent + [] == other.sent;
    }

    /** Joins two channels: both queues are moved over, and each channel is plugged into the other. */
    static method Exchange(incoming: DataChannel, outgoing: DataChannel)
      requires incoming.Valid() && outgoing.Valid()
      modifies incoming, outgoing
      ensures incoming.Valid() && incoming.View() == Emptied(old(incoming.View()))
      ensures outgoing.Valid() && outgoing.View() == Emptied(old(outgoing.View()))
      ensures incoming.pluggedChannel == outgoing && outgoing.pluggedChannel == incoming
      ensures outgoing.sent == old(outgoing.sent) + DataOf(Sizes(old(incoming.receivingQueue)))
      ensures incoming != outgoing ==> incoming.sent == old(incoming.sent) + DataOf(Sizes(old(outgoing.receivingQueue)))
    {
      incoming.MoveAll(outgoing);
      outgoing.MoveAll(incoming);
      if incoming == outgoing {
        assert incoming.sent + [] == incoming.sent;
      }
      incoming.pluggedChannel := outgoing;
      outgoing.pluggedChannel := incoming;
    }

    /**
     Takes the oldest packet; an empty one is returned without looking at the pause.  With nothing
     queued a channel in error returns the empty packet, and a working one waits (None).
     */
    method RecvPacket(inError: bool) returns (packet: Option<seq<byte>>)
      requires Valid()
      modifies this
      ensures Valid() && pluggedChannel == old(pluggedChannel)
      ensures old(receivingQueue) == [] ==>
        packet == (if inError then Some([]) else None) && View() == old(View()) && sent == old(sent)
      ensures old(receivingQueue) != [] ==> packet.Some? && old(receivingQueue) == [packet.value] + receivingQueue
      ensures old(receivingQueue) != [] && packet.value != [] ==>
        View() == Take(old(View())).0 && sent == old(sent) + Take(old(View())).1
      ensures old(receivingQueue) != [] && packet.value == [] ==>
        sent == old(sent) && View() == old(View()).(queue := Sizes(receivingQueue), notFull := notFull)
    {
      if receivingQueue == [] {
        return if inError then Some([]) else None;
      }
      var taken := receivingQueue[0];
      assert Sizes(receivingQueue)[0] == |taken|;
      SumTail(Sizes(receivingQueue));
      assert Sizes(receivingQueue)[1..] == Sizes(receivingQueue[1..]);
      assert currentSize == |taken| + Sum(Sizes(receivingQueue[1..]));
      receivingQueue := receivingQueue[1..];
      currentSize := currentSize - |taken|;
      if currentSize < capacity {
        notFull := true;
      }
      packet := Some(taken);
      if taken == [] {
        return;
      }
      if slowDownRequested && currentSize <= capacity / 2 {
        slowDownRequested := false;
        sent := sent + [GoThrough];
      } else {
        assert sent + [] == sent;
      }
    }
  }
}
