/**
 Addresses of packets sent through nested virtual channels, and the checks that a closing channel
 composes on its way up to pick its own packets out of the socket's sending queue.

 A path lists channel numbers from the socket channel downwards; the empty path is the socket channel.
 */
module ChannelPaths {
  import opened Bytes

  const COMMAND_CHANNEL: nat := 0
  const DATA_CHANNEL: nat := 1
  const DESTROY_CHANNEL_REQUEST: byte := 3

  type Word = n: int | 0 <= n < TWO_32

  /** What the socket channel queues: a channel number and a payload. */
  datatype Routed = Routed(channel: Word, payload: seq<byte>)

  // ---------------------------------------------------------------- sending

  /** `sendPacketRaw` on the channel at `path`: each level puts its number in front and hands it up. */
  function Route(path: seq<Word>, channel: Word, payload: seq<byte>): Routed
    decreases |path|
  {
    if path == [] then Routed(channel, payload)
    else Route(path[..|path| - 1], path[|path| - 1], Be32(channel) + payload)
  }

  /** A command, with the number of a channel or without. */
  datatype Command = Command(code: byte, channel: Option<Word>)

  function Pack(c: Command): seq<byte>
  {
    [c.code] + if c.channel.Some? then Be32(c.channel.value) else []
  }

  function DestroyRequest(channel: Word): seq<byte>
  {
    Pack(Command(DESTROY_CHANNEL_REQUEST, Some(channel)))
  }

  /** Only the layout is looked at; whether a command is known comes later. */
  function UnpackCommand(data: seq<byte>): Option<Command>
  {
    if |data| != 5 && |data| != 1 then None
    else
      var code := data[0];
      var requiresChannelNumber := code == 1 || code == 2 || code == DESTROY_CHANNEL_REQUEST;
      var isShortCommand := code == 5 || code == 4 || code == 6;
      if |data| == 5 then
        if isShortCommand then None else Some(Command(code, Some(ReadBe32(data[1..]))))
      else if requiresChannelNumber then None
      else Some(Command(code, None))
  }

  /** Commands 1 to 3 (make, made, destroy) name a channel, 4 to 6 (slow down, go through, keep alive) do not. */
  predicate WellLaid(c: Command)
  {
    (1 <= c.code <= 3 ==> c.channel.Some?) && (4 <= c.code <= 6 ==> c.channel.None?)
  }

  /** What is unpacked is what was packed, and nothing else is accepted. */
  lemma UnpackExactly(data: seq<byte>, c: Command)
    ensures UnpackCommand(data) == Some(c) <==> WellLaid(c) && data == [c.code] + (if c.channel.Some? then Be32(c.channel.value) else [])
  {
    hide Be32, ReadBe32;
    if c.channel.Some? {
      Be32RoundTrip(c.channel.value, []);
      assert Be32(c.channel.value) + [] == Be32(c.channel.value);
    }
    if |data| == 5 {
      assert data == [data[0]] + data[1..];
      Be32Inverse(data[1..]);
    }
    if |data| == 1 { assert data == [data[0]] + []; }
    if data == Pack(c) { assert data[1..] == if c.channel.Some? then Be32(c.channel.value) else []; }
  }

  /** Closing a channel asks the peer to destroy that channel. */
  lemma DestroyUnpacks(channel: Word)
    ensures UnpackCommand(DestroyRequest(channel)) == Some(Command(3, Some(channel)))
  {
    hide Be32, UnpackCommand;
    UnpackExactly(DestroyRequest(channel), Command(3, Some(channel)));
  }

  /** Leading 32-bit words. */
  function Words(ns: seq<Word>): seq<byte>
  {
    if ns == [] then [] else Be32(ns[0]) + Words(ns[1..])
  }

  lemma {:induction false} WordsAppend(a: seq<Word>, b: seq<Word>)
    ensures Words(a + b) == Words(a) + Words(b)
  {
    hide Be32;
    if a == [] {
      assert a + b == b;
    } else {
      WordsAppend(a[1..], b);
      assert (a + b)[1..] == a[1..] + b;
    }
  }

  /** On the wire the whole path stands in front of the payload. */
  lemma {:induction false} RouteIsPath(path: seq<Word>, channel: Word, payload: seq<byte>)
    ensures var all := path + [channel];
      Route(path, channel, payload) == Routed(all[0], Words(all[1..]) + payload)
    decreases |path|
  {
    hide Be32;
    if path != [] {
      var up, last := path[..|path| - 1], path[|path| - 1];
      RouteIsPath(up, last, Be32(channel) + payload);
      var all := path + [channel];
      assert path == up + [last];
      assert all[1..] == path[1..] + [channel];
      assert all[0] == path[0];
      WordsAppend(path[1..], [channel]);
      assert Words([channel]) == Be32(channel);
    } else {
      assert Words([]) + payload == payload;
    }
  }

  // ---------------------------------------------------------------- picking out the packets of a closed channel

  type Check = seq<byte> -> bool

  function Always(): Check { _ => true }

  /** The check a virtual channel makes for its own sub-channel. */
  function IsFor(sub: Word): Check
  {
    (payload: seq<byte>) => |payload| >= 4 && ReadBe32(payload) == sub
  }

  /** The check it passes on for a sub-channel's check. */
  function Within(sub: Word, check: Check): Check
  {
    (payload: seq<byte>) => |payload| >= 4 && ReadBe32(payload) == sub && check(payload[4..])
  }

  /** `cleanSendingPacket` climbing from the channel at `path`: what reaches the socket channel. */
  function Climb(path: seq<Word>, sub: Word, check: Check): (Word, Check)
    decreases |path|
  {
    if path == [] then (sub, check) else Climb(path[..|path| - 1], path[|path| - 1], Within(sub, check))
  }

  /** `cleanChannel` of the parent of the channel at `path`. */
  function CleanRequest(path: seq<Word>): (Word, Check)
    requires path != []
  {
    var up, last := path[..|path| - 1], path[|path| - 1];
    if up == [] then (last, Always()) else Climb(up[..|up| - 1], up[|up| - 1], IsFor(last))
  }

  predicate Picks(request: (Word, Check), p: Routed)
  {
    p.channel == request.0 && request.1(p.payload)
  }

  /** The packet's path extends `path`. */
  predicate Under(path: seq<Word>, p: Routed)
    requires path != []
  {
    p.channel == path[0] && StartsWith(path[1..], p.payload)
  }

  predicate StartsWith(words: seq<Word>, payload: seq<byte>)
  {
    words == [] || (|payload| >= 4 && ReadBe32(payload) == words[0] && StartsWith(words[1..], payload[4..]))
  }

  lemma {:induction false} StartsWithAppend(a: seq<Word>, sub: Word, payload: seq<byte>)
    ensures StartsWith(a + [sub], payload) <==>
      StartsWith(a, payload) && 4 * |a| <= |payload| && IsFor(sub)(payload[4 * |a|..])
  {
    if a == [] {
      assert a + [sub] == [sub] && payload[0..] == payload;
      assert [sub][1..] == [];
    } else {
      assert (a + [sub])[1..] == a[1..] + [sub] && (a + [sub])[0] == a[0];
      if |payload| >= 4 {
        StartsWithAppend(a[1..], sub, payload[4..]);
        if 4 * |a| <= |payload| { assert payload[4..][4 * |a[1..]|..] == payload[4 * |a|..]; }
      }
    }
  }

  lemma {:induction false} ClimbIsPath(path: seq<Word>, sub: Word, check: Check, p: Routed)
    ensures Picks(Climb(path, sub, check), p) <==>
      var all := path + [sub];
      Under(all, p) && 4 * |path| <= |p.payload| && check(p.payload[4 * |path|..])
    decreases |path|
  {
    if path == [] {
      assert p.payload[0..] == p.payload;
      assert ([] + [sub])[1..] == [];
    } else {
      var up, last := path[..|path| - 1], path[|path| - 1];
      assert path == up + [last];
      ClimbIsPath(up, last, Within(sub, check), p);
      var all := path + [sub];
      assert all[0] == path[0] && all[1..] == path[1..] + [sub];
      StartsWithAppend(path[1..], sub, p.payload);
      var n := 4 * |up|;
      if n <= |p.payload| && 4 <= |p.payload[n..]| {
        assert p.payload[n..][4..] == p.payload[4 * |path|..];
      }
    }
  }

  /** The composed checks pick exactly the packets whose path extends the closed channel's. */
  lemma CleanRequestIsPath(path: seq<Word>, p: Routed)
    requires path != []
    ensures Picks(CleanRequest(path), p) <==> Under(path, p)
  {
    hide ReadBe32;
    var up, last := path[..|path| - 1], path[|path| - 1];
    assert path == up + [last];
    if up == [] {
      assert path[1..] == [];
    } else {
      var upper, n := up[..|up| - 1], up[|up| - 1];
      assert up == upper + [n];
      ClimbIsPath(upper, n, IsFor(last), p);
      assert path[1..] == up[1..] + [last] && path[0] == up[0];
      StartsWithAppend(up[1..], last, p.payload);
    }
  }

  // ---------------------------------------------------------------- whose packets those are

  lemma {:induction false} StartsWithWords(words: seq<Word>, ns: seq<Word>, payload: seq<byte>)
    requires |words| <= |ns|
    ensures StartsWith(words, Words(ns) + payload) <==> words <= ns
  {
    hide Be32, ReadBe32;
    if words != [] {
      var rest := Words(ns[1..]) + payload;
      assert Words(ns) + payload == Be32(ns[0]) + rest;
      Be32RoundTrip(ns[0], rest);
      StartsWithWords(words[1..], ns[1..], payload);
      assert words <= ns <==> words[0] == ns[0] && words[1..] <= ns[1..] by { PrefixSplit(words, ns); }
    }
  }

  lemma PrefixSplit(a: seq<Word>, b: seq<Word>)
    requires a != [] && b != []
    ensures a <= b <==> a[0] == b[0] && a[1..] <= b[1..]
  {
    if a[0] == b[0] && a[1..] <= b[1..] {
      assert a == [a[0]] + a[1..] && b == [b[0]] + b[1..];
    }
  }

  lemma {:induction false} StartsWithLonger(words: seq<Word>, ns: seq<Word>, payload: seq<byte>)
    requires |words| > |ns|
    ensures StartsWith(words, Words(ns) + payload) ==> ns <= words
  {
    hide Be32, ReadBe32;
    if ns != [] {
      var rest := Words(ns[1..]) + payload;
      assert Words(ns) + payload == Be32(ns[0]) + rest;
      Be32RoundTrip(ns[0], rest);
      StartsWithLonger(words[1..], ns[1..], payload);
      PrefixSplit(ns, words);
    }
  }

  /** A channel whose path avoids the two reserved numbers. */
  predicate Ordinary(path: seq<Word>)
  {
    forall i :: 0 <= i < |path| ==> path[i] != COMMAND_CHANNEL && path[i] != DATA_CHANNEL
  }

  /**
   Closing the channel at `path` picks a packet of the channel at `owner`, be it data or a command,
   exactly when `owner` is that channel or lies below it.
   */
  lemma PicksOwnedPackets(path: seq<Word>, owner: seq<Word>, reserved: Word, payload: seq<byte>)
    requires path != [] && Ordinary(path) && (reserved == COMMAND_CHANNEL || reserved == DATA_CHANNEL)
    ensures Picks(CleanRequest(path), Route(owner, reserved, payload)) <==> path <= owner
  {
    hide Picks, CleanRequest, Route, Words, StartsWith;
    var all := owner + [reserved];
    RouteIsPath(owner, reserved, payload);
    CleanRequestIsPath(path, Route(owner, reserved, payload));
    var words, ns := path[1..], all[1..];
    if |words| <= |ns| {
      StartsWithWords(words, ns, payload);
    } else {
      StartsWithLonger(words, ns, payload);
      assert ns <= words ==> all <= path || path[0] != all[0] by { PrefixSplit(all, path); }
    }
    PrefixSplit(path, all);
    OrdinaryPrefix(path, owner, reserved);
  }

  lemma OrdinaryPrefix(path: seq<Word>, owner: seq<Word>, reserved: Word)
    requires forall i :: 0 <= i < |path| ==> path[i] != reserved
    ensures !(owner + [reserved] <= path)
    ensures path <= owner + [reserved] <==> path <= owner
  {
    var all := owner + [reserved];
    assert all[|owner|] == reserved;
    assert forall i :: 0 <= i < |owner| ==> all[i] == owner[i];
  }

  /** The DESTROY request of the closing channel survives exactly when the number is not the command channel's. */
  lemma DestroyKeptExactly(path: seq<Word>)
    requires path != []
    ensures var up, last := path[..|path| - 1], path[|path| - 1];
      Picks(CleanRequest(path), Route(up, COMMAND_CHANNEL, DestroyRequest(last))) <==> last == COMMAND_CHANNEL
  {
    hide Picks, CleanRequest, Route, Words, StartsWith, DestroyRequest;
    var up, last := path[..|path| - 1], path[|path| - 1];
    var all, payload := up + [COMMAND_CHANNEL], DestroyRequest(last);
    RouteIsPath(up, COMMAND_CHANNEL, payload);
    CleanRequestIsPath(path, Route(up, COMMAND_CHANNEL, payload));
    StartsWithWords(path[1..], all[1..], payload);
    PrefixSplit(path, all);
    assert path == up + [last];
    assert path <= all <==> last == COMMAND_CHANNEL by {
      if path <= all { assert path[|up|] == all[|up|]; }
    }
  }

  /** A channel numbered like the data channel takes its parent's data packets with it when it closes. */
  lemma ReservedNumberTakesParentData(owner: seq<Word>, payload: seq<byte>)
    ensures Picks(CleanRequest(owner + [DATA_CHANNEL]), Route(owner, DATA_CHANNEL, payload))
    ensures !(owner + [DATA_CHANNEL] <= owner)
  {
    hide Picks, CleanRequest, Route, Words, StartsWith;
    var all := owner + [DATA_CHANNEL];
    RouteIsPath(owner, DATA_CHANNEL, payload);
    CleanRequestIsPath(all, Route(owner, DATA_CHANNEL, payload));
    StartsWithWords(all[1..], all[1..], payload);
  }

  predicate IsReserved(n: Word) { n == COMMAND_CHANNEL || n == DATA_CHANNEL }

  /** Closing the channel at `path` picks the packets of that channel and of those below it, and no others. */
  ghost predicate PicksExactlyOwned(path: seq<Word>)
    requires path != []
  {
    forall owner, reserved: Word, payload | IsReserved(reserved) ::
      Picks(CleanRequest(path), Route(owner, reserved, payload)) <==> path <= owner
  }

  /** A reserved number anywhere on the path makes a packet of the channel above it look like one of its own. */
  lemma ReservedNumberMisleads(path: seq<Word>, i: nat)
    requires i < |path| && IsReserved(path[i])
    ensures Picks(CleanRequest(path), Route(path[..i], path[i], Words(path[i + 1..]))) && !(path <= path[..i])
  {
    hide Picks, CleanRequest, Route, StartsWith, Words;
    var owner, payload := path[..i], Words(path[i + 1..]);
    var all := owner + [path[i]];
    RouteIsPath(owner, path[i], payload);
    CleanRequestIsPath(path, Route(owner, path[i], payload));
    assert all == path[..i + 1] && all[0] == path[0];
    assert path[1..] == all[1..] + path[i + 1..];
    WordsAppend(all[1..], path[i + 1..]);
    StartsWithWords(path[1..], path[1..], []);
    assert Words(path[1..]) + [] == Words(all[1..]) + payload;
  }

  /** That is so exactly when no number on the path is reserved. */
  lemma PicksOwnedExactly(path: seq<Word>)
    requires path != []
    ensures PicksExactlyOwned(path) <==> Ordinary(path)
  {
    hide Picks, CleanRequest, Route, Words;
    if Ordinary(path) {
      forall owner, reserved: Word, payload | IsReserved(reserved)
        ensures Picks(CleanRequest(path), Route(owner, reserved, payload)) <==> path <= owner
      {
        PicksOwnedPackets(path, owner, reserved, payload);
      }
    } else {
      var i :| 0 <= i < |path| && IsReserved(path[i]);
      ReservedNumberMisleads(path, i);
    }
  }
}
