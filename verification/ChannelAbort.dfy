/** The channel objects: aborting them, and making, offering, claiming and destroying them, as steps on their graph. */
module ChannelAbort {
  import opened Bytes
  import opened ChannelGraph
  import opened ChannelSpread
  import opened ChannelRuns

  ghost function Snap(u: set<Channel>): Graph<Channel>
    reads u
  {
    map c | c in u :: c.Look()
  }

  class Channel {
    const socket: bool
    const number: nat
    const positive: bool
    var next: nat
    var maxPending: nat
    var error: int
    var parent: Option<Channel>
    var plugged: Option<Channel>
    var subChannels: map<nat, Option<Channel>>
    var pendingChannels: seq<Option<Channel>>
    /** How many callers wait in takeChannel. */
    var getting: nat
    var receivingClosed: bool
    var goThrough: bool

    ghost function Look(): View<Channel>
      reads this
    {
      View(socket, number, positive, next, maxPending, error, parent, plugged, subChannels, pendingChannels, getting,
           receivingClosed, goThrough)
    }

    constructor (socket: bool, number: nat, positive: bool, maxPending: nat, parent: Option<Channel>)
      ensures Look() == NewView(socket, number, positive, maxPending, parent)
    {
      this.socket, this.number, this.positive, this.maxPending, this.parent := socket, number, positive, maxPending, parent;
      next, error, plugged, subChannels, pendingChannels := First(positive), NO_ERROR, None, map[], [];
      getting, receivingClosed, goThrough := 0, false, true;
    }

    // -------------------------------------------------------------- aborting

    /** Strikes a sub-channel off. */
    method CleanChannel(number: nat, ghost u: set<Channel>)
      requires this in u
      modifies this`subChannels
      ensures Snap(u) == StruckOff(old(Snap(u)), this, number)
    {
      subChannels := subChannels - {number};
    }

    /** Puts this channel and everything attached to it into error.  `u` holds all channels. */
    method Abort(reason: int, ghost u: set<Channel>)
      requires this in u && reason != NO_ERROR && Closed(Snap(u))
      modifies u
      ensures Snap(u) == AbortOf(old(Snap(u)), this, reason)
      ensures error != NO_ERROR && (old(error) == NO_ERROR ==> error == reason) && (old(error) != NO_ERROR ==> unchanged(u))
      decreases Live(Snap(u)), 0
    {
      hide Closed, Aged, Release, Began;
      if error != NO_ERROR {
        return;
      }
      ghost var g := Snap(u);
      FailAndDetach(reason, u);
      BeganAges(g, this, reason);
      BeganLess(g, Snap(u), this);
      SameChannels(g, Snap(u), {});
      ReleaseAll(reason, u);
    }

    method Fail(reason: int, ghost u: set<Channel>)
      requires this in u
      modifies this`error
      ensures Snap(u) == Failed(old(Snap(u)), this, reason)
    {
      error := reason;
    }

    /** Enters the error state; a virtual channel is struck off by its parent. */
    method FailAndDetach(reason: int, ghost u: set<Channel>)
      requires this in u && Closed(Snap(u))
      modifies u
      ensures Snap(u) == Began(old(Snap(u)), this, reason)
    {
      hide Closed, Snap;
      Seen(this, u);
      InSnap(u);
      ParentIn(Snap(u), this);
      Fail(reason, u);
      if !socket && parent.Some? {
        parent.value.CleanChannel(number, u);
      }
    }

    /** Receivers, takers and gated senders are released. */
    method Unblock(ghost u: set<Channel>)
      requires this in u
      modifies this`receivingClosed, this`pendingChannels, this`goThrough
      ensures Snap(u) == old(Snap(u))[this := Unblocked(old(Look()))]
    {
      receivingClosed := true;
      pendingChannels := pendingChannels + seq(getting, _ => None);
      goThrough := true;
    }

    method Unplug(ghost u: set<Channel>)
      requires this in u
      modifies this`plugged
      ensures Snap(u) == old(Snap(u))[this := old(Look()).(plugged := None)]
    {
      plugged := None;
    }

    method ForgetSubs(ghost u: set<Channel>)
      requires this in u && Closed(Snap(u))
      modifies this`subChannels
      ensures Snap(u) == ForgotSubs(old(Snap(u)), this)
    {
      hide Closed;
      subChannels := map[];
    }

    /** Drops the unclaimed channels; the wake-up entries stay. */
    method ForgetPending(ghost u: set<Channel>)
      requires this in u && Closed(Snap(u))
      modifies this`pendingChannels
      ensures Snap(u) == ForgotPending(old(Snap(u)), this)
    {
      hide Closed, OnlyNone;
      pendingChannels := OnlyNone(pendingChannels);
    }

    method Detach(ghost u: set<Channel>)
      requires this in u
      modifies this`parent
      ensures Snap(u) == Detached(old(Snap(u)), this)
    {
      parent := None;
    }

    /** The part of an abort common to all channels. */
    method ReleaseAll(reason: int, ghost u: set<Channel>)
      requires this in u && reason != NO_ERROR && error != NO_ERROR && Closed(Snap(u))
      modifies u
      ensures Snap(u) == Release(old(Snap(u)), this, reason) && error == old(error)
      decreases Live(Snap(u)), 3
    {
      hide Closed, Aged, AbortPlugged, ChannelGraph.VisitSubs, ChannelGraph.VisitPending, ForgotSubs, ForgotPending, Unblocked,
           Snap, Look;
      ghost var g := Snap(u);
      Seen(this, u);
      ReleasePlugged(reason, u);
      ghost var g1 := Snap(u);
      SameChannels(g, g1, {this});
      Seen(this, u);
      Unblock(u);
      ghost var g2 := Snap(u);
      UnblockedAges(g1, this);
      ThenOpen(g, g1, g2, this);
      SameChannels(g, g2, {this});
      VisitSubs(u);
      ghost var g3 := Snap(u);
      ThenNested(g, g2, g3, this);
      SameChannels(g, g3, {this});
      ForgetSubs(u);
      ghost var g4 := Snap(u);
      ThenOpen(g, g3, g4, this);
      SameChannels(g, g4, {this});
      VisitPending(u);
      ghost var g5 := Snap(u);
      SameChannels(g4, g5, {});
      ForgetPending(u);
    }

    /** The plugged channel is aborted and unplugged. */
    method ReleasePlugged(reason: int, ghost u: set<Channel>)
      requires this in u && reason != NO_ERROR && error != NO_ERROR && Closed(Snap(u))
      modifies u
      ensures Snap(u) == AbortPlugged(old(Snap(u)), this, reason) && error == old(error)
      decreases Live(Snap(u)), 1
    {
      hide Closed, AbortOf, Aged, Snap;
      Seen(this, u);
      ghost var g := Snap(u);
      PlugInside(g, this);
      InSnap(u);
      if plugged.Some? {
        plugged.value.Abort(reason, u);
        Seen(this, u);
        ErrorStays(g, Snap(u), this);
        Unplug(u);
      }
    }

    /** Cuts an attached channel loose and aborts it with this channel's error. */
    method AbortAttached(n: Channel, ghost u: set<Channel>)
      requires this in u && n in u && error != NO_ERROR && Closed(Snap(u))
      modifies u
      ensures Snap(u) == ChannelGraph.AbortAttached(old(Snap(u)), n, old(error)) && error == old(error)
      decreases Live(Snap(u)), 1, 0
    {
      hide Closed, AbortOf, Aged, Snap, Detached;
      Seen(this, u);
      InSnap(u);
      ghost var g := Snap(u);
      DetachedCloses(g, n);
      n.Detach(u);
      n.Abort(error, u);
      assert Snap(u) == ChannelGraph.AbortAttached(g, n, g[this].error);
      Seen(this, u);
      ErrorStays(g, Snap(u), this);
    }

    method VisitOne(n: Option<Channel>, ghost u: set<Channel>)
      requires this in u && error != NO_ERROR && Closed(Snap(u)) && Inside(n, Snap(u))
      modifies u
      ensures Snap(u) == ChannelGraph.VisitOne(old(Snap(u)), this, n) && error == old(error)
      decreases Live(Snap(u)), 1, 1
    {
      hide Closed, Aged, Snap, ChannelGraph.AbortAttached;
      Seen(this, u);
      InSnap(u);
      if n.Some? {
        AbortAttached(n.value, u);
      }
    }

    /** Visits the sub-channels in the order of their numbers; some may be struck off while this goes on. */
    method VisitSubs(ghost u: set<Channel>)
      requires this in u && error != NO_ERROR && Closed(Snap(u))
      modifies u
      ensures Snap(u) == ChannelGraph.VisitSubs(old(Snap(u)), this, 0) && error == old(error)
      decreases Live(Snap(u)), 2
    {
      hide Closed, Aged, ChannelGraph.VisitOne, NextKey, Snap;
      ghost var g := Snap(u);
      var from: nat := 0;
      AgedSame(g, {});
      Seen(this, u);
      while exists k :: k in subChannels && from <= k
        invariant Closed(Snap(u)) && Aged(g, Snap(u), {}) && error == old(error)
        invariant Seeing(this, u)
        invariant ChannelGraph.VisitSubs(g, this, 0) == ChannelGraph.VisitSubs(Snap(u), this, from)
        decreases KeysFrom(subChannels.Keys, from)
      {
        SomeKey(subChannels.Keys, from);
        var k :| k in subChannels && from <= k && forall j :: j in subChannels && from <= j ==> k <= j;
        ghost var h := Snap(u);
        KeyIs(subChannels.Keys, from, k);
        EntryInside(h, this, k);
        AgedLive(g, h, {});
        VisitOne(subChannels[k], u);
        Seen(this, u);
        AgedTwice(g, h, Snap(u), {});
        SameChannels(h, Snap(u), {});
        SubsShrink(h, Snap(u), this);
        KeysFromShrinks(h[this].subs.Keys, subChannels.Keys, from, k);
        from := k + 1;
      }
      NoKey(subChannels.Keys, from);
    }

    /** Visits the channels nobody has claimed. */
    method VisitPending(ghost u: set<Channel>)
      requires this in u && error != NO_ERROR && Closed(Snap(u))
      modifies u
      ensures Snap(u) == ChannelGraph.VisitPending(old(Snap(u)), this, 0) && error == old(error)
      decreases Live(Snap(u)), 2
    {
      hide Closed, Aged, ChannelGraph.VisitOne, Snap;
      ghost var g := Snap(u);
      var i := 0;
      AgedSame(g, {});
      Seen(this, u);
      while i < |pendingChannels|
        invariant 0 <= i <= |pendingChannels| == |old(pendingChannels)|
        invariant Closed(Snap(u)) && Aged(g, Snap(u), {}) && error == old(error)
        invariant Seeing(this, u)
        invariant ChannelGraph.VisitPending(g, this, 0) == ChannelGraph.VisitPending(Snap(u), this, i)
      {
        ghost var h := Snap(u);
        WaitingInside(h, this, i);
        AgedLive(g, h, {});
        VisitOne(pendingChannels[i], u);
        Seen(this, u);
        AgedTwice(g, h, Snap(u), {});
        SameChannels(h, Snap(u), {});
        HoldStays(h, Snap(u), this);
        i := i + 1;
      }
    }

    // -------------------------------------------------------------- making and claiming

    /** Whether this channel, or what it hangs on, no longer works. */
    predicate Broken(connected: bool)
      reads this
    {
      error != NO_ERROR || !connected || (!socket && parent.None?)
    }

    method MakeChannelInternal(number: nat, positive: bool, ghost u: set<Channel>) returns (c: Channel)
      requires this in u
      modifies this`subChannels
      ensures fresh(c) && Snap(u + {c}) == Made(old(Snap(u)), this, c, number, positive)
    {
      c := new Channel(false, number, positive, maxPending, Some(this));
      subChannels := subChannels[number := Some(c)];
    }

    /** A new channel under the next number, which nothing is looked up for. */
    method MakeChannel(connected: bool, ghost u: set<Channel>) returns (c: Option<Channel>)
      requires this in u && next < TWO_32
      modifies this`subChannels, this`next
      ensures c.None? <==> old(error) != NO_ERROR || !connected || (!socket && old(parent).None?)
      ensures c.None? ==> Snap(u) == old(Snap(u))
      ensures c.Some? ==> fresh(c.value) && Snap(u + {c.value}) == MakeStep(old(Snap(u)), this, c.value)
      ensures next < TWO_32
    {
      if Broken(connected) {
        return None;
      }
      var n := next;
      next := NextNumber(next, positive);
      assert Snap(u) == old(Snap(u))[this := old(Look()).(next := next)];
      var made := MakeChannelInternal(n, true, u);
      return Some(made);
    }

    method Enqueue(c: Channel, ghost u: set<Channel>)
      requires this in u
      modifies this`pendingChannels
      ensures Snap(u) == Queued(old(Snap(u)), this, c)
    {
      pendingChannels := pendingChannels + [Some(c)];
    }

    method PopPending(ghost u: set<Channel>) returns (c: Option<Channel>)
      requires this in u && pendingChannels != []
      modifies this`pendingChannels
      ensures Snap(u) == Popped(old(Snap(u)), this) && c == old(pendingChannels)[0]
    {
      c := pendingChannels[0];
      pendingChannels := pendingChannels[1..];
      assert Snap(u) == old(Snap(u))[this := old(Look()).(pending := pendingChannels)];
    }

    /** Puts an offered channel into the queue and drops the oldest ones above the limit. */
    method EnqueuePendingChannel(c: Channel, ghost u: set<Channel>)
      requires this in u && Closed(Queued(Snap(u), this, c))
      modifies u
      ensures Snap(u) == Trimmed(Queued(old(Snap(u)), this, c), this)
    {
      hide Closed, Dropped, Snap, Queued;
      Seen(this, u);
      ghost var one := Queued(Snap(u), this, c);
      Enqueue(c, u);
      Seen(this, u);
      while maxPending != 0 && |pendingChannels| > maxPending
        invariant Closed(Snap(u)) && Seeing(this, u) && Trimmed(one, this) == Trimmed(Snap(u), this)
        decreases Live(Snap(u)), |pendingChannels|
      {
        DropOldest(u);
        Seen(this, u);
      }
    }

    method DropOldest(ghost u: set<Channel>)
      requires this in u && Closed(Snap(u)) && pendingChannels != []
      modifies u
      ensures Snap(u) == Dropped(old(Snap(u)), this)
    {
      hide Closed, AbortOf, Snap;
      Seen(this, u);
      ghost var g := Snap(u);
      PoppedCloses(g, this);
      var dropped := PopPending(u);
      InSnap(u);
      if dropped.Some? {
        dropped.value.Abort(PENDING_LIMIT, u);
      }
    }

    /** The peer's request for a channel; refused if the number is registered. */
    method HandleMake(number: nat, ghost u: set<Channel>) returns (c: Option<Channel>)
      requires this in u && Closed(Snap(u))
      modifies u
      ensures c.None? <==> old(number in subChannels)
      ensures c.None? ==> unchanged(u)
      ensures c.Some? ==>
        fresh(c.value) && var h := Offered(old(Snap(u)), this, c.value, number);
        Closed(h) && this in h && Snap(u + {c.value}) == Trimmed(h, this)
    {
      hide Trimmed, Closed, Snap;
      if number in subChannels {
        return None;
      }
      ghost var g := Snap(u);
      InSnap(u);
      var made := MakeChannelInternal(number, false, u);
      OfferedCloses<Channel>(g, this, made, number);
      InSnap(u + {made});
      EnqueuePendingChannel(made, u + {made});
      return Some(made);
    }

    /** The place of the first unclaimed channel with the number. */
    method PeekChannel(number: nat, ghost u: set<Channel>) returns (i: nat)
      requires this in u && Closed(Snap(u))
      ensures i <= |pendingChannels| && (i < |pendingChannels| ==> pendingChannels[i].Some?)
      ensures PeekIn(Snap(u), pendingChannels, number) == if i == |pendingChannels| then None else pendingChannels[i]
      ensures TakenFrom(Snap(u), pendingChannels, number)
           == if i == |pendingChannels| then pendingChannels else pendingChannels[..i] + pendingChannels[i + 1..]
    {
      hide Closed, PeekIn, TakenFrom, Named;
      i := 0;
      ghost var g, all := Snap(u), pendingChannels;
      while i < |pendingChannels|
        invariant 0 <= i <= |all| && forall j :: 0 <= j < i ==> !Named(g, all[j], number)
      {
        var n := pendingChannels[i];
        WaitingInside(g, this, i);
        IsNamed(n, number, u);
        if n.Some? && n.value.number == number {
          FoundAt(g, all, number, i);
          return;
        }
        i := i + 1;
      }
      NotFound(g, all, number);
    }

    /** The oldest unclaimed channel, or a wake-up entry; the caller waits while there is none. */
    method TakeChannel(connected: bool, ghost u: set<Channel>) returns (c: Option<Channel>)
      requires this in u && (Broken(connected) || pendingChannels != [])
      modifies this`pendingChannels
      ensures old(Broken(connected)) ==> c == None && Snap(u) == old(Snap(u))
      ensures !old(Broken(connected)) ==> c == old(pendingChannels)[0] && Snap(u) == Popped(old(Snap(u)), this)
    {
      if Broken(connected) {
        return None;
      }
      c := pendingChannels[0];
      pendingChannels := pendingChannels[1..];
    }

    method TakeNumber(number: nat, connected: bool, ghost u: set<Channel>) returns (c: Option<Channel>)
      requires this in u && Closed(Snap(u))
      modifies this`pendingChannels
      ensures old(Broken(connected)) ==> c == None && Snap(u) == old(Snap(u))
      ensures !old(Broken(connected)) ==>
        && c == PeekIn(old(Snap(u)), old(pendingChannels), number)
        && Snap(u) == old(Snap(u))[this := old(Look()).(pending := TakenFrom(old(Snap(u)), old(pendingChannels), number))]
    {
      if Broken(connected) {
        return None;
      }
      var i := PeekChannel(number, u);
      if i == |pendingChannels| {
        return None;
      }
      c := pendingChannels[i];
      pendingChannels := pendingChannels[..i] + pendingChannels[i + 1..];
    }

    /** The peer's request to destroy a number: an unclaimed channel goes first, whatever is registered. */
    method HandleDestroy(number: nat, ghost u: set<Channel>)
      requires this in u && Closed(Snap(u))
      modifies u
      ensures Snap(u) == DestroyStep(old(Snap(u)), this, number)
    {
      hide PeekIn, TakenFrom, AbortOf, Closed, Snap, Detached;
      ghost var g := Snap(u);
      Seen(this, u);
      InSnap(u);
      TargetInside(g, this, number);
      var strong := Unregister(number, u);
      if strong.Some? {
        DetachedCloses(Snap(u), strong.value);
        strong.value.Detach(u);
        strong.value.Abort(REMOTE_PEER_CLOSED, u);
      }
    }

    method Unregister(number: nat, ghost u: set<Channel>) returns (strong: Option<Channel>)
      requires this in u && Closed(Snap(u))
      modifies this`subChannels
      ensures Snap(u) == StruckOff(old(Snap(u)), this, number) && strong == DestroyTarget(old(Snap(u)), this, number)
    {
      hide PeekIn, TakenFrom, Closed;
      strong := None;
      var i := PeekChannel(number, u);
      if i < |pendingChannels| {
        strong := pendingChannels[i];
      }
      if number in subChannels {
        var registered := subChannels[number];
        CleanChannel(number, u);
        if strong.None? {
          strong := registered;
        }
      } else {
        assert subChannels - {number} == subChannels;
        assert Snap(u) == StruckOff(Snap(u), this, number);
      }
    }
  }

  lemma Seen(c: Channel, u: set<Channel>)
    requires c in u
    ensures Seeing(c, u)
  {
  }

  ghost predicate Seeing(c: Channel, u: set<Channel>)
    reads u, c
  {
    c in Snap(u) && Snap(u)[c] == c.Look()
  }

  lemma InSnap(u: set<Channel>)
    ensures Snap(u).Keys == u
  {
  }

  lemma ParentIn(g: Graph<Channel>, c: Channel)
    requires Closed(g) && c in g
    ensures Inside(g[c].parent, g)
  {
    assert RefsInside(g[c], g);
  }

  lemma PlugInside(g: Graph<Channel>, c: Channel)
    requires Closed(g) && c in g
    ensures Inside(g[c].plugged, g)
  {
    assert RefsInside(g[c], g);
  }

  lemma IsNamed(n: Option<Channel>, number: nat, u: set<Channel>)
    requires Inside(n, Snap(u))
    ensures Named(Snap(u), n, number) <==> n.Some? && n.value.number == number
  {
  }

  lemma {:induction false} FoundAt(g: Graph<Channel>, all: seq<Option<Channel>>, number: nat, i: nat)
    requires i < |all| && Named(g, all[i], number) && forall j :: 0 <= j < i ==> !Named(g, all[j], number)
    ensures PeekIn(g, all, number) == all[i] && TakenFrom(g, all, number) == all[..i] + all[i + 1..]
  {
    hide Named;
    if i > 0 {
      FoundAt(g, all[1..], number, i - 1);
      assert all[..i] + all[i + 1..] == [all[0]] + (all[1..][..i - 1] + all[1..][i..]);
    }
  }

  lemma {:induction false} NotFound(g: Graph<Channel>, all: seq<Option<Channel>>, number: nat)
    requires forall j :: 0 <= j < |all| ==> !Named(g, all[j], number)
    ensures PeekIn(g, all, number) == None && TakenFrom(g, all, number) == all
  {
    hide Named;
    if all != [] { NotFound(g, all[1..], number); }
  }

  lemma ErrorStays(g: Graph<Channel>, h: Graph<Channel>, c: Channel)
    requires Aged(g, h, {}) && c in g && g[c].error != NO_ERROR
    ensures c in h && h[c].error == g[c].error
  {
    assert AgedView(g[c], h[c]);
  }

  lemma SubsShrink(g: Graph<Channel>, h: Graph<Channel>, c: Channel)
    requires Aged(g, h, {}) && c in g && g[c].error != NO_ERROR
    ensures c in h && h[c].subs.Keys <= g[c].subs.Keys && h[c].error == g[c].error
  {
    assert AgedView(g[c], h[c]);
  }

  lemma HoldStays(g: Graph<Channel>, h: Graph<Channel>, c: Channel)
    requires Aged(g, h, {}) && c in g && g[c].error != NO_ERROR
    ensures c in h && h[c].pending == g[c].pending && h[c].error == g[c].error
  {
    assert AgedView(g[c], h[c]);
  }

  lemma SomeKey(keys: set<nat>, from: nat)
    requires exists k :: k in keys && from <= k
    ensures exists k :: k in keys && from <= k && forall j :: j in keys && from <= j ==> k <= j
  {
    var rest := KeysFrom(keys, from);
    var some :| some in keys && from <= some;
    assert some in rest;
    var k := Least(rest);
    assert k in keys && from <= k;
    forall j | j in keys && from <= j ensures k <= j { assert j in rest; }
  }

  lemma KeyIs(keys: set<nat>, from: nat, k: nat)
    requires k in keys && from <= k && forall j :: j in keys && from <= j ==> k <= j
    ensures NextKey(keys, from) == Some(k)
  {
  }

  lemma NoKey(keys: set<nat>, from: nat)
    requires !exists k :: k in keys && from <= k
    ensures NextKey(keys, from) == None
  {
  }
}
