/**
 Channels being made, offered by the peer, claimed, joined, destroyed and aborted, in any order: when does a
 parent keep every working channel under its number, so that aborting the parent reaches it?
 */
module ChannelRuns {
  import opened Bytes
  import opened ChannelGraph
  import opened ChannelSpread

  const FIRST_POSITIVE: nat := 2
  const FIRST_NEGATIVE: nat := 0xffff_ffff
  const REMOTE_PEER_CLOSED: int := 1
  const PENDING_LIMIT: int := 10

  datatype Action<T> =
    | Connect(c: T, positive: bool)
    | Make(p: T, c: T)
    | PeerMake(p: T, c: T, number: nat)
    | PeerDestroy(p: T, number: nat)
    | Take(p: T)
    | TakeNumber(p: T, number: nat)
    | Exchange(c: T, d: T)
    | Tune(p: T, getting: nat, maxPending: nat)
    | Abort(c: T, reason: int)

  // ---------------------------------------------------------------- steps

  function First(positive: bool): nat { if positive then FIRST_POSITIVE else FIRST_NEGATIVE }

  /** The number after `n`, in 32 bits. */
  function NextNumber(n: nat, positive: bool): nat { (n + if positive then 1 else TWO_32 - 1) % TWO_32 }

  function NewView<T>(socket: bool, number: nat, positive: bool, maxPending: nat, parent: Option<T>): View<T>
  {
    View(socket, number, positive, First(positive), maxPending, NO_ERROR, parent, None, map[], [], 0, false, true)
  }

  /** A channel of `p` under a number, replacing whatever `p` keeps there. */
  ghost function Made<T>(g: Graph<T>, p: T, c: T, number: nat, positive: bool): Graph<T>
    requires p in g
  {
    g[p := g[p].(subs := g[p].subs[number := Some(c)])][c := NewView(false, number, positive, g[p].maxPending, Some(p))]
  }

  ghost function MakeStep<T>(g: Graph<T>, p: T, c: T): Graph<T>
    requires p in g
  {
    var v := g[p].(next := NextNumber(g[p].next, g[p].positive));
    Made(g[p := v], p, c, g[p].next, true)
  }

  ghost function Queued<T>(g: Graph<T>, p: T, c: T): Graph<T>
    requires p in g
  {
    g[p := g[p].(pending := g[p].pending + [Some(c)])]
  }

  ghost function Offered<T>(g: Graph<T>, p: T, c: T, number: nat): Graph<T>
    requires p in g
  {
    Queued(Made(g, p, c, number, false), p, c)
  }

  /** The oldest unclaimed channel leaves the queue. */
  ghost function Popped<T>(g: Graph<T>, p: T): Graph<T>
    requires p in g && g[p].pending != []
  {
    g[p := g[p].(pending := g[p].pending[1..])]
  }

  lemma PoppedCloses<T>(g: Graph<T>, p: T)
    requires Closed(g) && p in g && g[p].pending != []
    ensures var h := Popped(g, p); Closed(h) && Inside(g[p].pending[0], h) && Live(h) == Live(g)
  {
    var h := Popped(g, p);
    assert RefsInside(g[p], g);
    forall d | d in h ensures RefsInside(h[d], h) { assert RefsInside(g[d], g); }
  }

  ghost function Dropped<T>(g: Graph<T>, p: T): (h: Graph<T>)
    requires Closed(g) && p in g && g[p].pending != []
    ensures Closed(h) && p in h && h.Keys == g.Keys && Live(h) <= Live(g)
    ensures h[p].error == g[p].error ==> |h[p].pending| == |g[p].pending| - 1
    ensures h[p].error != g[p].error ==> Live(h) < Live(g)
  {
    PoppedCloses(g, p);
    var one := Popped(g, p);
    if g[p].pending[0].None? then one
    else
      var h := AbortOf(one, g[p].pending[0].value, PENDING_LIMIT);
      AgedLive(one, h, {});
      assert AgedView(one[p], h[p]);
      assert h[p].error != g[p].error ==> p in Live(g) && p !in Live(h);
      h
  }

  /** Above the limit the oldest unclaimed channels are dropped. */
  ghost function Trimmed<T>(g: Graph<T>, p: T): (h: Graph<T>)
    requires Closed(g) && p in g
    ensures Closed(h) && h.Keys == g.Keys
    decreases Live(g), |g[p].pending|
  {
    if g[p].maxPending == 0 || |g[p].pending| <= g[p].maxPending then g
    else
      var h := Dropped(g, p);
      Trimmed(h, p)
  }

  /** Does this entry hold a channel with the number? */
  ghost predicate Named<T>(g: Graph<T>, c: Option<T>, number: nat)
  {
    c.Some? && c.value in g && g[c.value].number == number
  }

  /** The first unclaimed channel with the number, in error or not. */
  ghost function PeekIn<T>(g: Graph<T>, pending: seq<Option<T>>, number: nat): (r: Option<T>)
    ensures r.Some? ==> r in pending && Named(g, r, number)
  {
    if pending == [] then None else if Named(g, pending[0], number) then pending[0] else PeekIn(g, pending[1..], number)
  }

  /** The unclaimed channels without the first that has the number. */
  ghost function TakenFrom<T>(g: Graph<T>, pending: seq<Option<T>>, number: nat): (r: seq<Option<T>>)
    ensures forall n :: n in r ==> n in pending
  {
    if pending == [] then []
    else if Named(g, pending[0], number) then pending[1..]
    else [pending[0]] + TakenFrom(g, pending[1..], number)
  }

  /** Whom a DESTROY request closes: an unclaimed channel if there is one, else the one registered. */
  ghost function DestroyTarget<T>(g: Graph<T>, p: T, number: nat): Option<T>
    requires p in g
  {
    var waiting := PeekIn(g, g[p].pending, number);
    if waiting.Some? then waiting else if number in g[p].subs then g[p].subs[number] else None
  }

  lemma TargetInside<T>(g: Graph<T>, p: T, number: nat)
    requires Closed(g) && p in g
    ensures Inside(DestroyTarget(g, p, number), g) && Closed(StruckOff(g, p, number))
  {
    assert RefsInside(g[p], g);
    StruckOffAges(g, p, number);
  }

  ghost function DestroyStep<T>(g: Graph<T>, p: T, number: nat): (h: Graph<T>)
    requires Closed(g) && p in g
    ensures Closed(h)
  {
    TargetInside(g, p, number);
    var target := DestroyTarget(g, p, number);
    var one := StruckOff(g, p, number);
    if target.None? then one else AbortAttached(one, target.value, REMOTE_PEER_CLOSED)
  }

  /** A channel that can make and hand out channels. */
  ghost predicate Usable<T>(g: Graph<T>, p: T)
    requires p in g
  {
    g[p].error == NO_ERROR && (g[p].socket || g[p].parent.Some?)
  }

  /** Packets for a channel reach its own handlers. */
  ghost predicate Listening<T>(g: Graph<T>, p: T)
    requires p in g
  {
    g[p].error == NO_ERROR && g[p].plugged.None?
  }

  ghost predicate Enabled<T>(g: Graph<T>, a: Action<T>)
  {
    match a
    case Connect(c, _) => c !in g
    case Make(p, c) => p in g && c !in g && Usable(g, p)
    case PeerMake(p, c, n) => p in g && c !in g && Listening(g, p) && n !in g[p].subs
    case PeerDestroy(p, n) => p in g && Listening(g, p)
    case Take(p) => p in g && Usable(g, p) && g[p].pending != []
    case TakeNumber(p, n) => p in g && Usable(g, p)
    case Exchange(c, d) => c in g && d in g && c != d && g[c].error == NO_ERROR && g[d].error == NO_ERROR
    case Tune(p, _, _) => p in g
    case Abort(c, reason) => c in g && reason != NO_ERROR
  }

  ghost function Step<T>(g: Graph<T>, a: Action<T>): (h: Graph<T>)
    requires Closed(g) && Enabled(g, a)
    ensures Closed(h)
  {
    match a
    case Connect(c, positive) =>
      Extends(g, c, NewView(true, 0, positive, 8, None));
      g[c := NewView(true, 0, positive, 8, None)]
    case Make(p, c) => MadeCloses(g, p, c, g[p].(next := NextNumber(g[p].next, g[p].positive)), g[p].next, true); MakeStep(g, p, c)
    case PeerMake(p, c, n) =>
      OfferedCloses(g, p, c, n);
      Trimmed(Offered(g, p, c, n), p)
    case PeerDestroy(p, n) => DestroyStep(g, p, n)
    case Take(p) => PoppedCloses(g, p); Popped(g, p)
    case TakeNumber(p, n) =>
      Replaces(g, p, g[p].(pending := TakenFrom(g, g[p].pending, n)));
      g[p := g[p].(pending := TakenFrom(g, g[p].pending, n))]
    case Exchange(c, d) =>
      var one := g[c := g[c].(plugged := Some(d))];
      Replaces(g, c, g[c].(plugged := Some(d)));
      Replaces(one, d, one[d].(plugged := Some(c)));
      one[d := one[d].(plugged := Some(c))]
    case Tune(p, getting, maxPending) =>
      Replaces(g, p, g[p].(getting := getting, maxPending := maxPending));
      g[p := g[p].(getting := getting, maxPending := maxPending)]
    case Abort(c, reason) => AbortOf(g, c, reason)
  }

  lemma Replaces<T>(g: Graph<T>, p: T, v: View<T>)
    requires Closed(g) && p in g && Inside(v.plugged, g) && v.parent == g[p].parent && v.subs == g[p].subs
    requires forall n :: n in v.pending ==> n in g[p].pending
    ensures Closed(g[p := v])
  {
    var h := g[p := v];
    assert RefsInside(g[p], g);
    forall d | d in h ensures RefsInside(h[d], h) {
      assert RefsInside(g[d], g);
      if d == p {
        forall i | 0 <= i < |v.pending| ensures Inside(v.pending[i], h) {
          assert v.pending[i] in g[p].pending;
        }
      }
    }
  }

  lemma Extends<T>(g: Graph<T>, c: T, v: View<T>)
    requires Closed(g) && c !in g && v.parent == None && v.plugged == None && v.subs == map[] && v.pending == []
    ensures Closed(g[c := v])
  {
    var h := g[c := v];
    forall d | d in h ensures RefsInside(h[d], h) { if d in g { assert RefsInside(g[d], g); } }
  }

  lemma MadeCloses<T>(g: Graph<T>, p: T, c: T, v: View<T>, number: nat, positive: bool)
    requires Closed(g) && p in g && c !in g && v.parent == g[p].parent && v.plugged == g[p].plugged && v.subs == g[p].subs
    requires v.pending == g[p].pending
    ensures Closed(Made(g[p := v], p, c, number, positive))
  {
    var h := Made(g[p := v], p, c, number, positive);
    forall d | d in h ensures RefsInside(h[d], h) {
      if d in g { assert RefsInside(g[d], g); }
    }
  }

  lemma QueuedCloses<T>(g: Graph<T>, p: T, c: T)
    requires Closed(g) && p in g && c in g
    ensures Closed(Queued(g, p, c))
  {
    var h := Queued(g, p, c);
    forall d | d in h ensures RefsInside(h[d], h) { assert RefsInside(g[d], g); }
  }

  lemma OfferedCloses<T>(g: Graph<T>, p: T, c: T, number: nat)
    requires Closed(g) && p in g && c !in g
    ensures Closed(Made(g, p, c, number, false)) && Closed(Offered(g, p, c, number)) && p in Offered(g, p, c, number)
  {
    assert g[p := g[p]] == g;
    MadeCloses(g, p, c, g[p], number, false);
    hide Closed;
    QueuedCloses(Made(g, p, c, number, false), p, c);
  }

  // ---------------------------------------------------------------- runs

  ghost predicate Legal<T>(run: seq<Action<T>>)
    decreases |run|, 0
  {
    run == [] || (Legal(run[..|run| - 1]) && Enabled(After(run[..|run| - 1]), run[|run| - 1]))
  }

  /** The channels after a run that begins with none. */
  ghost function After<T>(run: seq<Action<T>>): (g: Graph<T>)
    requires Legal(run)
    ensures Closed(g)
    decreases |run|, 1
  {
    if run == [] then map[] else Step(After(run[..|run| - 1]), run[|run| - 1])
  }

  // ---------------------------------------------------------------- the law of registration

  /** Every working channel stands under its number with its parent. */
  ghost predicate Complete<T>(g: Graph<T>)
  {
    forall c :: c in g && g[c].error == NO_ERROR && !g[c].socket && g[c].parent.Some? ==> Kept(g, c, g[c].parent.value)
  }

  ghost predicate Kept<T>(g: Graph<T>, c: T, p: T)
    requires c in g
  {
    p in g && g[c].number in g[p].subs && g[p].subs[g[c].number] == Some(c)
  }

  /** A step that takes no working channel's number, and closes the channel it strikes off. */
  ghost predicate Careful<T>(g: Graph<T>, a: Action<T>)
  {
    match a
    case Make(p, _) => p in g && !Taken(g, p, g[p].next)
    case PeerDestroy(p, n) => p in g && (Taken(g, p, n) ==> DestroyTarget(g, p, n) == g[p].subs[n])
    case _ => true
  }

  /** The number stands for a working channel. */
  ghost predicate Taken<T>(g: Graph<T>, p: T, number: nat)
    requires p in g
  {
    number in g[p].subs && g[p].subs[number].Some? && !InError(g, g[p].subs[number])
  }

  ghost predicate AlwaysComplete<T>(run: seq<Action<T>>)
    requires Legal(run)
    decreases |run|
  {
    Complete(After(run)) && (run != [] ==> AlwaysComplete(run[..|run| - 1]))
  }

  ghost predicate AlwaysCareful<T>(run: seq<Action<T>>)
    requires Legal(run)
    decreases |run|
  {
    run != [] ==> Careful(After(run[..|run| - 1]), run[|run| - 1]) && AlwaysCareful(run[..|run| - 1])
  }

  // ---------------------------------------------------------------- what every step keeps

  ghost predicate OwnedBy<T>(g: Graph<T>, d: Option<T>, p: T, but: Option<T>)
  {
    d.Some? && d.value in g && !g[d.value].socket && (d == but || InError(g, d) || g[d.value].parent == Some(p))
  }

  /** A working parent's entries and unclaimed channels are its own, each entry under its number, `but` one. */
  ghost predicate Owned<T>(g: Graph<T>, but: Option<T>)
  {
    forall p :: p in g && g[p].error == NO_ERROR ==>
      && (forall k :: k in g[p].subs ==> OwnedBy(g, g[p].subs[k], p, but) && g[g[p].subs[k].value].number == k)
      && (forall i :: 0 <= i < |g[p].pending| && g[p].pending[i].Some? ==> OwnedBy(g, g[p].pending[i], p, but))
  }

  lemma SpreadKeepsOwned<T>(g: Graph<T>, h: Graph<T>, but: Option<T>)
    requires Owned(g, but) && Aged(g, h, {})
    ensures Owned(h, but)
  {
    hide Closed;
    AgedLive(g, h, {});
    forall p | p in h && h[p].error == NO_ERROR
      ensures forall k :: k in h[p].subs ==> OwnedBy(h, h[p].subs[k], p, but) && h[h[p].subs[k].value].number == k
      ensures forall i :: 0 <= i < |h[p].pending| && h[p].pending[i].Some? ==> OwnedBy(h, h[p].pending[i], p, but)
    {
      assert AgedView(g[p], h[p]) && SameHold(g[p], h[p]);
      forall d | OwnedBy(g, d, p, but) ensures OwnedBy(h, d, p, but) && h[d.value].number == g[d.value].number {
        assert AgedView(g[d.value], h[d.value]);
      }
    }
  }

  lemma SpreadKeepsComplete<T>(g: Graph<T>, h: Graph<T>)
    requires Complete(g) && Spread(g, h, {})
    ensures Complete(h)
  {
    hide Closed, Released;
    forall c | c in h && h[c].error == NO_ERROR && !h[c].socket && h[c].parent.Some?
      ensures Kept(h, c, h[c].parent.value)
    {
      assert AgedView(g[c], h[c]);
      var p, k := h[c].parent.value, h[c].number;
      assert Kept(g, c, p);
      assert AgedView(g[p], h[p]) && Passed(g, h, p);
      NotStruck(g, h, c, p);
    }
  }

  lemma NotStruck<T>(g: Graph<T>, h: Graph<T>, c: T, p: T)
    requires Complete(g) && c in g && Kept(g, c, p) && !InError(h, Some(c))
    ensures !Struck(g, h, p, g[c].number)
  {
    var k := g[c].number;
    forall d | d in g && Attached(g, d, p, k) ensures !InError(h, Some(d)) {
      assert Kept(g, d, p);
    }
  }

  /** Channels in error are released, and what parents keep is their own. */
  ghost predicate Good<T>(g: Graph<T>) { Sound(g) && Owned(g, None) }

  lemma AbortKeeps<T>(g: Graph<T>, c: T, reason: int)
    requires Sound(g) && c in g && reason != NO_ERROR
    ensures var h := AbortOf(g, c, reason);
      Sound(h) && (Complete(g) ==> Complete(h)) && (forall but :: Owned(g, but) ==> Owned(h, but))
  {
    hide Sound, Complete, Owned, Spread, Closed, AbortOf, Aged;
    assert Closed(g) by { SoundCloses(g); }
    var h := AbortOf(g, c, reason);
    AbortSpreads(g, c, reason);
    SpreadKeepsSound(g, h);
    if Complete(g) { SpreadKeepsComplete(g, h); }
    forall but | Owned(g, but) ensures Owned(h, but) { SpreadKeepsOwned(g, h, but); }
  }

  lemma SoundCloses<T>(g: Graph<T>)
    requires Sound(g)
    ensures Closed(g)
  {
  }

  lemma OwnedDone<T>(g: Graph<T>, d: T)
    requires Owned(g, Some(d)) && InError(g, Some(d))
    ensures Owned(g, None)
  {
    forall p | p in g && g[p].error == NO_ERROR
      ensures forall k :: k in g[p].subs ==> OwnedBy(g, g[p].subs[k], p, None) && g[g[p].subs[k].value].number == k
      ensures forall i :: 0 <= i < |g[p].pending| && g[p].pending[i].Some? ==> OwnedBy(g, g[p].pending[i], p, None)
    {
    }
  }

  /** One channel's queue of unclaimed channels, plug or counters change; a channel in error keeps no queue. */
  lemma QueueKeeps<T>(g: Graph<T>, p: T, v: View<T>)
    requires Good(g) && p in g && SameName(g[p], v) && v.subs == g[p].subs && Closed(g[p := v])
    requires forall n :: n in v.pending ==> n in g[p].pending
    requires g[p].error != NO_ERROR ==> SameHold(g[p], v)
    ensures Good(g[p := v]) && (Complete(g[p := v]) <==> Complete(g))
  {
    hide Closed;
    var h := g[p := v];
    assert forall d, q, but :: OwnedBy(g, d, q, but) <==> OwnedBy(h, d, q, but);
    QueueOwned(g, p, v);
    assert forall c, q :: c in g ==> (Kept(g, c, q) <==> Kept(h, c, q));
    assert forall c :: c in g ==> SameName(g[c], h[c]);
  }

  ghost predicate SameName<T>(a: View<T>, b: View<T>)
  {
    b.socket == a.socket && b.number == a.number && b.error == a.error && b.parent == a.parent
  }

  lemma QueueOwned<T>(g: Graph<T>, p: T, v: View<T>)
    requires Owned(g, None) && p in g && SameName(g[p], v) && v.subs == g[p].subs
    requires forall n :: n in v.pending ==> n in g[p].pending
    ensures Owned(g[p := v], None)
  {
    var h := g[p := v];
    forall q | q in h && h[q].error == NO_ERROR
      ensures forall k :: k in h[q].subs ==> OwnedBy(h, h[q].subs[k], q, None) && h[h[q].subs[k].value].number == k
      ensures forall i :: 0 <= i < |h[q].pending| && h[q].pending[i].Some? ==> OwnedBy(h, h[q].pending[i], q, None)
    {
      forall i | 0 <= i < |h[q].pending| && h[q].pending[i].Some? ensures OwnedBy(h, h[q].pending[i], q, None) {
        assert h[q].pending[i] in g[q].pending;
        var j :| 0 <= j < |g[q].pending| && g[q].pending[j] == h[q].pending[i];
        assert OwnedBy(g, g[q].pending[j], q, None);
      }
    }
  }

  lemma ConnectKeeps<T>(g: Graph<T>, c: T, v: View<T>)
    requires Good(g) && c !in g && v.socket && v.parent == None && v.plugged == None && v.subs == map[] && v.pending == []
    requires v.error == NO_ERROR
    ensures Good(g[c := v]) && (Complete(g[c := v]) <==> Complete(g))
  {
    var h := g[c := v];
    Extends(g, c, v);
    hide Closed, Released;
    assert forall d, q, but :: OwnedBy(g, d, q, but) ==> OwnedBy(h, d, q, but);
    FreshKept(g, h, c);
  }

  /** A new channel does not unsettle those that were there. */
  lemma FreshKept<T>(g: Graph<T>, h: Graph<T>, c: T)
    requires c !in g && c in h && h == g[c := h[c]] && h[c].socket && h[c].subs == map[]
    ensures Complete(h) <==> Complete(g)
  {
    assert forall d, q :: d in g && q != c ==> (Kept(g, d, q) <==> Kept(h, d, q));
    if Complete(h) {
      forall d | d in g && g[d].error == NO_ERROR && !g[d].socket && g[d].parent.Some? ensures Kept(g, d, g[d].parent.value) {
        assert Kept(h, d, g[d].parent.value);
      }
    }
    if Complete(g) {
      forall d | d in h && h[d].error == NO_ERROR && !h[d].socket && h[d].parent.Some? ensures Kept(h, d, h[d].parent.value) {
        assert Kept(g, d, h[d].parent.value);
      }
    }
  }

  /** `p` gets a new channel under a number, and perhaps in its queue. */
  ghost predicate Adds<T>(g: Graph<T>, h: Graph<T>, p: T, c: T, number: nat)
  {
    && p in g && c !in g && h.Keys == g.Keys + {c} && (forall d :: d in g && d != p ==> h[d] == g[d])
    && SameName(g[p], h[p]) && h[p].subs == g[p].subs[number := Some(c)] && g[p].error == NO_ERROR
    && (h[p].pending == g[p].pending || h[p].pending == g[p].pending + [Some(c)])
    && h[c].number == number && !h[c].socket && h[c].error == NO_ERROR && h[c].parent == Some(p)
    && h[c].subs == map[] && h[c].pending == []
  }

  lemma AddsOwned<T>(g: Graph<T>, h: Graph<T>, p: T, c: T, number: nat)
    requires Adds(g, h, p, c, number) && Owned(g, None)
    ensures Owned(h, None)
  {
    forall d, q | OwnedBy(g, d, q, None) ensures OwnedBy(h, d, q, None) {}
    forall q | q in h && h[q].error == NO_ERROR
      ensures forall k :: k in h[q].subs ==> OwnedBy(h, h[q].subs[k], q, None) && h[h[q].subs[k].value].number == k
      ensures forall i :: 0 <= i < |h[q].pending| && h[q].pending[i].Some? ==> OwnedBy(h, h[q].pending[i], q, None)
    {
      assert OwnedBy(h, Some(c), p, None);
    }
  }

  /** All stay registered exactly if the number was not taken. */
  lemma AddsComplete<T>(g: Graph<T>, h: Graph<T>, p: T, c: T, number: nat)
    requires Adds(g, h, p, c, number) && Owned(g, None) && Complete(g)
    ensures Complete(h) <==> !Taken(g, p, number)
  {
    if Taken(g, p, number) {
      var e := g[p].subs[number].value;
      assert OwnedBy(g, Some(e), p, None);
      assert !Kept(h, e, p);
    } else {
      forall d | d in h && h[d].error == NO_ERROR && !h[d].socket && h[d].parent.Some? ensures Kept(h, d, h[d].parent.value) {
        if d != c { StaysKept(g, h, p, c, number, d); }
      }
    }
  }

  lemma StaysKept<T>(g: Graph<T>, h: Graph<T>, p: T, c: T, number: nat, d: T)
    requires Adds(g, h, p, c, number) && Complete(g) && !Taken(g, p, number)
    requires d in h && d != c && h[d].error == NO_ERROR && !h[d].socket && h[d].parent.Some?
    ensures Kept(h, d, h[d].parent.value)
  {
    var q := h[d].parent.value;
    assert d in g && Kept(g, d, q);
    assert q == p ==> g[d].number != number;
  }

  lemma AddsSound<T>(g: Graph<T>, h: Graph<T>, p: T, c: T, number: nat)
    requires Adds(g, h, p, c, number) && Sound(g) && Closed(h)
    ensures Sound(h)
  {
    hide Closed, Released;
  }

  lemma MakeAdds<T>(g: Graph<T>, p: T, c: T)
    requires Closed(g) && Enabled(g, Make(p, c))
    ensures Adds(g, Step(g, Make(p, c)), p, c, g[p].next)
  {
    hide Closed;
  }

  lemma OfferAdds<T>(g: Graph<T>, p: T, c: T, number: nat)
    requires Closed(g) && Enabled(g, PeerMake(p, c, number))
    ensures var h := Offered(g, p, c, number); Closed(h) && p in h && Adds(g, h, p, c, number)
  {
    OfferedCloses(g, p, c, number);
    hide Closed;
  }

  lemma PopKeeps<T>(g: Graph<T>, p: T)
    requires Good(g) && p in g && g[p].pending != [] && (g[p].error != NO_ERROR ==> g[p].pending[0] == None)
    ensures Good(Popped(g, p)) && (Complete(Popped(g, p)) <==> Complete(g))
  {
    PoppedCloses(g, p);
    if g[p].error == NO_ERROR {
      hide Good, Closed, Complete;
      QueueKeeps(g, p, g[p].(pending := g[p].pending[1..]));
    } else {
      PopReleased(g, p);
    }
  }

  lemma PopReleased<T>(g: Graph<T>, p: T)
    requires Good(g) && p in g && g[p].pending != [] && g[p].error != NO_ERROR && Closed(Popped(g, p))
    ensures Good(Popped(g, p)) && (Complete(Popped(g, p)) <==> Complete(g))
  {
    hide Closed;
    var h := Popped(g, p);
    assert Released(g[p]);
    forall i | 0 <= i < |h[p].pending| ensures h[p].pending[i] == None { assert h[p].pending[i] == g[p].pending[i + 1]; }
    assert Released(h[p]);
    QueueOwned(g, p, h[p]);
    assert forall c, q :: c in g ==> (Kept(g, c, q) <==> Kept(h, c, q));
    assert forall c :: c in g ==> SameName(g[c], h[c]);
  }

  lemma ErrorQueue<T>(g: Graph<T>, p: T)
    requires Sound(g) && p in g && g[p].error != NO_ERROR && g[p].pending != []
    ensures g[p].pending[0] == None
  {
    assert Released(g[p]);
  }

  lemma DropKeeps<T>(g: Graph<T>, p: T)
    requires Good(g) && p in g && g[p].pending != []
    ensures Good(Dropped(g, p)) && (Complete(g) ==> Complete(Dropped(g, p)))
  {
    hide Complete, Owned, Closed, Sound, AbortOf;
    SoundCloses(g);
    if g[p].error != NO_ERROR { ErrorQueue(g, p); }
    PopKeeps(g, p);
    PoppedCloses(g, p);
    if g[p].pending[0].Some? { AbortKeeps(Popped(g, p), g[p].pending[0].value, PENDING_LIMIT); }
  }

  lemma {:induction false} TrimKeeps<T>(g: Graph<T>, p: T)
    requires Good(g) && p in g
    ensures Closed(g) && Good(Trimmed(g, p)) && (Complete(g) ==> Complete(Trimmed(g, p)))
    decreases Live(g), |g[p].pending|
  {
    hide Complete, Owned, Closed, Sound, Dropped;
    SoundCloses(g);
    if g[p].maxPending != 0 && |g[p].pending| > g[p].maxPending {
      var h := Dropped(g, p);
      DropKeeps(g, p);
      TrimKeeps(h, p);
    }
  }

  // ---------------------------------------------------------------- destroying

  lemma StruckOffOwned<T>(g: Graph<T>, p: T, number: nat, t: T)
    requires Closed(g) && Owned(g, None) && p in g && t in g
    ensures t in StruckOff(g, p, number) && Owned(Detached(StruckOff(g, p, number), t), Some(t))
  {
    hide Owned, Closed, Aged;
    StruckOffAges(g, p, number);
    SpreadKeepsOwned(g, StruckOff(g, p, number), None);
    DetachedOwned(StruckOff(g, p, number), t);
  }

  lemma DetachedOwned<T>(g: Graph<T>, t: T)
    requires Owned(g, None) && t in g
    ensures Owned(Detached(g, t), Some(t))
  {
    var h := Detached(g, t);
    forall d, q | OwnedBy(g, d, q, None) ensures OwnedBy(h, d, q, Some(t)) {}
    forall q | q in h && h[q].error == NO_ERROR
      ensures forall k :: k in h[q].subs ==> OwnedBy(h, h[q].subs[k], q, Some(t)) && h[h[q].subs[k].value].number == k
      ensures forall i :: 0 <= i < |h[q].pending| && h[q].pending[i].Some? ==> OwnedBy(h, h[q].pending[i], q, Some(t))
    {
    }
  }

  lemma StruckOffSound<T>(g: Graph<T>, p: T, number: nat)
    requires Sound(g) && p in g
    ensures Sound(StruckOff(g, p, number))
  {
    StruckOffAges(g, p, number);
    hide Closed;
    var h := StruckOff(g, p, number);
    forall c | c in h && h[c].error != NO_ERROR ensures Released(h[c]) {
      assert Released(g[c]);
      assert h[c].subs == map[];
    }
  }

  lemma DetachedSound<T>(g: Graph<T>, t: T)
    requires Sound(g) && t in g
    ensures Sound(Detached(g, t))
  {
    DetachedCloses(g, t);
    hide Closed;
    var h := Detached(g, t);
    forall c | c in h && h[c].error != NO_ERROR ensures Released(h[c]) { assert Released(g[c]); }
  }

  lemma NothingDestroyed<T>(g: Graph<T>, p: T, number: nat)
    requires Owned(g, None) && p in g && g[p].error == NO_ERROR && DestroyTarget(g, p, number) == None
    ensures number !in g[p].subs && StruckOff(g, p, number) == g
  {
    hide PeekIn;
    assert number in g[p].subs ==> OwnedBy(g, g[p].subs[number], p, None);
    assert g[p].subs - {number} == g[p].subs;
  }

  lemma DestroyGood<T>(g: Graph<T>, p: T, number: nat)
    requires Good(g) && p in g && g[p].error == NO_ERROR
    ensures Closed(g) && Good(DestroyStep(g, p, number))
  {
    hide Complete, Owned, Closed, Sound, AbortOf, DestroyTarget, StruckOff, Detached;
    SoundCloses(g);
    TargetInside(g, p, number);
    var target, one := DestroyTarget(g, p, number), StruckOff(g, p, number);
    if target.None? {
      NothingDestroyed(g, p, number);
    } else {
      var t := target.value;
      SameKeys(g, p, number, t);
      StruckOffSound(g, p, number);
      DetachedSound(one, t);
      StruckOffOwned(g, p, number, t);
      DetachedCloses(one, t);
      AbortKeeps(Detached(one, t), t, REMOTE_PEER_CLOSED);
      OwnedDone(AbortOf(Detached(one, t), t, REMOTE_PEER_CLOSED), t);
    }
  }

  lemma SameKeys<T>(g: Graph<T>, p: T, number: nat, t: T)
    requires p in g && t in g
    ensures t in StruckOff(g, p, number) && t in Detached(StruckOff(g, p, number), t)
  {
  }

  /** Cutting `t` loose after striking off the number keeps the rest registered, if it was `t`'s or nobody's. */
  lemma CutComplete<T>(g: Graph<T>, p: T, number: nat, t: T)
    requires Complete(g) && p in g && t in g && (Taken(g, p, number) ==> g[p].subs[number] == Some(t))
    ensures Complete(Detached(StruckOff(g, p, number), t))
  {
    var h := Detached(StruckOff(g, p, number), t);
    forall c | c in h && h[c].error == NO_ERROR && !h[c].socket && h[c].parent.Some? ensures Kept(h, c, h[c].parent.value) {
      assert c != t && Kept(g, c, h[c].parent.value);
    }
  }

  /** An unclaimed channel that is not the registered one is in error. */
  lemma StaleInError<T>(g: Graph<T>, p: T, t: T, e: T, i: nat)
    requires Owned(g, None) && Complete(g) && p in g && g[p].error == NO_ERROR
    requires i < |g[p].pending| && g[p].pending[i] == Some(t) && t in g && t != e
    requires g[t].number in g[p].subs && g[p].subs[g[t].number] == Some(e)
    ensures InError(g, Some(t))
  {
    assert OwnedBy(g, g[p].pending[i], p, None);
    assert !InError(g, Some(t)) ==> Kept(g, t, p);
  }

  lemma DestroyExactly<T>(g: Graph<T>, p: T, number: nat)
    requires Good(g) && Complete(g) && p in g && g[p].error == NO_ERROR
    ensures Closed(g) && (Complete(DestroyStep(g, p, number)) <==> Careful(g, PeerDestroy(p, number)))
  {
    hide Complete, Owned, Closed, Sound, AbortOf, Detached, StruckOff;
    SoundCloses(g);
    TargetInside(g, p, number);
    var target, one := DestroyTarget(g, p, number), StruckOff(g, p, number);
    if target.None? {
      NothingDestroyed(g, p, number);
    } else {
      var t := target.value;
      SameKeys(g, p, number, t);
      if Careful(g, PeerDestroy(p, number)) {
        CutComplete(g, p, number, t);
        StruckOffSound(g, p, number);
        DetachedSound(one, t);
        DetachedCloses(one, t);
        AbortKeeps(Detached(one, t), t, REMOTE_PEER_CLOSED);
      } else {
        DestroyLoses(g, p, number, t);
      }
    }
  }

  /** The request closes an unclaimed channel closed before, and the registered one is forgotten. */
  lemma DestroyLoses<T>(g: Graph<T>, p: T, number: nat, t: T)
    requires Good(g) && Complete(g) && p in g && g[p].error == NO_ERROR && t in g && DestroyTarget(g, p, number) == Some(t)
    requires Taken(g, p, number) && g[p].subs[number] != Some(t)
    ensures Closed(g) && !Complete(DestroyStep(g, p, number))
  {
    hide Complete, Owned, Closed, Sound, StruckOff, Detached;
    SoundCloses(g);
    TargetInside(g, p, number);
    var e := g[p].subs[number].value;
    var one := StruckOff(g, p, number);
    StaleTarget(g, p, number, t, e);
    SameKeys(g, p, number, t);
    DetachedCloses(one, t);
    CutForgets(g, p, number, t, e);
    assert AbortOf(Detached(one, t), t, REMOTE_PEER_CLOSED) == Detached(one, t);
    assert AbortAttached(one, t, REMOTE_PEER_CLOSED) == Detached(one, t);
  }

  lemma StaleTarget<T>(g: Graph<T>, p: T, number: nat, t: T, e: T)
    requires Owned(g, None) && Complete(g) && p in g && g[p].error == NO_ERROR && t in g && t != e
    requires DestroyTarget(g, p, number) == Some(t) && number in g[p].subs && g[p].subs[number] == Some(e)
    ensures InError(g, Some(t)) && e in g && !g[e].socket && (InError(g, Some(e)) || g[e].parent == Some(p)) && g[e].number == number
  {
    hide Complete;
    var i :| 0 <= i < |g[p].pending| && g[p].pending[i] == Some(t);
    assert OwnedBy(g, g[p].subs[number], p, None);
    StaleInError(g, p, t, e, i);
  }

  lemma CutForgets<T>(g: Graph<T>, p: T, number: nat, t: T, e: T)
    requires p in g && t in g && e in g && t != e && InError(g, Some(t))
    requires g[e].error == NO_ERROR && !g[e].socket && g[e].parent == Some(p) && g[e].number == number
    ensures var h := Detached(StruckOff(g, p, number), t); h[t].error == g[t].error && !Complete(h)
  {
    var h := Detached(StruckOff(g, p, number), t);
    assert !Kept(h, e, p);
  }

  // ---------------------------------------------------------------- exactly

  lemma StepGood<T>(g: Graph<T>, a: Action<T>)
    requires Good(g) && Enabled(g, a)
    ensures Closed(g) && Good(Step(g, a))
    ensures Complete(g) ==> (Complete(Step(g, a)) <==> Careful(g, a))
  {
    hide Complete, Owned, Closed, Sound, AbortOf, DestroyStep, Trimmed, MakeStep, Offered, Adds, TakenFrom, Careful, Step;
    SoundCloses(g);
    match a
    case Connect(c, positive) => StepConnect(g, c, positive);
    case Make(p, c) => StepMake(g, p, c);
    case PeerMake(p, c, n) => StepOffer(g, p, c, n);
    case PeerDestroy(p, n) => StepDestroy(g, p, n);
    case Take(p) => StepQueue(g, a, p);
    case TakeNumber(p, n) => StepQueue(g, a, p);
    case Exchange(c, d) => StepExchange(g, c, d);
    case Tune(p, _, _) => StepQueue(g, a, p);
    case Abort(c, reason) => StepAbort(g, c, reason);
  }

  lemma StepConnect<T>(g: Graph<T>, c: T, positive: bool)
    requires Good(g) && Closed(g) && Enabled(g, Connect(c, positive))
    ensures var a := Connect(c, positive);
      Good(Step(g, a)) && (Complete(g) ==> (Complete(Step(g, a)) <==> Careful(g, a)))
  {
    hide Complete, Good, Closed;
    ConnectKeeps(g, c, NewView(true, 0, positive, 8, None));
  }

  lemma StepMake<T>(g: Graph<T>, p: T, c: T)
    requires Good(g) && Closed(g) && Enabled(g, Make(p, c))
    ensures var a := Make(p, c);
      Good(Step(g, a)) && (Complete(g) ==> (Complete(Step(g, a)) <==> Careful(g, a)))
  {
    hide Complete, Owned, Closed, Sound, Adds, Step;
    var h := Step(g, Make(p, c));
    MakeAdds(g, p, c);
    AddsOwned(g, h, p, c, g[p].next);
    AddsSound(g, h, p, c, g[p].next);
    if Complete(g) { AddsComplete(g, h, p, c, g[p].next); }
  }

  lemma StepOffer<T>(g: Graph<T>, p: T, c: T, n: nat)
    requires Good(g) && Closed(g) && Enabled(g, PeerMake(p, c, n))
    ensures var a := PeerMake(p, c, n);
      Good(Step(g, a)) && (Complete(g) ==> (Complete(Step(g, a)) <==> Careful(g, a)))
  {
    hide Complete, Owned, Closed, Sound, Adds, Trimmed, Offered;
    var h := Offered(g, p, c, n);
    OfferAdds(g, p, c, n);
    AddsOwned(g, h, p, c, n);
    AddsSound(g, h, p, c, n);
    if Complete(g) { AddsComplete(g, h, p, c, n); }
    TrimKeeps(h, p);
  }

  lemma StepDestroy<T>(g: Graph<T>, p: T, n: nat)
    requires Good(g) && Closed(g) && Enabled(g, PeerDestroy(p, n))
    ensures var a := PeerDestroy(p, n);
      Good(Step(g, a)) && (Complete(g) ==> (Complete(Step(g, a)) <==> Careful(g, a)))
  {
    hide Complete, Good, Closed, DestroyStep, Careful;
    DestroyGood(g, p, n);
    if Complete(g) { DestroyExactly(g, p, n); }
  }

  lemma StepQueue<T>(g: Graph<T>, a: Action<T>, p: T)
    requires Good(g) && Closed(g) && Enabled(g, a)
    requires a == Take(p) || (a.TakeNumber? && a.p == p) || (a.Tune? && a.p == p)
    ensures Good(Step(g, a)) && (Complete(g) ==> (Complete(Step(g, a)) <==> Careful(g, a)))
  {
    assert RefsInside(g[p], g);
    hide Complete, Good, Closed, TakenFrom;
    match a
    case Take(_) => PopKeeps(g, p);
    case TakeNumber(_, n) =>
      var v := g[p].(pending := TakenFrom(g, g[p].pending, n));
      Replaces(g, p, v);
      QueueKeeps(g, p, v);
    case Tune(_, getting, maxPending) =>
      var v := g[p].(getting := getting, maxPending := maxPending);
      Replaces(g, p, v);
      QueueKeeps(g, p, v);
  }

  lemma StepExchange<T>(g: Graph<T>, c: T, d: T)
    requires Good(g) && Closed(g) && Enabled(g, Exchange(c, d))
    ensures var a := Exchange(c, d);
      Good(Step(g, a)) && (Complete(g) ==> (Complete(Step(g, a)) <==> Careful(g, a)))
  {
    hide Complete, Good, Closed;
    var one := g[c := g[c].(plugged := Some(d))];
    Replaces(g, c, g[c].(plugged := Some(d)));
    QueueKeeps(g, c, g[c].(plugged := Some(d)));
    Replaces(one, d, one[d].(plugged := Some(c)));
    QueueKeeps(one, d, one[d].(plugged := Some(c)));
  }

  lemma StepAbort<T>(g: Graph<T>, c: T, reason: int)
    requires Good(g) && Closed(g) && Enabled(g, Abort(c, reason))
    ensures var a := Abort(c, reason);
      Good(Step(g, a)) && (Complete(g) ==> (Complete(Step(g, a)) <==> Careful(g, a)))
  {
    hide Complete, Owned, Sound, Closed, AbortOf;
    AbortKeeps(g, c, reason);
  }

  lemma {:induction false} RunGood<T>(run: seq<Action<T>>)
    requires Legal(run)
    ensures Good(After(run))
    decreases |run|
  {
    hide Good, Enabled, Step;
    if run == [] {
      NoneGood<T>();
    } else {
      RunGood(run[..|run| - 1]);
      StepGood(After(run[..|run| - 1]), run[|run| - 1]);
    }
  }

  lemma NoneGood<T>()
    ensures Good<T>(map[]) && Complete<T>(map[])
  {
  }

  /**
   In every run, every working channel always stands under its number with its parent if and only if no channel is
   made under a number that a working channel has, and no DESTROY request meets an unclaimed channel that is not the
   one registered.
   */
  lemma {:induction false} RegistrationExactly<T>(run: seq<Action<T>>)
    requires Legal(run)
    ensures AlwaysComplete(run) <==> AlwaysCareful(run)
    decreases |run|
  {
    hide Good, Enabled, Step, Complete, Careful;
    if run == [] {
      NoneGood<T>();
    } else {
      var before := run[..|run| - 1];
      RunGood(before);
      RegistrationExactly(before);
      StepGood(After(before), run[|run| - 1]);
      if AlwaysComplete(before) { LastComplete(before); }
    }
  }

  lemma LastComplete<T>(run: seq<Action<T>>)
    requires Legal(run) && AlwaysComplete(run)
    ensures Complete(After(run))
  {
  }
}
