/**
 Graphs of channels and what an abort does to them.  Channels form an arbitrary graph: plugs may make cycles,
 an aborting sub-channel edits its parent while the parent may itself be walking its sub-channels, and nothing
 is assumed about which channel a parent keeps under which number.
 */
module ChannelGraph {
  import opened Bytes

  const NO_ERROR: int := 0

  /** What one channel holds; references are to other channels of the graph, and an entry may have expired. */
  datatype View<T> = View(
    socket: bool,
    number: nat,
    positive: bool,
    next: nat,
    maxPending: nat,
    error: int,
    parent: Option<T>,
    plugged: Option<T>,
    subs: map<nat, Option<T>>,
    pending: seq<Option<T>>,
    getting: nat,
    receivingClosed: bool,
    goThrough: bool)

  type Graph<T> = map<T, View<T>>

  ghost predicate Inside<T>(c: Option<T>, g: Graph<T>) { c.Some? ==> c.value in g }

  ghost predicate RefsInside<T>(v: View<T>, g: Graph<T>)
  {
    && Inside(v.parent, g) && Inside(v.plugged, g)
    && (forall k :: k in v.subs ==> Inside(v.subs[k], g))
    && (forall i :: 0 <= i < |v.pending| ==> Inside(v.pending[i], g))
  }

  /** Everything a channel refers to is in the graph. */
  ghost predicate Closed<T>(g: Graph<T>)
  {
    forall c :: c in g ==> RefsInside(g[c], g)
  }

  ghost predicate InError<T>(g: Graph<T>, c: Option<T>) { c.Some? && c.value in g && g[c.value].error != NO_ERROR }

  /** Channels not yet in error. */
  ghost function Live<T>(g: Graph<T>): set<T>
  {
    set c | c in g && g[c].error == NO_ERROR
  }

  ghost predicate Submap<T>(a: map<nat, Option<T>>, b: map<nat, Option<T>>)
  {
    forall k :: k in b ==> k in a && b[k] == a[k]
  }

  // ---------------------------------------------------------------- what aborts leave alone

  /** Fields that no abort changes. */
  ghost predicate SameKind<T>(a: View<T>, b: View<T>)
  {
    && b.socket == a.socket && b.number == a.number && b.positive == a.positive && b.next == a.next
    && b.maxPending == a.maxPending && b.getting == a.getting
  }

  /** Fields that change only when the channel itself is aborted. */
  ghost predicate SameHold<T>(a: View<T>, b: View<T>)
  {
    b.plugged == a.plugged && b.pending == a.pending && b.receivingClosed == a.receivingClosed && b.goThrough == a.goThrough
  }

  ghost predicate AgedView<T>(a: View<T>, b: View<T>)
  {
    && SameKind(a, b) && Submap(a.subs, b.subs)
    && (a.error != NO_ERROR ==> b.error == a.error)
    && (b.parent == a.parent || (b.parent == None && b.error != NO_ERROR))
  }

  /** How aborts may age a graph; the channels in `open` are in the middle of their own. */
  ghost predicate Aged<T>(g: Graph<T>, h: Graph<T>, open: set<T>)
  {
    && h.Keys == g.Keys && Closed(h)
    && (forall c :: c in g ==> AgedView(g[c], h[c]))
    && (forall c :: c in g && c !in open && h[c].error == g[c].error ==> SameHold(g[c], h[c]))
  }

  lemma AgedSame<T>(g: Graph<T>, open: set<T>)
    requires Closed(g)
    ensures Aged(g, g, open)
  {
  }

  lemma AgedTwice<T>(f: Graph<T>, g: Graph<T>, h: Graph<T>, open: set<T>)
    requires Aged(f, g, open) && Aged(g, h, open)
    ensures Aged(f, h, open)
  {
    hide Closed;
    forall c | c in f ensures AgedView(f[c], h[c]) { assert AgedView(f[c], g[c]) && AgedView(g[c], h[c]); }
  }

  lemma AgedMore<T>(g: Graph<T>, h: Graph<T>, open: set<T>)
    requires Aged(g, h, {})
    ensures Aged(g, h, open)
  {
    hide Closed, AgedView, SameHold;
  }

  lemma AgedLive<T>(g: Graph<T>, h: Graph<T>, open: set<T>)
    requires Aged(g, h, open)
    ensures Live(h) <= Live(g)
    ensures forall c :: InError(g, c) ==> InError(h, c)
  {
    hide Closed;
  }

  /** Once `c` is in error its own changes are over. */
  lemma AgedDone<T>(g: Graph<T>, h: Graph<T>, c: T)
    requires Aged(g, h, {c}) && c in g && g[c].error == NO_ERROR && h[c].error != NO_ERROR
    ensures Aged(g, h, {})
  {
    hide Closed, AgedView, SameHold;
  }

  /** `c` gives up some of what it holds. */
  lemma AgedOwn<T>(g: Graph<T>, c: T, v: View<T>)
    requires Closed(g) && c in g && AgedView(g[c], v)
    requires v.plugged == None || v.plugged == g[c].plugged
    requires forall i :: 0 <= i < |v.pending| ==> v.pending[i] == None || v.pending[i] in g[c].pending
    ensures Aged(g, g[c := v], {c})
  {
    var h := g[c := v];
    forall d | d in h ensures RefsInside(h[d], h) {
      assert RefsInside(g[d], g);
      if d == c {
        forall i | 0 <= i < |v.pending| ensures Inside(v.pending[i], h) {
          if v.pending[i] != None {
            var j :| 0 <= j < |g[c].pending| && g[c].pending[j] == v.pending[i];
            assert Inside(g[c].pending[j], g);
          }
        }
      }
    }
  }

  // ---------------------------------------------------------------- the steps of an abort

  ghost function Failed<T>(g: Graph<T>, c: T, reason: int): Graph<T>
    requires c in g
  {
    g[c := g[c].(error := reason)]
  }

  /** `p` forgets what it keeps under a number. */
  ghost function StruckOff<T>(g: Graph<T>, p: T, number: nat): Graph<T>
    requires p in g
  {
    g[p := g[p].(subs := g[p].subs - {number})]
  }

  /** The error is set, and the parent strikes off whatever it keeps under the number. */
  ghost function Began<T>(g: Graph<T>, c: T, reason: int): Graph<T>
    requires c in g && Closed(g)
  {
    assert RefsInside(g[c], g);
    if g[c].socket || g[c].parent.None? then Failed(g, c, reason)
    else StruckOff(Failed(g, c, reason), g[c].parent.value, g[c].number)
  }

  lemma FailedAges<T>(g: Graph<T>, c: T, reason: int)
    requires Closed(g) && c in g && g[c].error == NO_ERROR
    ensures Aged(g, Failed(g, c, reason), {})
  {
    var h := Failed(g, c, reason);
    forall d | d in h ensures RefsInside(h[d], h) { assert RefsInside(g[d], g); }
  }

  lemma StruckOffAges<T>(g: Graph<T>, p: T, number: nat)
    requires Closed(g) && p in g
    ensures Aged(g, StruckOff(g, p, number), {})
  {
    var h := StruckOff(g, p, number);
    forall d | d in h ensures RefsInside(h[d], h) { assert RefsInside(g[d], g); }
  }

  lemma BeganAges<T>(g: Graph<T>, c: T, reason: int)
    requires Closed(g) && c in g && g[c].error == NO_ERROR && reason != NO_ERROR
    ensures var h := Began(g, c, reason); Aged(g, h, {}) && h[c].error == reason && SameHold(g[c], h[c])
  {
    hide Closed, Aged;
    var one := Failed(g, c, reason);
    FailedAges(g, c, reason);
    if !g[c].socket && g[c].parent.Some? {
      var p := ParentInside(g, c);
      AgedCloses(g, one);
      StruckOffAges(one, p, g[c].number);
      AgedTwice(g, one, StruckOff(one, p, g[c].number), {});
    }
  }

  lemma ParentInside<T>(g: Graph<T>, c: T) returns (p: T)
    requires Closed(g) && c in g && g[c].parent.Some?
    ensures p == g[c].parent.value && p in g
  {
    assert RefsInside(g[c], g);
    p := g[c].parent.value;
  }

  lemma AgedCloses<T>(g: Graph<T>, h: Graph<T>)
    requires Aged(g, h, {})
    ensures Closed(h) && h.Keys == g.Keys
  {
  }

  ghost function Detached<T>(g: Graph<T>, n: T): Graph<T>
    requires n in g
  {
    g[n := g[n].(parent := None)]
  }

  lemma DetachedCloses<T>(g: Graph<T>, n: T)
    requires Closed(g) && n in g
    ensures Closed(Detached(g, n)) && Live(Detached(g, n)) == Live(g)
  {
    var h := Detached(g, n);
    forall d | d in h ensures RefsInside(h[d], h) { assert RefsInside(g[d], g); }
  }

  /** Detaching a channel and putting it into error is aging. */
  lemma DetachedAges<T>(g: Graph<T>, n: T, h: Graph<T>)
    requires Closed(g) && n in g && Aged(Detached(g, n), h, {}) && h[n].error != NO_ERROR
    ensures Aged(g, h, {})
  {
    hide Closed;
    var f := Detached(g, n);
    forall c | c in g ensures AgedView(g[c], h[c]) { assert AgedView(f[c], h[c]); }
    assert SameHold(g[n], f[n]);
  }

  /** Receivers, takers and gated senders are released. */
  ghost function Unblocked<T>(v: View<T>): View<T>
  {
    v.(receivingClosed := true, goThrough := true, pending := v.pending + seq(v.getting, _ => None))
  }

  function OnlyNone<T>(s: seq<Option<T>>): (r: seq<Option<T>>)
    ensures forall i :: 0 <= i < |r| ==> r[i] == None
  {
    if s == [] then [] else (if s[0].None? then [None] else []) + OnlyNone(s[1..])
  }

  ghost function KeysFrom(keys: set<nat>, from: nat): set<nat> { set k | k in keys && from <= k }

  lemma {:induction false} Least(keys: set<nat>) returns (k: nat)
    requires keys != {}
    ensures k in keys && forall j :: j in keys ==> k <= j
    decreases keys
  {
    k :| k in keys;
    if j :| j in keys && j < k {
      var rest := keys - {k};
      assert j in rest;
      var l := Least(rest);
      assert forall i :: i in keys ==> i == k || i in rest;
      k := l;
    }
  }

  lemma LeastExists(keys: set<nat>)
    requires keys != {}
    ensures exists k :: k in keys && forall j :: j in keys ==> k <= j
  {
    var k := Least(keys);
  }

  /** The walk over the sub-channels goes on at the least number from `from` on. */
  ghost function NextKey(keys: set<nat>, from: nat): (r: Option<nat>)
    ensures r.Some? ==> r.value in keys && from <= r.value && forall j :: j in keys && from <= j ==> r.value <= j
    ensures r.None? ==> forall j :: j in keys ==> j < from
  {
    var rest := KeysFrom(keys, from);
    if rest == {} then
      assert forall j :: j in keys && from <= j ==> j in rest;
      None
    else
      LeastExists(rest);
      var k :| k in rest && forall j :: j in rest ==> k <= j;
      assert forall j :: j in keys && from <= j ==> j in rest;
      Some(k)
  }

  lemma KeysFromShrinks(a: set<nat>, b: set<nat>, from: nat, k: nat)
    requires b <= a && from <= k && k in a
    ensures KeysFrom(b, k + 1) < KeysFrom(a, from)
  {
    assert k in KeysFrom(a, from) && k !in KeysFrom(b, k + 1);
  }

  /** The whole abort of `c`; a channel already in error is left alone. */
  ghost function AbortOf<T>(g: Graph<T>, c: T, reason: int): (h: Graph<T>)
    requires Closed(g) && c in g && reason != NO_ERROR
    ensures Aged(g, h, {}) && h[c].error == if g[c].error == NO_ERROR then reason else g[c].error
    decreases Live(g), 0
  {
    if g[c].error != NO_ERROR then AgedSame(g, {}); g
    else
      var one := Began(g, c, reason);
      BeganAges(g, c, reason);
      BeganLess(g, one, c);
      var h := Release(one, c, reason);
      AgedTwice(g, one, h, {c});
      AgedDone(g, h, c);
      h
  }

  /**
   The part common to all channels: the plugged channel, everyone blocked, the sub-channels in the order of their
   numbers, the channels nobody has claimed.
   */
  ghost function Release<T>(g: Graph<T>, c: T, reason: int): (h: Graph<T>)
    requires Closed(g) && c in g && reason != NO_ERROR && g[c].error != NO_ERROR
    ensures Aged(g, h, {c}) && h[c].error == g[c].error
    decreases Live(g), 3
  {
    var g1 := AbortPlugged(g, c, reason);
    var g2 := g1[c := Unblocked(g1[c])];
    UnblockedAges(g1, c);
    ThenOpen(g, g1, g2, c);
    var g3 := VisitSubs(g2, c, 0);
    ThenNested(g, g2, g3, c);
    var g4 := ForgotSubs(g3, c);
    ThenOpen(g, g3, g4, c);
    var g5 := VisitPending(g4, c, 0);
    ThenNested(g, g4, g5, c);
    var h := ForgotPending(g5, c);
    ThenOpen(g, g5, h, c);
    h
  }

  ghost function AbortPlugged<T>(g: Graph<T>, c: T, reason: int): (h: Graph<T>)
    requires Closed(g) && c in g && reason != NO_ERROR && g[c].error != NO_ERROR
    ensures Aged(g, h, {c}) && h[c].error == g[c].error
    decreases Live(g), 1
  {
    assert RefsInside(g[c], g);
    if g[c].plugged.None? then AgedSame(g, {c}); g
    else
      var x := AbortOf(g, g[c].plugged.value, reason);
      AgedMore(g, x, {c});
      AgedOwn(x, c, x[c].(plugged := None));
      AgedTwice(g, x, x[c := x[c].(plugged := None)], {c});
      x[c := x[c].(plugged := None)]
  }

  ghost function ForgotSubs<T>(g: Graph<T>, c: T): (h: Graph<T>)
    requires Closed(g) && c in g
    ensures Aged(g, h, {c}) && h[c].error == g[c].error
  {
    AgedOwn(g, c, g[c].(subs := map[]));
    g[c := g[c].(subs := map[])]
  }

  ghost function ForgotPending<T>(g: Graph<T>, c: T): (h: Graph<T>)
    requires Closed(g) && c in g
    ensures Aged(g, h, {c}) && h[c].error == g[c].error
  {
    AgedOwn(g, c, g[c].(pending := OnlyNone(g[c].pending)));
    g[c := g[c].(pending := OnlyNone(g[c].pending))]
  }

  /** An attached channel is cut loose and aborted. */
  ghost function AbortAttached<T>(g: Graph<T>, n: T, reason: int): (h: Graph<T>)
    requires Closed(g) && n in g && reason != NO_ERROR
    ensures Aged(g, h, {}) && h[n].error != NO_ERROR
    decreases Live(g), 1, 0
  {
    DetachedCloses(g, n);
    var h := AbortOf(Detached(g, n), n, reason);
    DetachedAges(g, n, h);
    h
  }

  /** The sub-channels from `from` on, though each abort may strike entries off. */
  ghost function VisitSubs<T>(g: Graph<T>, c: T, from: nat): (h: Graph<T>)
    requires Closed(g) && c in g && g[c].error != NO_ERROR
    ensures Aged(g, h, {})
    decreases Live(g), 2, KeysFrom(g[c].subs.Keys, from)
  {
    var k := NextKey(g[c].subs.Keys, from);
    if k.None? then AgedSame(g, {}); g
    else
      var h := VisitOne(g, c, g[c].subs[k.value]);
      AgedLive(g, h, {});
      KeysFromShrinks(g[c].subs.Keys, h[c].subs.Keys, from, k.value);
      AgedTwice(g, h, VisitSubs(h, c, k.value + 1), {});
      VisitSubs(h, c, k.value + 1)
  }

  ghost function VisitOne<T>(g: Graph<T>, c: T, n: Option<T>): (h: Graph<T>)
    requires Closed(g) && c in g && g[c].error != NO_ERROR && Inside(n, g)
    ensures Aged(g, h, {}) && (n.Some? ==> InError(h, n)) && h[c].error == g[c].error
    decreases Live(g), 1, 1
  {
    if n.None? then AgedSame(g, {}); g else AbortAttached(g, n.value, g[c].error)
  }

  ghost function VisitPending<T>(g: Graph<T>, c: T, i: nat): (h: Graph<T>)
    requires Closed(g) && c in g && g[c].error != NO_ERROR && i <= |g[c].pending|
    ensures Aged(g, h, {})
    decreases Live(g), 2, |g[c].pending| - i
  {
    if i == |g[c].pending| then AgedSame(g, {}); g
    else
      var h := VisitOne(g, c, g[c].pending[i]);
      AgedLive(g, h, {});
      AgedTwice(g, h, VisitPending(h, c, i + 1), {});
      VisitPending(h, c, i + 1)
  }

  lemma BeganLess<T>(g: Graph<T>, h: Graph<T>, c: T)
    requires Aged(g, h, {}) && c in g && g[c].error == NO_ERROR && h[c].error != NO_ERROR
    ensures Live(h) < Live(g) && Aged(g, h, {c})
  {
    AgedLive(g, h, {});
    AgedMore(g, h, {c});
    assert c in Live(g) && c !in Live(h);
  }

  lemma UnblockedAges<T>(g: Graph<T>, c: T)
    requires Closed(g) && c in g
    ensures Aged(g, g[c := Unblocked(g[c])], {c})
  {
    AgedOwn(g, c, Unblocked(g[c]));
  }

  lemma ThenOpen<T>(f: Graph<T>, g: Graph<T>, h: Graph<T>, c: T)
    requires Aged(f, g, {c}) && Aged(g, h, {c})
    ensures Aged(f, h, {c}) && Live(h) <= Live(f)
  {
    AgedLive(f, g, {c});
    AgedLive(g, h, {c});
    AgedTwice(f, g, h, {c});
  }

  lemma ThenNested<T>(f: Graph<T>, g: Graph<T>, h: Graph<T>, c: T)
    requires Aged(f, g, {c}) && Aged(g, h, {})
    ensures Aged(f, h, {c}) && Live(h) <= Live(f)
  {
    AgedLive(f, g, {c});
    AgedLive(g, h, {});
    AgedMore(g, h, {c});
    AgedTwice(f, g, h, {c});
  }
}
