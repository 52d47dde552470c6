/** What an abort reaches: the channels it releases, and the entries it strikes off on the way. */
module ChannelSpread {
  import opened Bytes
  import opened ChannelGraph

  /** An aborted channel: detached from everything below, its receivers and senders released. */
  ghost predicate Released<T>(v: View<T>)
  {
    && v.plugged == None && v.subs == map[] && (forall i :: 0 <= i < |v.pending| ==> v.pending[i] == None)
    && v.receivingClosed && v.goThrough
  }

  /** Between `g` and `h` a channel that `p` was the parent of, with this number, was aborted. */
  ghost predicate Struck<T>(g: Graph<T>, h: Graph<T>, p: T, number: nat)
  {
    exists d :: d in g && Attached(g, d, p, number) && InError(h, Some(d))
  }

  /** A working channel that will have `p` strike off the number when it is aborted. */
  ghost predicate Attached<T>(g: Graph<T>, d: T, p: T, number: nat)
    requires d in g
  {
    g[d].error == NO_ERROR && !g[d].socket && g[d].parent == Some(p) && g[d].number == number
  }

  /** What `c` lost on the way was struck off. */
  ghost predicate LostStruck<T>(g: Graph<T>, h: Graph<T>, c: T)
    requires c in g && c in h
  {
    forall k :: k in g[c].subs && k !in h[c].subs ==> Struck(g, h, c, k)
  }

  ghost predicate PlugFailed<T>(g: Graph<T>, h: Graph<T>, c: T)
    requires c in g
  {
    g[c].plugged.Some? ==> InError(h, g[c].plugged)
  }

  ghost predicate PendingFailed<T>(g: Graph<T>, h: Graph<T>, c: T)
    requires c in g
  {
    forall n :: n in g[c].pending && n.Some? ==> InError(h, n)
  }

  /** Each sub-channel from a number on is in error, or was struck off before its turn. */
  ghost predicate SubsFailed<T>(g: Graph<T>, h: Graph<T>, c: T, from: nat)
    requires c in g
  {
    forall k :: k in g[c].subs && from <= k && g[c].subs[k].Some? ==> InError(h, g[c].subs[k]) || Struck(g, h, c, k)
  }

  /** Each of the callers that waited for a channel, and those woken before, finds a wake-up. */
  ghost predicate Woken<T>(g: Graph<T>, h: Graph<T>, c: T)
    requires c in g && c in h
  {
    |h[c].pending| == multiset(g[c].pending)[None] + g[c].getting
  }

  ghost predicate Passed<T>(g: Graph<T>, h: Graph<T>, c: T)
    requires c in g && c in h
  {
    && (h[c].error == g[c].error ==> LostStruck(g, h, c))
    && (h[c].error != g[c].error ==>
          Released(h[c]) && Woken(g, h, c) && PlugFailed(g, h, c) && PendingFailed(g, h, c) && SubsFailed(g, h, c, 0))
  }

  /** How aborts change a graph; the channels in `open` are in the middle of their own. */
  ghost predicate Spread<T>(g: Graph<T>, h: Graph<T>, open: set<T>)
  {
    Aged(g, h, open) && forall c :: c in g && c !in open ==> Passed(g, h, c)
  }

  // ---------------------------------------------------------------- spreading composes

  lemma StruckLater<T>(f: Graph<T>, g: Graph<T>, h: Graph<T>, open: set<T>, p: T, k: nat)
    requires Aged(g, h, open) && Struck(f, g, p, k)
    ensures Struck(f, h, p, k)
  {
    AgedLive(g, h, open);
    var d :| d in f && Attached(f, d, p, k) && InError(g, Some(d));
    assert InError(h, Some(d));
  }

  lemma StruckEarlier<T>(f: Graph<T>, g: Graph<T>, h: Graph<T>, open: set<T>, p: T, k: nat)
    requires Aged(f, g, open) && Struck(g, h, p, k)
    ensures Struck(f, h, p, k)
  {
    var d :| d in g && Attached(g, d, p, k) && InError(h, Some(d));
    assert AgedView(f[d], g[d]);
    assert Attached(f, d, p, k);
  }

  lemma LostTwice<T>(f: Graph<T>, g: Graph<T>, h: Graph<T>, open: set<T>, c: T)
    requires Aged(f, g, open) && Aged(g, h, open) && c in f && LostStruck(f, g, c) && LostStruck(g, h, c)
    ensures LostStruck(f, h, c)
  {
    hide Struck, Closed, AgedView, SameHold;
    forall k | k in f[c].subs && k !in h[c].subs ensures Struck(f, h, c, k) {
      if k !in g[c].subs { StruckLater(f, g, h, open, c, k); } else { StruckEarlier(f, g, h, open, c, k); }
    }
  }

  lemma SubsFailedLater<T>(f: Graph<T>, g: Graph<T>, h: Graph<T>, open: set<T>, c: T, from: nat)
    requires Aged(g, h, open) && c in f && SubsFailed(f, g, c, from)
    ensures SubsFailed(f, h, c, from)
  {
    hide Struck, Closed, AgedView, SameHold;
    AgedLive(g, h, open);
    forall k | k in f[c].subs && from <= k && f[c].subs[k].Some?
      ensures InError(h, f[c].subs[k]) || Struck(f, h, c, k)
    {
      if !InError(g, f[c].subs[k]) { StruckLater(f, g, h, open, c, k); }
    }
  }

  /** What was lost before the walk was struck off, and the walk dealt with the rest. */
  lemma SubsFailedEarlier<T>(f: Graph<T>, g: Graph<T>, h: Graph<T>, open: set<T>, c: T)
    requires Aged(f, g, open) && Aged(g, h, open) && c in f && LostStruck(f, g, c) && SubsFailed(g, h, c, 0)
    ensures SubsFailed(f, h, c, 0)
  {
    hide Struck, Closed, SameHold;
    forall k | k in f[c].subs && f[c].subs[k].Some? ensures InError(h, f[c].subs[k]) || Struck(f, h, c, k) {
      if k !in g[c].subs {
        StruckLater(f, g, h, open, c, k);
      } else {
        assert AgedView(f[c], g[c]);
        if !InError(h, g[c].subs[k]) { StruckEarlier(f, g, h, open, c, k); }
      }
    }
  }

  lemma ReleasedStays<T>(a: View<T>, b: View<T>)
    requires Released(a) && AgedView(a, b) && SameHold(a, b)
    ensures Released(b)
  {
    assert b.subs == map[];
  }

  lemma PassedTwice<T>(f: Graph<T>, g: Graph<T>, h: Graph<T>, open: set<T>, c: T)
    requires Aged(f, g, open) && Aged(g, h, open) && c in f && c !in open && Passed(f, g, c) && Passed(g, h, c)
    ensures Passed(f, h, c)
  {
    hide Struck, LostStruck, SubsFailed, Released, Closed;
    assert AgedView(f[c], g[c]) && AgedView(g[c], h[c]);
    AgedLive(g, h, open);
    if g[c].error == f[c].error {
      if h[c].error == g[c].error {
        LostTwice(f, g, h, open, c);
      } else {
        SubsFailedEarlier(f, g, h, open, c);
      }
    } else {
      ReleasedStays(g[c], h[c]);
      SubsFailedLater(f, g, h, open, c, 0);
    }
  }

  lemma SpreadTwice<T>(f: Graph<T>, g: Graph<T>, h: Graph<T>, open: set<T>)
    requires Spread(f, g, open) && Spread(g, h, open)
    ensures Spread(f, h, open)
  {
    hide Passed, Aged;
    AgedTwice(f, g, h, open);
    SameChannels(f, g, open);
    SameChannels(g, h, open);
    forall c | c in f && c !in open ensures Passed(f, h, c) { PassedTwice(f, g, h, open, c); }
  }

  lemma SameChannels<T>(g: Graph<T>, h: Graph<T>, open: set<T>)
    requires Aged(g, h, open)
    ensures h.Keys == g.Keys && Closed(h)
  {
  }

  lemma SpreadMore<T>(g: Graph<T>, h: Graph<T>, open: set<T>)
    requires Spread(g, h, {})
    ensures Spread(g, h, open)
  {
    hide Passed, Aged;
    AgedMore(g, h, open);
  }

  lemma SpreadSame<T>(g: Graph<T>, open: set<T>)
    requires Closed(g)
    ensures Spread(g, g, open)
  {
    hide Closed;
    AgedSame(g, open);
  }

  /** A step that changes one open channel only. */
  lemma SpreadOwn<T>(g: Graph<T>, c: T, v: View<T>)
    requires c in g && Aged(g, g[c := v], {c})
    ensures Spread(g, g[c := v], {c})
  {
    hide Closed, AgedView;
  }

  lemma BeganIs<T>(g: Graph<T>, c: T, reason: int)
    requires Closed(g) && c in g
    ensures var h := Began(g, c, reason);
      && h.Keys == g.Keys
      && (forall d :: d in g ==> h[d].error == if d == c then reason else g[d].error)
      && (forall p, k :: p in g && k in g[p].subs && k !in h[p].subs ==>
            !g[c].socket && g[c].parent == Some(p) && k == g[c].number)
      && (!g[c].socket && g[c].parent.Some? ==> g[c].parent.value in g && g[c].number !in h[g[c].parent.value].subs)
  {
    assert RefsInside(g[c], g);
    hide Closed;
  }

  lemma SpreadBegan<T>(g: Graph<T>, c: T, reason: int)
    requires Closed(g) && c in g && g[c].error == NO_ERROR && reason != NO_ERROR
    ensures var h := Began(g, c, reason); Spread(g, h, {c}) && LostStruck(g, h, c)
  {
    hide Closed, Began, Aged;
    var h := Began(g, c, reason);
    BeganAges(g, c, reason);
    BeganIs(g, c, reason);
    AgedMore(g, h, {c});
    forall d | d in g ensures LostStruck(g, h, d) {
      forall k | k in g[d].subs && k !in h[d].subs ensures Struck(g, h, d, k) {
        assert Attached(g, c, d, k) && InError(h, Some(c));
      }
    }
  }

  /** Detaching a channel before its abort changes nothing that spreads. */
  lemma SpreadDetached<T>(g: Graph<T>, n: T, h: Graph<T>)
    requires Closed(g) && n in g && Spread(Detached(g, n), h, {}) && h[n].error != NO_ERROR
    ensures Spread(g, h, {})
  {
    hide Closed;
    var f := Detached(g, n);
    DetachedAges(g, n, h);
    forall c | c in g ensures Passed(g, h, c) {
      assert Passed(f, h, c);
      hide Passed, Released, Aged;
      forall k: nat ensures Struck(f, h, c, k) ==> Struck(g, h, c, k) { DetachedStruck(g, n, h, c, k); }
      DetachedPassed(g, n, h, c);
    }
  }

  lemma DetachedStruck<T>(g: Graph<T>, n: T, h: Graph<T>, p: T, k: nat)
    requires n in g
    ensures Struck(Detached(g, n), h, p, k) ==> Struck(g, h, p, k)
  {
    var f := Detached(g, n);
    if Struck(f, h, p, k) {
      var d :| d in f && Attached(f, d, p, k) && InError(h, Some(d));
      assert Attached(g, d, p, k);
    }
  }

  lemma DetachedPassed<T>(g: Graph<T>, n: T, h: Graph<T>, c: T)
    requires n in g && c in g && c in h && Passed(Detached(g, n), h, c)
    requires forall k: nat :: Struck(Detached(g, n), h, c, k) ==> Struck(g, h, c, k)
    ensures Passed(g, h, c)
  {
    hide Struck, Released;
    var f := Detached(g, n);
    assert f[c].subs == g[c].subs && f[c].pending == g[c].pending && f[c].plugged == g[c].plugged && f[c].error == g[c].error;
  }

  // ---------------------------------------------------------------- an abort spreads

  /** Whatever the graph: each channel newly in error is released, and what hung on it has failed or was struck off. */
  lemma {:induction false} AbortSpreads<T>(g: Graph<T>, c: T, reason: int)
    requires Closed(g) && c in g && reason != NO_ERROR
    ensures Spread(g, AbortOf(g, c, reason), {})
    decreases Live(g), 0
  {
    hide Spread, Closed, Aged, Release, Began, LostStruck, SubsFailed, Released;
    if g[c].error != NO_ERROR {
      SpreadSame(g, {});
    } else {
      var one, h := Began(g, c, reason), AbortOf(g, c, reason);
      BeganAges(g, c, reason);
      BeganLess(g, one, c);
      SpreadBegan(g, c, reason);
      SameChannels(g, one, {});
      ReleaseSpreads(one, c, reason);
      SpreadTwice(g, one, h, {c});
      IsAged(g, one, {c});
      IsAged(one, h, {c});
      SubsFailedEarlier(g, one, h, {c}, c);
      BeganWaits(g, c, reason);
      SpreadDone(g, h, c);
    }
  }

  lemma BeganWaits<T>(g: Graph<T>, c: T, reason: int)
    requires Closed(g) && c in g && reason != NO_ERROR && g[c].error == NO_ERROR
    ensures var one := Began(g, c, reason); c in one && one[c].pending == g[c].pending && one[c].getting == g[c].getting
  {
  }

  lemma IsAged<T>(g: Graph<T>, h: Graph<T>, open: set<T>)
    requires Spread(g, h, open)
    ensures Aged(g, h, open)
  {
  }

  lemma SpreadDone<T>(g: Graph<T>, h: Graph<T>, c: T)
    requires Spread(g, h, {c}) && c in g && c in h && g[c].error == NO_ERROR && h[c].error != NO_ERROR
    requires Released(h[c]) && Woken(g, h, c) && PlugFailed(g, h, c) && PendingFailed(g, h, c) && SubsFailed(g, h, c, 0)
    ensures Spread(g, h, {})
  {
    hide Aged, Released, SubsFailed, LostStruck, PendingFailed;
    AgedDone(g, h, c);
  }

  /** What `c` held when its release began has failed. */
  ghost predicate AllFailed<T>(g: Graph<T>, h: Graph<T>, c: T)
    requires c in g && c in h
  {
    Released(h[c]) && Woken(g, h, c) && PlugFailed(g, h, c) && PendingFailed(g, h, c) && SubsFailed(g, h, c, 0)
  }

  lemma {:induction false} ReleaseSpreads<T>(g: Graph<T>, c: T, reason: int)
    requires Closed(g) && c in g && reason != NO_ERROR && g[c].error != NO_ERROR
    ensures var h := Release(g, c, reason); Spread(g, h, {c}) && AllFailed(g, h, c)
    decreases Live(g), 3
  {
    hide Spread, Closed, Aged, AbortPlugged, VisitSubs, VisitPending, LostStruck, SubsFailed, ForgotSubs, ForgotPending,
         PendingFailed, PlugFailed, AllFailed;
    var g1 := AbortPlugged(g, c, reason);
    PluggedSpreads(g, c, reason);
    SameChannels(g, g1, {c});
    var g2 := g1[c := Unblocked(g1[c])];
    UnblockedAges(g1, c);
    SpreadOwn(g1, c, Unblocked(g1[c]));
    SpreadTwice(g, g1, g2, {c});
    ThenOpen(g, g1, g2, c);
    SameChannels(g, g2, {c});
    var g3 := VisitSubs(g2, c, 0);
    SubsSpread(g2, c, 0);
    NestedKeeps(g2, g3, c);
    ThenNested(g, g2, g3, c);
    SameChannels(g, g3, {c});
    var g4 := ForgotSubs(g3, c);
    ForgotSpreads(g3, c);
    ThenOpen(g, g3, g4, c);
    SameChannels(g, g4, {c});
    var g5 := VisitPending(g4, c, 0);
    PendingSpread(g4, c, 0);
    NestedKeeps(g4, g5, c);
    assert g4[c].pending[0..] == g4[c].pending;
    assert PendingFailed(g4, g5, c) by { AllWaiting(g4, g5, c); }
    ThenNested(g, g4, g5, c);
    SameChannels(g, g5, {c});
    ForgotSpreads(g5, c);
    var h := Release(g, c, reason);
    SpreadMore(g2, g3, {c});
    SpreadMore(g4, g5, {c});
    SpreadTwice(g, g2, g3, {c});
    SpreadTwice(g, g3, g4, {c});
    SpreadTwice(g, g4, g5, {c});
    SpreadTwice(g, g5, h, {c});
    Stages(g, g1, g2, g3, g4, g5, h, c);
  }

  lemma Stages<T>(g: Graph<T>, g1: Graph<T>, g2: Graph<T>, g3: Graph<T>, g4: Graph<T>, g5: Graph<T>, h: Graph<T>, c: T)
    requires c in g && Aged(g, g1, {c}) && PlugFailed(g, g1, c) && LostStruck(g, g1, c)
    requires g1[c].plugged == None && g1[c].pending == g[c].pending
    requires g2 == g1[c := Unblocked(g1[c])]
    requires Aged(g1, g2, {c}) && Aged(g2, g3, {}) && SubsFailed(g2, g3, c, 0) && g2[c].error != NO_ERROR
    requires Aged(g3, g4, {c}) && g4 == g3[c := g3[c].(subs := map[])]
    requires Aged(g4, g5, {}) && PendingFailed(g4, g5, c)
    requires Aged(g5, h, {c}) && h == g5[c := g5[c].(pending := OnlyNone(g5[c].pending))]
    ensures AllFailed(g, h, c)
  {
    hide SubsFailed, LostStruck, Closed, Struck;
    StagesSubs(g, g1, g2, g3, c);
    AgedView4(g4, g5, c);
    assert SameHold(g2[c], g3[c]);
    assert g1[c].getting == g[c].getting by { assert AgedView(g[c], g1[c]); }
    AgedLive(g1, g2, {c});
    AgedLive(g2, g3, {});
    AgedLive(g3, g4, {c});
    AgedLive(g4, g5, {});
    AgedLive(g5, h, {c});
    hide Aged, Unblocked, OnlyNone, Woken;
    SubsFailedLater(g, g3, g4, {c}, c, 0);
    SubsFailedLater(g, g4, g5, {}, c, 0);
    SubsFailedLater(g, g5, h, {c}, c, 0);
    StagesPending(g, g1, g4, h, c);
    StagesWoken(g, g1[c], g4[c], g5[c], h, c);
  }

  lemma StagesWoken<T>(g: Graph<T>, v1: View<T>, v4: View<T>, v5: View<T>, h: Graph<T>, c: T)
    requires c in g && c in h && v1.pending == g[c].pending && v1.getting == g[c].getting
    requires v4.pending == Unblocked(v1).pending && v5.pending == v4.pending && h[c].pending == OnlyNone(v5.pending)
    ensures Woken(g, h, c)
  {
    CountNone(v5.pending);
    AllNone<T>(v1.getting);
  }

  lemma {:induction false} CountNone<T>(s: seq<Option<T>>)
    ensures |OnlyNone(s)| == multiset(s)[None]
  {
    if s != [] {
      CountNone(s[1..]);
      assert s == [s[0]] + s[1..];
    }
  }

  lemma {:induction false} AllNone<T>(n: nat)
    ensures multiset(seq<Option<T>>(n, _ => None))[None] == n
  {
    if n > 0 {
      AllNone<T>(n - 1);
      assert seq<Option<T>>(n, _ => None) == seq<Option<T>>(n - 1, _ => None) + [None];
    }
  }

  lemma AgedView4<T>(g: Graph<T>, h: Graph<T>, c: T)
    requires Aged(g, h, {}) && c in g && g[c].error != NO_ERROR && g[c].subs == map[]
    ensures c in h && h[c].subs == map[] && SameHold(g[c], h[c])
  {
    hide Closed;
    assert AgedView(g[c], h[c]);
  }

  lemma StagesPending<T>(g: Graph<T>, g1: Graph<T>, g4: Graph<T>, h: Graph<T>, c: T)
    requires c in g && c in g1 && c in g4 && g1[c].pending == g[c].pending && g4[c].pending == Unblocked(g1[c]).pending
    requires forall n :: n in g4[c].pending && n.Some? ==> InError(h, n)
    ensures PendingFailed(g, h, c)
  {
    forall n | n in g[c].pending && n.Some? ensures InError(h, n) { assert n in g4[c].pending; }
  }

  lemma StagesSubs<T>(g: Graph<T>, g1: Graph<T>, g2: Graph<T>, g3: Graph<T>, c: T)
    requires c in g && Aged(g, g1, {c}) && LostStruck(g, g1, c) && c in g1 && g2 == g1[c := Unblocked(g1[c])]
    requires Aged(g1, g2, {c}) && Aged(g2, g3, {}) && SubsFailed(g2, g3, c, 0)
    ensures SubsFailed(g, g3, c, 0)
  {
    hide Aged, SubsFailed, LostStruck;
    OwnLosesNothing(g1, g2, c);
    LostTwice(g, g1, g2, {c}, c);
    AgedTwice(g, g1, g2, {c});
    AgedMore(g2, g3, {c});
    SubsFailedEarlier(g, g2, g3, {c}, c);
  }

  lemma AllWaiting<T>(g: Graph<T>, h: Graph<T>, c: T)
    requires c in g && forall n :: n in g[c].pending[0..] && n.Some? ==> InError(h, n)
    ensures PendingFailed(g, h, c)
  {
    assert g[c].pending[0..] == g[c].pending;
  }

  lemma OwnLosesNothing<T>(g: Graph<T>, h: Graph<T>, c: T)
    requires c in g && c in h && h[c].subs == g[c].subs
    ensures LostStruck(g, h, c)
  {
  }

  lemma ForgotSpreads<T>(g: Graph<T>, c: T)
    requires Closed(g) && c in g
    ensures Spread(g, ForgotSubs(g, c), {c}) && Spread(g, ForgotPending(g, c), {c})
    ensures ForgotSubs(g, c) == g[c := g[c].(subs := map[])]
    ensures ForgotPending(g, c) == g[c := g[c].(pending := OnlyNone(g[c].pending))]
    ensures Aged(g, ForgotSubs(g, c), {c}) && Aged(g, ForgotPending(g, c), {c})
  {
    hide Spread, Aged, Closed, OnlyNone;
    assert ForgotSubs(g, c) == g[c := g[c].(subs := map[])];
    assert ForgotPending(g, c) == g[c := g[c].(pending := OnlyNone(g[c].pending))];
    SpreadOwn(g, c, g[c].(subs := map[]));
    SpreadOwn(g, c, g[c].(pending := OnlyNone(g[c].pending)));
  }

  lemma {:induction false} PluggedSpreads<T>(g: Graph<T>, c: T, reason: int)
    requires Closed(g) && c in g && reason != NO_ERROR && g[c].error != NO_ERROR
    ensures var h := AbortPlugged(g, c, reason);
      && Aged(g, h, {c}) && Spread(g, h, {c}) && PlugFailed(g, h, c) && LostStruck(g, h, c)
      && h[c].plugged == None && h[c].pending == g[c].pending
    decreases Live(g), 1
  {
    hide Spread, Aged, AbortOf, Struck;
    assert RefsInside(g[c], g);
    hide Closed;
    if g[c].plugged.None? {
      SpreadSame(g, {c});
    } else {
      var n := g[c].plugged.value;
      AbortSpreads(g, n, reason);
      var x := AbortOf(g, n, reason);
      SameChannels(g, x, {});
      var h := x[c := x[c].(plugged := None)];
      SpreadMore(g, x, {c});
      AgedOwn(x, c, x[c].(plugged := None));
      SpreadOwn(x, c, x[c].(plugged := None));
      SpreadTwice(g, x, h, {c});
      NestedKeeps(g, x, c);
      OwnLosesNothing(x, h, c);
      AgedMore(g, x, {c});
      LostTwice(g, x, h, {c}, c);
      AgedLive(x, h, {c});
    }
  }

  /** A nested abort takes nothing from a channel in error but what it strikes off. */
  lemma NestedKeeps<T>(g: Graph<T>, h: Graph<T>, c: T)
    requires Spread(g, h, {}) && c in g && g[c].error != NO_ERROR
    ensures c in h && h[c].error == g[c].error && SameHold(g[c], h[c]) && LostStruck(g, h, c) && Submap(g[c].subs, h[c].subs)
  {
    hide LostStruck, Closed;
    assert AgedView(g[c], h[c]);
    assert Passed(g, h, c);
  }

  lemma {:induction false} OneSpreads<T>(g: Graph<T>, c: T, n: Option<T>)
    requires Closed(g) && c in g && g[c].error != NO_ERROR && Inside(n, g)
    ensures var h := VisitOne(g, c, n); Spread(g, h, {}) && (n.Some? ==> InError(h, n))
    decreases Live(g), 1, 1
  {
    hide Spread, Aged, AbortOf;
    if n.None? {
      SpreadSame(g, {});
    } else {
      DetachedCloses(g, n.value);
      AbortSpreads(Detached(g, n.value), n.value, g[c].error);
      SpreadDetached(g, n.value, AbortOf(Detached(g, n.value), n.value, g[c].error));
    }
  }

  lemma {:induction false} SubsSpread<T>(g: Graph<T>, c: T, from: nat)
    requires Closed(g) && c in g && g[c].error != NO_ERROR
    ensures var h := VisitSubs(g, c, from); Spread(g, h, {}) && SubsFailed(g, h, c, from)
    decreases Live(g), 2, KeysFrom(g[c].subs.Keys, from)
  {
    hide Spread, Aged, VisitOne, Struck, Closed, LostStruck;
    var k := NextKey(g[c].subs.Keys, from);
    if k.None? {
      SpreadSame(g, {});
    } else {
      var n := g[c].subs[k.value];
      EntryInside(g, c, k.value);
      var h := VisitOne(g, c, n);
      OneSpreads(g, c, n);
      SameChannels(g, h, {});
      NestedKeeps(g, h, c);
      AgedLive(g, h, {});
      KeysFromShrinks(g[c].subs.Keys, h[c].subs.Keys, from, k.value);
      SubsSpread(h, c, k.value + 1);
      var j := VisitSubs(h, c, k.value + 1);
      SpreadTwice(g, h, j, {});
      WalkGoesOn(g, h, j, c, from, k.value);
    }
  }

  lemma EntryInside<T>(g: Graph<T>, c: T, k: nat)
    requires Closed(g) && c in g && k in g[c].subs
    ensures Inside(g[c].subs[k], g)
  {
    assert RefsInside(g[c], g);
  }

  lemma WaitingInside<T>(g: Graph<T>, c: T, i: nat)
    requires Closed(g) && c in g && i < |g[c].pending|
    ensures Inside(g[c].pending[i], g)
  {
    assert RefsInside(g[c], g);
  }

  lemma WalkGoesOn<T>(g: Graph<T>, h: Graph<T>, j: Graph<T>, c: T, from: nat, k: nat)
    requires Aged(g, h, {}) && Aged(h, j, {}) && c in g && from <= k && k in g[c].subs
    requires forall i :: i in g[c].subs && from <= i ==> k <= i
    requires g[c].subs[k].Some? ==> InError(h, g[c].subs[k])
    requires LostStruck(g, h, c) && SubsFailed(h, j, c, k + 1)
    ensures SubsFailed(g, j, c, from)
  {
    hide Struck, Closed, SameHold;
    AgedLive(h, j, {});
    assert AgedView(g[c], h[c]);
    forall i | i in g[c].subs && from <= i && g[c].subs[i].Some?
      ensures InError(j, g[c].subs[i]) || Struck(g, j, c, i)
    {
      if i != k {
        if i !in h[c].subs {
          StruckLater(g, h, j, {}, c, i);
        } else if !InError(j, h[c].subs[i]) {
          StruckEarlier(g, h, j, {}, c, i);
        }
      }
    }
  }

  lemma {:induction false} PendingSpread<T>(g: Graph<T>, c: T, i: nat)
    requires Closed(g) && c in g && g[c].error != NO_ERROR && i <= |g[c].pending|
    ensures var h := VisitPending(g, c, i);
      Spread(g, h, {}) && forall n :: n in g[c].pending[i..] && n.Some? ==> InError(h, n)
    decreases Live(g), 2, |g[c].pending| - i
  {
    hide Spread, Aged, VisitOne, Closed, LostStruck;
    if i == |g[c].pending| {
      SpreadSame(g, {});
    } else {
      var n := g[c].pending[i];
      WaitingInside(g, c, i);
      var h := VisitOne(g, c, n);
      OneSpreads(g, c, n);
      SameChannels(g, h, {});
      NestedKeeps(g, h, c);
      AgedLive(g, h, {});
      PendingSpread(h, c, i + 1);
      var j := VisitPending(h, c, i + 1);
      AgedLive(h, j, {});
      SpreadTwice(g, h, j, {});
      assert g[c].pending[i..] == [n] + g[c].pending[i + 1..];
    }
  }

  // ---------------------------------------------------------------- everything reachable

  /** Every channel in error has been released. */
  ghost predicate Sound<T>(g: Graph<T>)
  {
    Closed(g) && forall c :: c in g && g[c].error != NO_ERROR ==> Released(g[c])
  }

  lemma SpreadKeepsSound<T>(g: Graph<T>, h: Graph<T>)
    requires Sound(g) && Spread(g, h, {})
    ensures Sound(h)
  {
    hide Released, Closed, LostStruck, SubsFailed;
    SameChannels(g, h, {});
    forall c | c in h && h[c].error != NO_ERROR ensures Released(h[c]) {
      assert Passed(g, h, c) && AgedView(g[c], h[c]);
      if g[c].error != NO_ERROR { ReleasedStays(g[c], h[c]); }
    }
  }

  ghost predicate Links<T>(v: View<T>, n: T)
  {
    v.plugged == Some(n) || Some(n) in v.pending || exists k :: k in v.subs && v.subs[k] == Some(n)
  }

  /** A walk along plugs, sub-channels and pending channels. */
  ghost predicate Walk<T>(g: Graph<T>, path: seq<T>)
  {
    && path != [] && (forall i :: 0 <= i < |path| ==> path[i] in g)
    && (forall i :: 0 < i < |path| ==> Links(g[path[i - 1]], path[i]))
  }

  /** Aborting `c` will strike off nothing, itself, or a channel already in error. */
  ghost predicate Clear<T>(g: Graph<T>, c: T)
    requires Closed(g) && c in g
  {
    assert RefsInside(g[c], g);
    g[c].socket || g[c].parent.None? ||
    var subs := g[g[c].parent.value].subs;
    g[c].number in subs ==> var e := subs[g[c].number]; e == None || e == Some(c) || InError(g, e)
  }

  /** No working channel has a working namesake in its place. */
  ghost predicate Unshadowed<T>(g: Graph<T>)
    requires Closed(g)
  {
    forall c :: c in g && g[c].error == NO_ERROR ==> Clear(g, c)
  }

  ghost predicate StrikesOnlyErrors<T>(g: Graph<T>, h: Graph<T>)
    requires h.Keys == g.Keys
  {
    forall p, k :: p in g && k in g[p].subs && k !in h[p].subs && g[p].subs[k].Some? ==> InError(h, g[p].subs[k])
  }

  /** The beginning of an abort strikes off only channels in error exactly if it is clear. */
  lemma BeganStrikesExactly<T>(g: Graph<T>, c: T, reason: int)
    requires Closed(g) && c in g && g[c].error == NO_ERROR && reason != NO_ERROR
    ensures Began(g, c, reason).Keys == g.Keys
    ensures StrikesOnlyErrors(g, Began(g, c, reason)) <==> Clear(g, c)
  {
    var h := Began(g, c, reason);
    BeganIs(g, c, reason);
    hide Closed, Began;
  }

  /** Hence the beginning of every possible abort does so exactly if no channel is shadowed. */
  lemma StrikesExactly<T>(g: Graph<T>, reason: int)
    requires Closed(g) && reason != NO_ERROR
    ensures (forall c :: c in g && g[c].error == NO_ERROR ==>
              Began(g, c, reason).Keys == g.Keys && StrikesOnlyErrors(g, Began(g, c, reason)))
       <==> Unshadowed(g)
  {
    hide Closed, Began, StrikesOnlyErrors, Clear;
    forall c | c in g && g[c].error == NO_ERROR
      ensures Began(g, c, reason).Keys == g.Keys
      ensures StrikesOnlyErrors(g, Began(g, c, reason)) <==> Clear(g, c)
    {
      BeganStrikesExactly(g, c, reason);
    }
  }

  /** If nothing is shadowed, what was struck off on the way has failed too. */
  lemma StruckFailed<T>(g: Graph<T>, h: Graph<T>, p: T, k: nat)
    requires Closed(g) && Unshadowed(g) && Aged(g, h, {}) && p in g && k in g[p].subs && Struck(g, h, p, k)
    ensures g[p].subs[k] == None || InError(h, g[p].subs[k])
  {
    var d :| d in g && Attached(g, d, p, k) && InError(h, Some(d));
    assert Clear(g, d);
    hide Closed;
    AgedLive(g, h, {});
  }

  lemma LinkFails<T>(g: Graph<T>, h: Graph<T>, c: T, n: T)
    requires Sound(g) && Unshadowed(g) && Spread(g, h, {}) && c in g && Links(g[c], n) && InError(h, Some(c))
    ensures InError(h, Some(n))
  {
    hide Closed, Unshadowed, Struck, LostStruck;
    assert Passed(g, h, c) && AgedView(g[c], h[c]);
    if g[c].error == NO_ERROR {
      if k :| k in g[c].subs && g[c].subs[k] == Some(n) {
        if !InError(h, Some(n)) { StruckFailed(g, h, c, k); }
      }
    }
  }

  /** If nothing is shadowed, every channel that can be reached from an aborted one is in error and released. */
  lemma {:induction false} AbortReachesAll<T>(g: Graph<T>, c: T, reason: int, path: seq<T>)
    requires Sound(g) && Unshadowed(g) && c in g && reason != NO_ERROR && Walk(g, path) && path[0] == c
    ensures var h := AbortOf(g, c, reason);
      var last := path[|path| - 1]; InError(h, Some(last)) && Released(h[last])
    decreases |path|
  {
    hide Released, Closed, Unshadowed, AbortOf, Links;
    var h := AbortOf(g, c, reason);
    AbortSpreads(g, c, reason);
    SpreadKeepsSound(g, h);
    if |path| > 1 {
      var before := path[..|path| - 1];
      AbortReachesAll(g, c, reason, before);
      assert before[|before| - 1] == path[|path| - 2] && Links(g[path[|path| - 2]], path[|path| - 1]);
      LinkFails(g, h, path[|path| - 2], path[|path| - 1]);
    }
  }
}
