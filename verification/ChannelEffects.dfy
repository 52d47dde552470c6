/**
 What else aborts and offers do: the error every channel ends up with, and what becomes of the channels that nobody
 has claimed.
 */
module ChannelEffects {
  import opened Bytes
  import opened ChannelGraph
  import opened ChannelSpread
  import opened ChannelRuns

  // ---------------------------------------------------------------- the error passed on

  /** Channels that were in error keep theirs; those newly in error have `reason`. */
  ghost predicate Coded<T>(g: Graph<T>, h: Graph<T>, reason: int)
  {
    h.Keys == g.Keys && forall c :: c in g ==> h[c].error == g[c].error || (g[c].error == NO_ERROR && h[c].error == reason)
  }

  lemma CodedTwice<T>(f: Graph<T>, g: Graph<T>, h: Graph<T>, reason: int)
    requires Coded(f, g, reason) && Coded(g, h, reason)
    ensures Coded(f, h, reason)
  {
  }

  /** Whatever the graph, an abort passes its reason on unchanged, along plugs and down to every channel it reaches. */
  lemma {:induction false} AbortCodes<T>(g: Graph<T>, c: T, reason: int)
    requires Closed(g) && c in g && reason != NO_ERROR
    ensures Coded(g, AbortOf(g, c, reason), reason)
    decreases Live(g), 0
  {
    hide Closed, Aged, Release;
    if g[c].error == NO_ERROR {
      var one := Began(g, c, reason);
      BeganAges(g, c, reason);
      BeganLess(g, one, c);
      SameChannels(g, one, {});
      ReleaseCodes(one, c, reason);
      CodedTwice(g, one, AbortOf(g, c, reason), reason);
    }
  }

  lemma {:induction false} ReleaseCodes<T>(g: Graph<T>, c: T, reason: int)
    requires Closed(g) && c in g && reason != NO_ERROR && g[c].error == reason
    ensures Coded(g, Release(g, c, reason), reason)
    decreases Live(g), 3
  {
    hide Closed, Aged, AbortPlugged, VisitSubs, VisitPending, Coded;
    var g1 := AbortPlugged(g, c, reason);
    PluggedCodes(g, c, reason);
    SameChannels(g, g1, {c});
    var g2 := g1[c := Unblocked(g1[c])];
    UnblockedAges(g1, c);
    OwnCodes(g1, c, Unblocked(g1[c]), reason);
    CodedTwice(g, g1, g2, reason);
    ThenOpen(g, g1, g2, c);
    SameChannels(g, g2, {c});
    var g3 := VisitSubs(g2, c, 0);
    SubsCodes(g2, c, 0);
    CodedTwice(g, g2, g3, reason);
    ThenNested(g, g2, g3, c);
    SameChannels(g, g3, {c});
    var g4 := ForgotSubs(g3, c);
    OwnCodes(g3, c, g3[c].(subs := map[]), reason);
    CodedTwice(g, g3, g4, reason);
    ThenOpen(g, g3, g4, c);
    SameChannels(g, g4, {c});
    var g5 := VisitPending(g4, c, 0);
    PendingCodes(g4, c, 0);
    CodedTwice(g, g4, g5, reason);
    ThenNested(g, g4, g5, c);
    OwnCodes(g5, c, g5[c].(pending := OnlyNone(g5[c].pending)), reason);
    CodedTwice(g, g5, Release(g, c, reason), reason);
  }

  lemma OwnCodes<T>(g: Graph<T>, c: T, v: View<T>, reason: int)
    requires c in g && v.error == g[c].error
    ensures Coded(g, g[c := v], reason)
  {
  }

  lemma {:induction false} PluggedCodes<T>(g: Graph<T>, c: T, reason: int)
    requires Closed(g) && c in g && reason != NO_ERROR && g[c].error != NO_ERROR
    ensures Coded(g, AbortPlugged(g, c, reason), reason)
    decreases Live(g), 1
  {
    assert RefsInside(g[c], g);
    hide Closed, Aged, AbortOf;
    if g[c].plugged.Some? { AbortCodes(g, g[c].plugged.value, reason); }
  }

  lemma {:induction false} AttachedCodes<T>(g: Graph<T>, n: T, reason: int)
    requires Closed(g) && n in g && reason != NO_ERROR
    ensures Coded(g, AbortAttached(g, n, reason), reason)
    decreases Live(g), 1, 0
  {
    hide Closed, Aged, AbortOf;
    DetachedCloses(g, n);
    AbortCodes(Detached(g, n), n, reason);
  }

  lemma {:induction false} OneCodes<T>(g: Graph<T>, c: T, n: Option<T>)
    requires Closed(g) && c in g && g[c].error != NO_ERROR && Inside(n, g)
    ensures Coded(g, VisitOne(g, c, n), g[c].error)
    decreases Live(g), 1, 1
  {
    hide Closed, Aged, AbortAttached;
    if n.Some? { AttachedCodes(g, n.value, g[c].error); }
  }

  lemma CodedSame<T>(g: Graph<T>, reason: int)
    ensures Coded(g, g, reason)
  {
  }

  lemma {:induction false} SubsCodes<T>(g: Graph<T>, c: T, from: nat)
    requires Closed(g) && c in g && g[c].error != NO_ERROR
    ensures Coded(g, VisitSubs(g, c, from), g[c].error)
    decreases Live(g), 2, KeysFrom(g[c].subs.Keys, from)
  {
    hide Closed, VisitOne, Aged, Coded, KeysFrom, Live;
    var k := NextKey(g[c].subs.Keys, from);
    if k.None? {
      CodedSame(g, g[c].error);
    } else {
      SubInside(g, c, k.value);
      var h := VisitOne(g, c, g[c].subs[k.value]);
      OneCodes(g, c, g[c].subs[k.value]);
      AgedLive(g, h, {});
      SubsOnly(g, h, c);
      KeysFromShrinks(g[c].subs.Keys, h[c].subs.Keys, from, k.value);
      SubsCodes(h, c, k.value + 1);
      CodedTwice(g, h, VisitSubs(h, c, k.value + 1), g[c].error);
    }
  }

  lemma SubInside<T>(g: Graph<T>, c: T, k: nat)
    requires Closed(g) && c in g && k in g[c].subs
    ensures Inside(g[c].subs[k], g)
  {
    assert RefsInside(g[c], g);
  }

  lemma SubsOnly<T>(g: Graph<T>, h: Graph<T>, c: T)
    requires Aged(g, h, {}) && c in g
    ensures c in h && h[c].subs.Keys <= g[c].subs.Keys && Closed(h)
    ensures g[c].error != NO_ERROR ==> h[c].error == g[c].error && h[c].pending == g[c].pending
  {
    assert AgedView(g[c], h[c]);
  }

  lemma {:induction false} PendingCodes<T>(g: Graph<T>, c: T, i: nat)
    requires Closed(g) && c in g && g[c].error != NO_ERROR && i <= |g[c].pending|
    ensures Coded(g, VisitPending(g, c, i), g[c].error)
    decreases Live(g), 2, |g[c].pending| - i
  {
    if i < |g[c].pending| {
      assert RefsInside(g[c], g);
      hide Closed, VisitOne, Aged, Coded;
      var h := VisitOne(g, c, g[c].pending[i]);
      OneCodes(g, c, g[c].pending[i]);
      AgedLive(g, h, {});
      SubsOnly(g, h, c);
      PendingCodes(h, c, i + 1);
      CodedTwice(g, h, VisitPending(h, c, i + 1), g[c].error);
    }
  }

  // ---------------------------------------------------------------- unclaimed channels

  lemma DroppedKeeps<T>(g: Graph<T>, p: T)
    requires Closed(g) && p in g && g[p].pending != []
    ensures var h := Dropped(g, p);
      && (g[p].pending[0].Some? ==> InError(h, g[p].pending[0]))
      && (forall c :: c in g && g[c].error != NO_ERROR ==> h[c].error == g[c].error)
      && h[p].maxPending == g[p].maxPending && (h[p].error == g[p].error ==> h[p].pending == g[p].pending[1..])
  {
    PoppedCloses(g, p);
    var one := Popped(g, p);
    if g[p].pending[0].Some? {
      var h := AbortOf(one, g[p].pending[0].value, PENDING_LIMIT);
      assert AgedView(one[p], h[p]);
      forall c | c in g && g[c].error != NO_ERROR ensures h[c].error == g[c].error { assert AgedView(one[c], h[c]); }
    }
  }

  /** Only the newest unclaimed channels are kept, as many as allowed; the others are in error. */
  lemma {:induction false} TrimmedKeepsNewest<T>(g: Graph<T>, p: T)
    requires Closed(g) && p in g
    ensures var h := Trimmed(g, p);
      var n := |g[p].pending|;
      var kept := if g[p].maxPending == 0 || n <= g[p].maxPending then n else g[p].maxPending;
      && p in h && (forall c :: c in g && g[c].error != NO_ERROR ==> h[c].error == g[c].error)
      && (h[p].error == g[p].error ==>
            && h[p].pending == g[p].pending[n - kept..]
            && forall i :: 0 <= i < n - kept && g[p].pending[i].Some? ==> InError(h, g[p].pending[i]))
    decreases Live(g), |g[p].pending|
  {
    hide Closed, Dropped;
    var n := |g[p].pending|;
    if g[p].maxPending != 0 && n > g[p].maxPending {
      var one := Dropped(g, p);
      DroppedKeeps(g, p);
      TrimmedKeepsNewest(one, p);
      var h := Trimmed(one, p);
      assert h[p].error == g[p].error ==> one[p].error == g[p].error;
      if h[p].error == g[p].error {
        forall i | 0 <= i < n - g[p].maxPending && g[p].pending[i].Some? ensures InError(h, g[p].pending[i]) {
          if i > 0 { assert g[p].pending[i] == one[p].pending[i - 1]; }
        }
      }
    }
  }

  /** The entry found under a number is the first with it, and exactly that entry leaves the queue. */
  lemma {:induction false} FirstIsTaken<T>(g: Graph<T>, pending: seq<Option<T>>, number: nat) returns (i: nat)
    ensures i <= |pending| && forall j :: 0 <= j < i ==> !Named(g, pending[j], number)
    ensures i < |pending| ==>
      Named(g, pending[i], number) && PeekIn(g, pending, number) == pending[i] && TakenFrom(g, pending, number) == pending[..i] + pending[i + 1..]
    ensures i == |pending| ==> PeekIn(g, pending, number) == None && TakenFrom(g, pending, number) == pending
  {
    hide Named;
    if pending == [] || Named(g, pending[0], number) {
      i := 0;
    } else {
      var k := FirstIsTaken(g, pending[1..], number);
      i := k + 1;
      assert forall j :: 0 < j < i ==> pending[j] == pending[1..][j - 1];
      if i < |pending| {
        assert [pending[0]] + (pending[1..][..k] + pending[1..][k + 1..]) == pending[..i] + pending[i + 1..];
      } else {
        assert [pending[0]] + pending[1..] == pending;
      }
    }
  }
}
