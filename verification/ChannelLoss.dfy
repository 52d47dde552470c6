/** Two runs that end with a working channel whose parent is gone. */
module ChannelLoss {
  import opened Bytes
  import opened ChannelGraph
  import opened ChannelSpread
  import opened ChannelRuns

  // ---------------------------------------------------------------- small aborts

  /** Nothing below it, nobody waiting. */
  ghost predicate Bare<T>(v: View<T>) { v.subs == map[] && v.pending == [] && v.getting == 0 }

  function Quiet<T>(v: View<T>): View<T> { v.(plugged := None, receivingClosed := true, goThrough := true) }

  lemma VisitNothing<T>(g: Graph<T>, c: T, from: nat)
    requires Closed(g) && c in g && g[c].error != NO_ERROR && forall k :: k in g[c].subs ==> k < from
    ensures VisitSubs(g, c, from) == g
  {
  }

  lemma VisitNext<T>(g: Graph<T>, c: T, from: nat, k: nat)
    requires Closed(g) && c in g && g[c].error != NO_ERROR && k in g[c].subs && from <= k
    requires forall i :: i in g[c].subs && from <= i ==> k <= i
    requires Inside(g[c].subs[k], g)
    ensures VisitSubs(g, c, from) == VisitSubs(VisitOne(g, c, g[c].subs[k]), c, k + 1)
  {
    hide VisitOne, Closed, Aged;
    assert NextKey(g[c].subs.Keys, from) == Some(k);
  }

  lemma NobodyWaits<T>(g: Graph<T>, c: T)
    requires c in g && g[c].pending == []
    ensures g[c := g[c].(pending := OnlyNone(g[c].pending))] == g
    ensures Closed(g) && g[c].error != NO_ERROR ==> VisitPending(g, c, 0) == g
  {
  }

  lemma UnblockedBare<T>(v: View<T>)
    requires v.pending == [] && v.getting == 0
    ensures Unblocked(v) == v.(receivingClosed := true, goThrough := true)
  {
  }

  lemma ForgotNothing<T>(g: Graph<T>, c: T)
    requires Closed(g) && c in g && g[c].subs == map[]
    ensures ForgotSubs(g, c) == g
  {
  }

  /** With nothing below, only the plugged channel is followed. */
  lemma ReleaseBare<T>(g: Graph<T>, c: T, reason: int)
    requires Closed(g) && c in g && reason != NO_ERROR && g[c].error != NO_ERROR && Bare(g[c])
    ensures var x := AbortPlugged(g, c, reason); c in x && Release(g, c, reason) == x[c := Quiet(x[c])]
  {
    hide AbortPlugged, VisitSubs, VisitPending, OnlyNone, Closed, Aged;
    var x := AbortPlugged(g, c, reason);
    PluggedBare(g, c, reason);
    UnblockedBare(x[c]);
    var y := x[c := Unblocked(x[c])];
    UnblockedAges(x, c);
    SameChannels(x, y, {c});
    VisitNothing(y, c, 0);
    ForgotNothing(y, c);
    NobodyWaits(y, c);
  }

  lemma PluggedBare<T>(g: Graph<T>, c: T, reason: int)
    requires Closed(g) && c in g && reason != NO_ERROR && g[c].error != NO_ERROR && Bare(g[c])
    ensures var x := AbortPlugged(g, c, reason); c in x && Bare(x[c]) && x[c].plugged == None && Closed(x)
  {
    PluggedSpreads(g, c, reason);
    hide Closed, AbortPlugged;
    var x := AbortPlugged(g, c, reason);
    assert AgedView(g[c], x[c]);
    assert x[c].subs == map[];
  }

  /** A channel with nothing attached, or plugged to one already in error. */
  lemma AbortBare<T>(g: Graph<T>, c: T, reason: int)
    requires Closed(g) && c in g && reason != NO_ERROR && g[c].error == NO_ERROR && Bare(g[c])
    requires g[c].plugged.Some? ==> g[c].plugged != Some(c) && InError(g, g[c].plugged)
    requires !g[c].socket && g[c].parent != Some(c)
    ensures var one := Began(g, c, reason); c in one && AbortOf(g, c, reason) == one[c := Quiet(one[c])]
  {
    hide Began, Closed, Aged, Release, AbortPlugged;
    var one := Began(g, c, reason);
    BeganAges(g, c, reason);
    BeganSelf(g, c, reason);
    SameChannels(g, one, {});
    ReleaseBare(one, c, reason);
    AgedLive(g, one, {});
    PluggedDone(one, c, reason);
  }

  lemma BeganSelf<T>(g: Graph<T>, c: T, reason: int)
    requires Closed(g) && c in g && g[c].parent != Some(c)
    ensures c in Began(g, c, reason) && Began(g, c, reason)[c] == g[c].(error := reason)
  {
    hide Closed;
  }

  lemma BeganAlone<T>(g: Graph<T>, c: T, reason: int)
    requires Closed(g) && c in g && (g[c].socket || g[c].parent.None?)
    ensures Began(g, c, reason) == g[c := g[c].(error := reason)]
  {
    hide Closed;
  }

  lemma BeganChild<T>(g: Graph<T>, c: T, p: T, reason: int)
    requires Closed(g) && c in g && p in g && p != c && !g[c].socket && g[c].parent == Some(p)
    ensures Began(g, c, reason) == g[c := g[c].(error := reason)][p := g[p].(subs := g[p].subs - {g[c].number})]
  {
    hide Closed;
  }

  lemma PluggedDone<T>(g: Graph<T>, c: T, reason: int)
    requires Closed(g) && c in g && reason != NO_ERROR && g[c].error != NO_ERROR
    requires g[c].plugged.Some? ==> InError(g, g[c].plugged)
    ensures AbortPlugged(g, c, reason) == g[c := g[c].(plugged := None)]
  {
    hide Closed, Aged;
    if g[c].plugged.Some? { assert AbortOf(g, g[c].plugged.value, reason) == g; }
  }

  // ---------------------------------------------------------------- a number used twice

  /** A virtual channel's view. */
  function Virtual(number: nat, positive: bool, next: nat, parent: nat, plugged: Option<nat>, subs: map<nat, Option<nat>>,
                   pending: seq<Option<nat>>): View<nat>
  {
    View(false, number, positive, next, 8, NO_ERROR, Some(parent), plugged, subs, pending, 0, false, true)
  }

  function Root(next: nat, subs: map<nat, Option<nat>>, pending: seq<Option<nat>>): View<nat>
  {
    View(true, 0, true, next, 8, NO_ERROR, None, None, subs, pending, 0, false, true)
  }

  /** Channels 1 and 2 are made on 0; the peer opens 3 on channel 2, under the number 2, and it is joined with 1. */
  function SharedRun(): seq<Action<nat>>
  {
    [Connect(0, true), Make(0, 1), Make(0, 2), PeerMake(2, 3, 2), Take(2), Exchange(1, 3), Make(2, 4)]
  }

  /** Then channel 2 makes 4, whose number is 2 as well. */
  function Shared(): Graph<nat>
  {
    map[0 := Root(4, map[2 := Some(1), 3 := Some(2)], []),
        1 := Virtual(2, true, 2, 0, Some(3), map[], []),
        2 := Virtual(3, true, 3, 0, None, map[2 := Some(4)], []),
        3 := Virtual(2, false, FIRST_NEGATIVE, 2, Some(1), map[], []),
        4 := Virtual(2, true, 2, 2, None, map[], [])]
  }

  lemma OneMore<T>(before: seq<Action<T>>, a: Action<T>)
    requires Legal(before) && Enabled(After(before), a)
    ensures Legal(before + [a]) && After(before + [a]) == Step(After(before), a)
  {
    hide Enabled, Step;
    assert (before + [a])[..|before|] == before;
  }

  lemma OfferStep(g: Graph<nat>, p: nat, c: nat, n: nat)
    requires Closed(g) && Enabled(g, PeerMake(p, c, n)) && |g[p].pending| < g[p].maxPending
    ensures Step(g, PeerMake(p, c, n)) == Offered(g, p, c, n)
  {
    OfferAdds(g, p, c, n);
    hide Closed;
  }

  /** The graph after one more step of a run that led to `g`. */
  ghost predicate Leads(g: Graph<nat>, a: Action<nat>, h: Graph<nat>)
  {
    Closed(g) && Enabled(g, a) && Step(g, a) == h
  }

  lemma Onward(before: seq<Action<nat>>, g: Graph<nat>, a: Action<nat>, h: Graph<nat>, run: seq<Action<nat>>)
    requires Legal(before) && After(before) == g && Leads(g, a, h) && run == before + [a]
    ensures Legal(run) && After(run) == h
  {
    hide Legal, After, Enabled, Step, Closed;
    OneMore(before, a);
  }

  function Channel1(plugged: Option<nat>): View<nat> { Virtual(2, true, 2, 0, plugged, map[], []) }

  function Channel2(next: nat, subs: map<nat, Option<nat>>, pending: seq<Option<nat>>): View<nat>
  {
    Virtual(3, true, next, 0, None, subs, pending)
  }

  function Channel3(plugged: Option<nat>): View<nat> { Virtual(2, false, FIRST_NEGATIVE, 2, plugged, map[], []) }

  function BothMade(): View<nat> { Root(4, map[2 := Some(1), 3 := Some(2)], []) }

  lemma SharedIsReached()
    ensures Legal(SharedRun()) && After(SharedRun()) == Shared()
  {
    hide Legal, After, Leads;
    var run := SharedRun();
    var g1: Graph<nat> := map[0 := Root(2, map[], [])];
    var g2: Graph<nat> := map[0 := Root(3, map[2 := Some(1)], []), 1 := Channel1(None)];
    var g3: Graph<nat> := map[0 := BothMade(), 1 := Channel1(None), 2 := Channel2(2, map[], [])];
    var g4: Graph<nat> := g3[2 := Channel2(2, map[2 := Some(3)], [Some(3)])][3 := Channel3(None)];
    var g5: Graph<nat> := g3[2 := Channel2(2, map[2 := Some(3)], [])][3 := Channel3(None)];
    var g6: Graph<nat> := g5[1 := Channel1(Some(3))][3 := Channel3(Some(1))];
    Nothing();
    Connects();
    Onward([], map[], run[0], g1, [run[0]]);
    MakesFirst();
    Onward([run[0]], g1, run[1], g2, [run[0], run[1]]);
    MakesSecond();
    Onward([run[0], run[1]], g2, run[2], g3, [run[0], run[1], run[2]]);
    PeerOpens(g3);
    Onward([run[0], run[1], run[2]], g3, run[3], g4, [run[0], run[1], run[2], run[3]]);
    Claims(g3, g4);
    Onward([run[0], run[1], run[2], run[3]], g4, run[4], g5, [run[0], run[1], run[2], run[3], run[4]]);
    Joins(g3, g5);
    Onward([run[0], run[1], run[2], run[3], run[4]], g5, run[5], g6, [run[0], run[1], run[2], run[3], run[4], run[5]]);
    MakesNamesake(g3, g5, g6);
    assert [run[0], run[1], run[2], run[3], run[4], run[5]] + [run[6]] == run;
    Onward([run[0], run[1], run[2], run[3], run[4], run[5]], g6, run[6], Shared(), run);
  }

  lemma Connects()
    ensures Leads(map[], Connect(0, true), map[0 := Root(2, map[], [])])
  {
  }

  lemma MakesFirst()
    ensures Leads(map[0 := Root(2, map[], [])], Make(0, 1), map[0 := Root(3, map[2 := Some(1)], []), 1 := Channel1(None)])
  {
  }

  lemma MakesSecond()
    ensures Leads(map[0 := Root(3, map[2 := Some(1)], []), 1 := Channel1(None)], Make(0, 2),
                  map[0 := BothMade(), 1 := Channel1(None), 2 := Channel2(2, map[], [])])
  {
  }

  lemma PeerOpens(g: Graph<nat>)
    requires g == map[0 := BothMade(), 1 := Channel1(None), 2 := Channel2(2, map[], [])]
    ensures Leads(g, PeerMake(2, 3, 2), g[2 := Channel2(2, map[2 := Some(3)], [Some(3)])][3 := Channel3(None)])
  {
    OfferStep(g, 2, 3, 2);
    var h := Offered(g, 2, 3, 2);
    assert h[2] == Channel2(2, map[2 := Some(3)], [Some(3)]) && h[3] == Channel3(None);
  }

  lemma Claims(g: Graph<nat>, h: Graph<nat>)
    requires g == map[0 := BothMade(), 1 := Channel1(None), 2 := Channel2(2, map[], [])]
    requires h == g[2 := Channel2(2, map[2 := Some(3)], [Some(3)])][3 := Channel3(None)]
    ensures Leads(h, Take(2), g[2 := Channel2(2, map[2 := Some(3)], [])][3 := Channel3(None)])
  {
  }

  lemma Joins(g: Graph<nat>, h: Graph<nat>)
    requires g == map[0 := BothMade(), 1 := Channel1(None), 2 := Channel2(2, map[], [])]
    requires h == g[2 := Channel2(2, map[2 := Some(3)], [])][3 := Channel3(None)]
    ensures Leads(h, Exchange(1, 3), h[1 := Channel1(Some(3))][3 := Channel3(Some(1))])
  {
  }

  lemma MakesNamesake(g: Graph<nat>, h: Graph<nat>, j: Graph<nat>)
    requires g == map[0 := BothMade(), 1 := Channel1(None), 2 := Channel2(2, map[], [])]
    requires h == g[2 := Channel2(2, map[2 := Some(3)], [])][3 := Channel3(None)]
    requires j == h[1 := Channel1(Some(3))][3 := Channel3(Some(1))]
    ensures Leads(j, Make(2, 4), Shared())
  {
    hide Closed, Leads, MakeStep;
    JoinedCloses(g, h, j);
    LeadsMake(j, 2, 4);
    NamesakeMade(j);
  }

  lemma JoinedCloses(g: Graph<nat>, h: Graph<nat>, j: Graph<nat>)
    requires g == map[0 := BothMade(), 1 := Channel1(None), 2 := Channel2(2, map[], [])]
    requires h == g[2 := Channel2(2, map[2 := Some(3)], [])][3 := Channel3(None)]
    requires j == h[1 := Channel1(Some(3))][3 := Channel3(Some(1))]
    ensures Closed(j) && j == Joined()
  {
  }

  /** Channels 1 and 3 are joined. */
  function Joined(): Graph<nat>
  {
    map[0 := BothMade(), 1 := Channel1(Some(3)), 2 := Channel2(2, map[2 := Some(3)], []), 3 := Channel3(Some(1))]
  }

  lemma NamesakeMade(j: Graph<nat>)
    requires j == Joined()
    ensures MakeStep(j, 2, 4) == Shared()
  {
    assert map[2 := Some(3)][2 := Some(4)] == map[2 := Some(4)];
  }

  lemma LeadsMake(g: Graph<nat>, p: nat, c: nat)
    requires Closed(g) && p in g && c !in g && Usable(g, p)
    ensures Leads(g, Make(p, c), MakeStep(g, p, c))
  {
    hide Closed, MakeStep;
  }

  lemma Nothing()
    ensures Legal<nat>([]) && After<nat>([]) == map[]
  {
  }

  const USER_SHUTDOWN: int := 7

  /** A channel cut loose and released. */
  function Gone(v: View<nat>): View<nat> { Quiet(v.(error := USER_SHUTDOWN, parent := None)) }

  /** The root on its way out. */
  function Leaving(): View<nat> { Quiet(BothMade().(error := USER_SHUTDOWN)) }

  lemma SharedCloses()
    ensures Closed(Shared()) && Walk(Shared(), [0, 2, 4])
  {
    assert forall c :: c in Shared() ==> RefsInside(Shared()[c], Shared());
    assert Shared()[0].subs[3] == Some(2) && Shared()[2].subs[2] == Some(4);
  }

  /** Channel 3 goes with channel 1, and has channel 2 strike off the number 2: channel 4. */
  lemma PlugGoes(a: Graph<nat>, one: Graph<nat>)
    requires a == Shared()[0 := Leaving()] && one == a[1 := Channel1(Some(3)).(parent := None, error := USER_SHUTDOWN)]
    requires Closed(one)
    ensures AbortOf(one, 3, USER_SHUTDOWN)
         == one[2 := Channel2(3, map[], [])][3 := Quiet(Channel3(Some(1)).(error := USER_SHUTDOWN))]
  {
    hide AbortOf, Closed, Began;
    AbortBare(one, 3, USER_SHUTDOWN);
    BeganChild(one, 3, 2, USER_SHUTDOWN);
    assert one[2].subs - {2} == map[];
    assert one[2].(subs := map[]) == Channel2(3, map[], []);
  }

  lemma FirstGoes(a: Graph<nat>)
    requires a == Shared()[0 := Leaving()] && Closed(a)
    ensures Closed(Detached(a, 1))
    ensures AbortOf(Detached(a, 1), 1, USER_SHUTDOWN)
         == a[1 := Gone(Channel1(Some(3)))][2 := Channel2(3, map[], [])][3 := Quiet(Channel3(Some(1)).(error := USER_SHUTDOWN))]
  {
    hide Closed, Aged, Release, AbortPlugged, Began;
    DetachedCloses(a, 1);
    var g := Detached(a, 1);
    var one := Began(g, 1, USER_SHUTDOWN);
    BeganAges(g, 1, USER_SHUTDOWN);
    BeganAlone(g, 1, USER_SHUTDOWN);
    assert one == a[1 := Channel1(Some(3)).(parent := None, error := USER_SHUTDOWN)];
    SameChannels(g, one, {});
    AbortBegins(g, 1, USER_SHUTDOWN);
    hide AbortOf;
    PlugGoes(a, one);
    ReleaseBare(one, 1, USER_SHUTDOWN);
    FollowsPlug(one, 1, 3, USER_SHUTDOWN);
  }

  lemma AbortBegins(g: Graph<nat>, c: nat, reason: int)
    requires Closed(g) && c in g && reason != NO_ERROR && g[c].error == NO_ERROR
    ensures var one := Began(g, c, reason); Closed(one) && c in one && one[c].error == reason
    ensures AbortOf(g, c, reason) == Release(Began(g, c, reason), c, reason)
  {
    BeganAges(g, c, reason);
    hide Closed, Release, Began;
  }

  lemma FollowsPlug(g: Graph<nat>, c: nat, n: nat, reason: int)
    requires Closed(g) && c in g && n in g && reason != NO_ERROR && g[c].error != NO_ERROR && g[c].plugged == Some(n)
    ensures var x := AbortOf(g, n, reason); c in x && AbortPlugged(g, c, reason) == x[c := x[c].(plugged := None)]
  {
    hide AbortOf, Closed;
  }

  lemma SecondGoes(b: Graph<nat>)
    requires Closed(b) && 2 in b && b[2] == Channel2(3, map[], [])
    ensures Closed(Detached(b, 2)) && AbortOf(Detached(b, 2), 2, USER_SHUTDOWN) == b[2 := Gone(b[2])]
  {
    hide Closed, AbortOf, Began;
    DetachedCloses(b, 2);
    AbortBare(Detached(b, 2), 2, USER_SHUTDOWN);
    BeganAlone(Detached(b, 2), 2, USER_SHUTDOWN);
  }

  lemma RootReleases(a: Graph<nat>)
    requires a == Shared()[0 := BothMade().(error := USER_SHUTDOWN)] && Closed(a)
    ensures var h := Release(a, 0, USER_SHUTDOWN); 4 in h && h[4] == Shared()[4] && InError(h, Some(2))
  {
    hide Closed, Aged, VisitSubs, VisitPending, AbortPlugged, OnlyNone, AbortOf;
    PluggedDone(a, 0, USER_SHUTDOWN);
    assert AbortPlugged(a, 0, USER_SHUTDOWN) == a;
    UnblockedBare(a[0]);
    var a2 := a[0 := Unblocked(a[0])];
    UnblockedAges(a, 0);
    SameChannels(a, a2, {0});
    assert a2 == Shared()[0 := Leaving()];
    FirstGoes(a2);
    var b := AbortOf(Detached(a2, 1), 1, USER_SHUTDOWN);
    VisitNext(a2, 0, 0, 2);
    assert VisitOne(a2, 0, Some(1)) == b;
    SameChannels(a2, VisitOne(a2, 0, Some(1)), {});
    SecondGoes(b);
    VisitNext(b, 0, 3, 3);
    var d := AbortOf(Detached(b, 2), 2, USER_SHUTDOWN);
    assert VisitOne(b, 0, Some(2)) == d;
    SameChannels(b, VisitOne(b, 0, Some(2)), {});
    VisitNothing(d, 0, 4);
    assert VisitSubs(a2, 0, 0) == d;
    var e := ForgotSubs(d, 0);
    SameChannels(d, e, {0});
    NobodyWaits(e, 0);
  }

  /**
   Channel 2 made a channel under a number the peer had chosen. Aborting the root reaches the peer's channel through
   its plug, which strikes off its namesake: channel 4, reachable before, is left working with a parent in error.
   */
  lemma SharedNumberSurvives() returns (run: seq<Action<nat>>)
    ensures Legal(run) && 0 in After(run) && Walk(After(run), [0, 2, 4])
    ensures var h := AbortOf(After(run), 0, USER_SHUTDOWN);
      4 in h && h[4].error == NO_ERROR && h[4].parent == Some(2) && InError(h, Some(0)) && InError(h, Some(2))
  {
    run := SharedRun();
    SharedIsReached();
    SharedCloses();
    hide Closed, Legal, After, Release, Aged;
    var g := Shared();
    BeganAlone(g, 0, USER_SHUTDOWN);
    AbortBegins(g, 0, USER_SHUTDOWN);
    hide AbortOf, Began;
    RootReleases(Began(g, 0, USER_SHUTDOWN));
    SameChannels(g, AbortOf(g, 0, USER_SHUTDOWN), {});
  }

  // ---------------------------------------------------------------- a number destroyed twice

  /** The peer opens and destroys number 5 twice, while nobody claims the channels. */
  function StaleRun(): seq<Action<nat>>
  {
    [Connect(0, true), PeerMake(0, 1, 5), PeerDestroy(0, 5), PeerMake(0, 2, 5), PeerDestroy(0, 5), Take(0), Take(0)]
  }

  function Fives(subs: map<nat, Option<nat>>, pending: seq<Option<nat>>): View<nat> { Root(2, subs, pending) }

  function Five(): View<nat> { Virtual(5, false, FIRST_NEGATIVE, 0, None, map[], []) }

  function Closed5(): View<nat> { Quiet(Five().(error := REMOTE_PEER_CLOSED, parent := None)) }

  lemma StaleIsReached()
    ensures Legal(StaleRun()) && After(StaleRun()) == map[0 := Fives(map[], []), 1 := Closed5(), 2 := Five()]
  {
    hide Legal, After, Leads;
    var run := StaleRun();
    var g1: Graph<nat> := map[0 := Fives(map[], [])];
    var g2: Graph<nat> := map[0 := Fives(map[5 := Some(1)], [Some(1)]), 1 := Five()];
    var g3: Graph<nat> := map[0 := Fives(map[], [Some(1)]), 1 := Closed5()];
    var g4: Graph<nat> := map[0 := Fives(map[5 := Some(2)], [Some(1), Some(2)]), 1 := Closed5(), 2 := Five()];
    var g5: Graph<nat> := map[0 := Fives(map[], [Some(1), Some(2)]), 1 := Closed5(), 2 := Five()];
    var g6: Graph<nat> := map[0 := Fives(map[], [Some(2)]), 1 := Closed5(), 2 := Five()];
    var g7: Graph<nat> := map[0 := Fives(map[], []), 1 := Closed5(), 2 := Five()];
    Nothing();
    Connects();
    Onward([], map[], run[0], g1, [run[0]]);
    FirstOffer(g1, g2);
    Onward([run[0]], g1, run[1], g2, [run[0], run[1]]);
    FirstDestroy(g2, g3);
    Onward([run[0], run[1]], g2, run[2], g3, [run[0], run[1], run[2]]);
    SecondOffer(g3, g4);
    Onward([run[0], run[1], run[2]], g3, run[3], g4, [run[0], run[1], run[2], run[3]]);
    SecondDestroy(g4, g5);
    Onward([run[0], run[1], run[2], run[3]], g4, run[4], g5, [run[0], run[1], run[2], run[3], run[4]]);
    TakesFront(g5, g6);
    Onward([run[0], run[1], run[2], run[3], run[4]], g5, run[5], g6, [run[0], run[1], run[2], run[3], run[4], run[5]]);
    TakesLast(g6, g7);
    assert [run[0], run[1], run[2], run[3], run[4], run[5]] + [run[6]] == run;
    Onward([run[0], run[1], run[2], run[3], run[4], run[5]], g6, run[6], g7, run);
  }

  lemma FirstOffer(g: Graph<nat>, h: Graph<nat>)
    requires g == map[0 := Fives(map[], [])] && h == map[0 := Fives(map[5 := Some(1)], [Some(1)]), 1 := Five()]
    ensures Leads(g, PeerMake(0, 1, 5), h)
  {
    OfferStep(g, 0, 1, 5);
    assert Offered(g, 0, 1, 5)[0] == h[0];
    assert Offered(g, 0, 1, 5) == h;
  }

  lemma SecondOffer(g: Graph<nat>, h: Graph<nat>)
    requires g == map[0 := Fives(map[], [Some(1)]), 1 := Closed5()]
    requires h == map[0 := Fives(map[5 := Some(2)], [Some(1), Some(2)]), 1 := Closed5(), 2 := Five()]
    ensures Leads(g, PeerMake(0, 2, 5), h)
  {
    OfferStep(g, 0, 2, 5);
    assert Offered(g, 0, 2, 5)[0] == h[0];
    assert Offered(g, 0, 2, 5) == h;
  }

  lemma FirstDestroy(g: Graph<nat>, h: Graph<nat>)
    requires g == map[0 := Fives(map[5 := Some(1)], [Some(1)]), 1 := Five()]
    requires h == map[0 := Fives(map[], [Some(1)]), 1 := Closed5()]
    ensures Leads(g, PeerDestroy(0, 5), h)
  {
    hide Closed, DestroyStep, DestroyTarget, Leads;
    FiveCloses(g);
    FirstCloses(g, h);
    LeadsDestroy(g, 0, 5);
  }

  lemma LeadsDestroy(g: Graph<nat>, p: nat, number: nat)
    requires Closed(g) && p in g && g[p].error == NO_ERROR && g[p].plugged == None
    ensures Leads(g, PeerDestroy(p, number), DestroyStep(g, p, number))
  {
    hide Closed, DestroyStep;
  }

  lemma FirstCloses(g: Graph<nat>, h: Graph<nat>)
    requires g == map[0 := Fives(map[5 := Some(1)], [Some(1)]), 1 := Five()] && Closed(g) && DestroyTarget(g, 0, 5) == Some(1)
    requires h == map[0 := Fives(map[], [Some(1)]), 1 := Closed5()]
    ensures DestroyStep(g, 0, 5) == h
  {
    hide Closed, AbortOf, Began, DestroyStep, DestroyTarget;
    DestroyHits(g, 0, 5, 1);
    var one := StruckOff(g, 0, 5);
    assert g[0].subs - {5} == map[];
    var two := Detached(one, 1);
    assert two == map[0 := Fives(map[], [Some(1)]), 1 := Five().(parent := None)];
    hide StruckOff, Detached;
    AbortBare(two, 1, REMOTE_PEER_CLOSED);
    BeganAlone(two, 1, REMOTE_PEER_CLOSED);
  }

  lemma FiveCloses(g: Graph<nat>)
    requires g == map[0 := Fives(map[5 := Some(1)], [Some(1)]), 1 := Five()]
    ensures Closed(g) && DestroyTarget(g, 0, 5) == Some(1)
  {
    assert Some(1) == g[0].pending[0];
  }

  lemma DestroyHits(g: Graph<nat>, p: nat, number: nat, t: nat)
    requires Closed(g) && p in g && t in g && DestroyTarget(g, p, number) == Some(t)
    ensures var one := StruckOff(g, p, number);
      t in one && Closed(one) && Closed(Detached(one, t))
      && DestroyStep(g, p, number) == AbortOf(Detached(one, t), t, REMOTE_PEER_CLOSED)
  {
    hide Closed, AbortOf, DestroyTarget;
    TargetInside(g, p, number);
    DetachedCloses(StruckOff(g, p, number), t);
  }

  /** The request finds channel 1 unclaimed and closed already; channel 2 is only forgotten. */
  lemma SecondDestroy(g: Graph<nat>, h: Graph<nat>)
    requires g == map[0 := Fives(map[5 := Some(2)], [Some(1), Some(2)]), 1 := Closed5(), 2 := Five()]
    requires h == map[0 := Fives(map[], [Some(1), Some(2)]), 1 := Closed5(), 2 := Five()]
    ensures Leads(g, PeerDestroy(0, 5), h)
  {
    hide Closed, DestroyStep, DestroyTarget, Leads;
    FivesClose(g);
    SecondForgets(g, h);
    LeadsDestroy(g, 0, 5);
  }

  lemma FivesClose(g: Graph<nat>)
    requires g == map[0 := Fives(map[5 := Some(2)], [Some(1), Some(2)]), 1 := Closed5(), 2 := Five()]
    ensures Closed(g) && DestroyTarget(g, 0, 5) == Some(1)
  {
    assert Some(1) == g[0].pending[0];
  }

  lemma SecondForgets(g: Graph<nat>, h: Graph<nat>)
    requires g == map[0 := Fives(map[5 := Some(2)], [Some(1), Some(2)]), 1 := Closed5(), 2 := Five()]
    requires h == map[0 := Fives(map[], [Some(1), Some(2)]), 1 := Closed5(), 2 := Five()]
    requires Closed(g) && DestroyTarget(g, 0, 5) == Some(1)
    ensures DestroyStep(g, 0, 5) == h
  {
    hide Closed, AbortOf, DestroyStep, DestroyTarget;
    DestroyHits(g, 0, 5, 1);
    var one := StruckOff(g, 0, 5);
    assert g[0].subs - {5} == map[];
    assert Detached(one, 1) == h;
    hide StruckOff, Detached;
    AbortAgain(h, 1, REMOTE_PEER_CLOSED);
  }

  lemma AbortAgain(g: Graph<nat>, c: nat, reason: int)
    requires Closed(g) && c in g && reason != NO_ERROR && g[c].error != NO_ERROR
    ensures AbortOf(g, c, reason) == g
  {
  }

  lemma TakesFront(g: Graph<nat>, h: Graph<nat>)
    requires g == map[0 := Fives(map[], [Some(1), Some(2)]), 1 := Closed5(), 2 := Five()]
    requires h == map[0 := Fives(map[], [Some(2)]), 1 := Closed5(), 2 := Five()]
    ensures Leads(g, Take(0), h)
  {
    assert [Some(1), Some(2)][1..] == [Some(2)];
  }

  lemma TakesLast(g: Graph<nat>, h: Graph<nat>)
    requires g == map[0 := Fives(map[], [Some(2)]), 1 := Closed5(), 2 := Five()]
    requires h == map[0 := Fives(map[], []), 1 := Closed5(), 2 := Five()]
    ensures Leads(g, Take(0), h)
  {
    assert [Some(2)][1..] == [];
  }

  lemma FivesLeave(g: Graph<nat>)
    requires g == map[0 := Fives(map[], []), 1 := Closed5(), 2 := Five()] && Closed(g)
    ensures var h := AbortOf(g, 0, USER_SHUTDOWN); 2 in h && h[2] == g[2] && InError(h, Some(0))
  {
    hide Closed, Began, Release, AbortPlugged;
    AbortBegins(g, 0, USER_SHUTDOWN);
    BeganAlone(g, 0, USER_SHUTDOWN);
    var one := Began(g, 0, USER_SHUTDOWN);
    ReleaseBare(one, 0, USER_SHUTDOWN);
    PluggedDone(one, 0, USER_SHUTDOWN);
  }

  /**
   The second DESTROY request is spent on the channel closed by the first. Channel 2 stays open though the peer
   destroyed it, and when the root is aborted it is left working with a parent in error.
   */
  lemma StaleDestroySurvives() returns (run: seq<Action<nat>>)
    ensures Legal(run) && 0 in After(run)
    ensures var h := AbortOf(After(run), 0, USER_SHUTDOWN);
      2 in h && h[2].error == NO_ERROR && h[2].parent == Some(0) && InError(h, Some(0))
  {
    hide Legal, After, AbortOf, Closed;
    run := StaleRun();
    StaleIsReached();
    FivesLeave(After(run));
  }
}
