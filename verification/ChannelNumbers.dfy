/** What careful numbering is good for, whose number is in the way when it fails, and two runs in which it fails. */
module ChannelNumbers {
  import opened Bytes
  import opened ChannelGraph
  import opened ChannelSpread
  import opened ChannelRuns

  // ---------------------------------------------------------------- a careful run leaves no channel behind

  lemma CompleteUnshadowed<T>(g: Graph<T>)
    requires Closed(g) && Complete(g)
    ensures Unshadowed(g)
  {
    forall c | c in g && g[c].error == NO_ERROR ensures Clear(g, c) {
      if !g[c].socket && g[c].parent.Some? { assert Kept(g, c, g[c].parent.value); }
    }
  }

  /** Each channel of the path is the parent of the next. */
  ghost predicate Lineage<T>(g: Graph<T>, path: seq<T>)
  {
    && path != [] && (forall i :: 0 <= i < |path| ==> path[i] in g)
    && (forall i :: 0 < i < |path| ==> !g[path[i]].socket && g[path[i]].parent == Some(path[i - 1]))
  }

  lemma {:induction false} LineageFails<T>(g: Graph<T>, h: Graph<T>, path: seq<T>)
    requires Sound(g) && Unshadowed(g) && Complete(g) && Spread(g, h, {}) && Lineage(g, path) && InError(h, Some(path[0]))
    ensures InError(h, Some(path[|path| - 1]))
    decreases |path|
  {
    hide Sound, Unshadowed, Spread;
    if |path| > 1 {
      var before := path[..|path| - 1];
      LineageFails(g, h, before);
      var p, c := path[|path| - 2], path[|path| - 1];
      assert before[|before| - 1] == p && g[c].parent == Some(path[|path| - 1 - 1]);
      if g[c].error == NO_ERROR {
        assert Kept(g, c, p);
        assert Links(g[p], c);
        LinkFails(g, h, p, c);
      } else {
        StaysInError(g, h, c);
      }
    }
  }

  lemma StaysInError<T>(g: Graph<T>, h: Graph<T>, c: T)
    requires Spread(g, h, {}) && InError(g, Some(c))
    ensures InError(h, Some(c))
  {
    AgedLive(g, h, {});
  }

  /** After a careful run, aborting a channel puts every channel below it into error, claimed or not. */
  lemma CarefulAbortReachesBelow<T>(run: seq<Action<T>>, reason: int, path: seq<T>)
    requires Legal(run) && AlwaysCareful(run) && reason != NO_ERROR && Lineage(After(run), path)
    ensures InError(AbortOf(After(run), path[0], reason), Some(path[|path| - 1]))
  {
    hide Legal, After, AlwaysCareful, AlwaysComplete, Sound, Complete, Unshadowed, Spread, AbortOf, Owned;
    var g := After(run);
    RunGood(run);
    RegistrationExactly(run);
    LastComplete(run);
    CompleteUnshadowed(g);
    AbortSpreads(g, path[0], reason);
    LineageFails(g, AbortOf(g, path[0], reason), path);
  }

  /** And everything reachable from it, through plugs and queues too, is in error and released. */
  lemma CarefulAbortReachesAll<T>(run: seq<Action<T>>, reason: int, path: seq<T>)
    requires Legal(run) && AlwaysCareful(run) && reason != NO_ERROR && Walk(After(run), path)
    ensures var h := AbortOf(After(run), path[0], reason);
      var last := path[|path| - 1]; InError(h, Some(last)) && Released(h[last])
  {
    hide Legal, After, AlwaysCareful, AlwaysComplete, Sound, Complete, Unshadowed, AbortOf, Owned, Released;
    var g := After(run);
    RunGood(run);
    RegistrationExactly(run);
    LastComplete(run);
    CompleteUnshadowed(g);
    AbortReachesAll(g, path[0], reason, path);
  }

  // ---------------------------------------------------------------- whose number it was

  /** The number of the channel that a pole makes after `j` others. */
  function Nth(positive: bool, j: nat): nat
  {
    if positive then (FIRST_POSITIVE + j) % TWO_32 else (FIRST_NEGATIVE + j * (TWO_32 - 1)) % TWO_32
  }

  lemma NthNext(positive: bool, j: nat)
    ensures Nth(positive, 0) == First(positive) && Nth(positive, j + 1) == NextNumber(Nth(positive, j), positive)
  {
    var step := if positive then 1 else TWO_32 - 1;
    var a := First(positive) + j * step;
    assert First(positive) + (j + 1) * step == a + step;
    RestThenAdd(a, step);
  }

  lemma NthNegative(j: nat)
    ensures Nth(false, j) == (TWO_32 - 1 - j % TWO_32) % TWO_32
  {
    var q, r := j / TWO_32, j % TWO_32;
    assert FIRST_NEGATIVE + j * (TWO_32 - 1) == (TWO_32 - 1 - r) + (j - q) * TWO_32;
    RestShift(TWO_32 - 1 - r, j - q);
  }

  /** Within 2^32 makes no number comes twice. */
  lemma NthDistinct(positive: bool, i: nat, j: nat)
    requires i < j < TWO_32
    ensures Nth(positive, i) != Nth(positive, j)
  {
    if !positive {
      NthNegative(i);
      NthNegative(j);
    }
  }

  /** How many channels `p` has made. */
  function Makes<T(==)>(run: seq<Action<T>>, p: T): nat
  {
    if run == [] then 0
    else Makes(run[..|run| - 1], p) + if run[|run| - 1].Make? && run[|run| - 1].p == p then 1 else 0
  }

  /** A channel's next number, and the numbers of those it made itself. */
  ghost predicate Numbering<T>(g: Graph<T>, run: seq<Action<T>>)
  {
    && (forall p :: p in g ==> g[p].next == Nth(g[p].positive, Makes(run, p)))
    && (forall c :: c in g ==> NumberedBy(g, c, run))
  }

  ghost predicate NumberedBy<T>(g: Graph<T>, c: T, run: seq<Action<T>>)
    requires c in g
  {
    !g[c].socket && g[c].positive && g[c].parent.Some? && g[c].parent.value in g ==>
      OneOf(g[c].number, g[g[c].parent.value].positive, Makes(run, g[c].parent.value))
  }

  ghost predicate OneOf(number: nat, positive: bool, count: nat)
  {
    exists j :: 0 <= j < count && number == Nth(positive, j)
  }

  /** No channel comes, goes or is renumbered. */
  ghost predicate Tame<T>(g: Graph<T>, h: Graph<T>)
  {
    h.Keys == g.Keys && forall c :: c in g ==> TameView(g[c], h[c])
  }

  ghost predicate TameView<T>(a: View<T>, b: View<T>)
  {
    && b.socket == a.socket && b.number == a.number && b.positive == a.positive && b.next == a.next
    && (b.parent == a.parent || b.parent == None)
  }

  lemma AgedIsTame<T>(g: Graph<T>, h: Graph<T>, open: set<T>)
    requires Aged(g, h, open)
    ensures Tame(g, h)
  {
    hide Closed;
    forall c | c in g ensures TameView(g[c], h[c]) { assert AgedView(g[c], h[c]); }
  }

  lemma TameTwice<T>(f: Graph<T>, g: Graph<T>, h: Graph<T>)
    requires Tame(f, g) && Tame(g, h)
    ensures Tame(f, h)
  {
    forall c | c in f ensures TameView(f[c], h[c]) { assert TameView(f[c], g[c]) && TameView(g[c], h[c]); }
  }

  lemma DropIsTame<T>(g: Graph<T>, p: T)
    requires Closed(g) && p in g && g[p].pending != []
    ensures Tame(g, Dropped(g, p))
  {
    PoppedCloses(g, p);
    hide Closed, AbortOf;
    var one := Popped(g, p);
    assert Tame(g, one);
    if g[p].pending[0].Some? {
      var h := AbortOf(one, g[p].pending[0].value, PENDING_LIMIT);
      AgedIsTame(one, h, {});
      TameTwice(g, one, h);
    }
  }

  lemma {:induction false} TrimIsTame<T>(g: Graph<T>, p: T)
    requires Closed(g) && p in g
    ensures Tame(g, Trimmed(g, p))
    decreases Live(g), |g[p].pending|
  {
    hide Closed, Dropped;
    if g[p].maxPending != 0 && |g[p].pending| > g[p].maxPending {
      var h := Dropped(g, p);
      DropIsTame(g, p);
      TrimIsTame(h, p);
      TameTwice(g, h, Trimmed(h, p));
    }
  }

  lemma DestroyIsTame<T>(g: Graph<T>, p: T, number: nat)
    requires Closed(g) && p in g
    ensures Tame(g, DestroyStep(g, p, number))
  {
    TargetInside(g, p, number);
    StruckOffAges(g, p, number);
    hide Closed, AbortAttached, Aged;
    var one := StruckOff(g, p, number);
    AgedIsTame(g, one, {});
    var target := DestroyTarget(g, p, number);
    if target.Some? {
      var h := AbortAttached(one, target.value, REMOTE_PEER_CLOSED);
      AgedIsTame(one, h, {});
      TameTwice(g, one, h);
    }
  }

  /** Steps that make no channel are tame. */
  lemma StepIsTame<T>(g: Graph<T>, a: Action<T>)
    requires Closed(g) && Enabled(g, a) && !a.Connect? && !a.Make? && !a.PeerMake?
    ensures Tame(g, Step(g, a))
  {
    hide Closed, DestroyStep, AbortOf, TakenFrom, Aged;
    match a
    case PeerDestroy(p, n) => DestroyIsTame(g, p, n);
    case Take(_) =>
    case TakeNumber(_, _) =>
    case Exchange(_, _) =>
    case Tune(_, _, _) =>
    case Abort(c, reason) => AgedIsTame(g, AbortOf(g, c, reason), {});
  }

  lemma TameKeeps<T>(g: Graph<T>, h: Graph<T>, run: seq<Action<T>>)
    requires Numbering(g, run) && Tame(g, h)
    ensures Numbering(h, run)
  {
    hide OneOf, Nth, Makes;
    forall c | c in h ensures NumberedBy(h, c, run) {
      assert TameView(g[c], h[c]) && NumberedBy(g, c, run);
      if h[c].parent.Some? && h[c].parent.value in h { assert TameView(g[h[c].parent.value], h[h[c].parent.value]); }
    }
    forall p | p in h ensures h[p].next == Nth(h[p].positive, Makes(run, p)) { assert TameView(g[p], h[p]); }
  }

  lemma SameMakes<T>(before: seq<Action<T>>, a: Action<T>, p: T)
    ensures Makes(before + [a], p) == Makes(before, p) + if a.Make? && a.p == p then 1 else 0
  {
    assert (before + [a])[..|before|] == before;
  }

  lemma OneOfMore(number: nat, positive: bool, count: nat, more: nat)
    requires OneOf(number, positive, count) && count <= more
    ensures OneOf(number, positive, more)
  {
    var j :| 0 <= j < count && number == Nth(positive, j);
    assert 0 <= j < more;
  }

  /** `h` is `g` with one channel more, and perhaps another queue or next number at `p`. */
  lemma NewKeeps<T>(g: Graph<T>, h: Graph<T>, c: T, before: seq<Action<T>>, a: Action<T>)
    requires Numbering(g, before) && c !in g && h.Keys == g.Keys + {c}
    requires forall d :: d in g ==> SameButNext(g[d], h[d]) && h[d].next == Nth(h[d].positive, Makes(before + [a], d))
    requires h[c].next == Nth(h[c].positive, Makes(before + [a], c))
    requires NumberedBy(h, c, before + [a])
    requires forall d :: d in g ==> g[d].parent != Some(c)
    ensures Numbering(h, before + [a])
  {
    hide OneOf, Nth, Makes;
    forall d | d in h ensures NumberedBy(h, d, before + [a]) {
      if d != c && !h[d].socket && h[d].positive && h[d].parent.Some? && h[d].parent.value in h {
        assert SameButNext(g[d], h[d]) && NumberedBy(g, d, before);
        var p := h[d].parent.value;
        assert SameButNext(g[p], h[p]);
        SameMakes(before, a, p);
        OneOfMore(g[d].number, g[p].positive, Makes(before, p), Makes(before + [a], p));
      }
    }
  }

  ghost predicate SameButNext<T>(a: View<T>, b: View<T>)
  {
    b.socket == a.socket && b.number == a.number && b.positive == a.positive && b.parent == a.parent
  }

  lemma NotYetMade<T>(g: Graph<T>, c: T)
    requires Closed(g) && c !in g
    ensures forall d :: d in g ==> g[d].parent != Some(c)
  {
    forall d | d in g ensures g[d].parent != Some(c) { assert RefsInside(g[d], g); }
  }

  lemma {:induction false} MakesNone<T>(run: seq<Action<T>>, c: T)
    requires Legal(run) && c !in After(run)
    ensures Makes(run, c) == 0
    decreases |run|
  {
    hide Closed;
    if run != [] {
      var before, a := run[..|run| - 1], run[|run| - 1];
      OnlyGrows(After(before), a);
      MakesNone(before, c);
    }
  }

  lemma OnlyGrows<T>(g: Graph<T>, a: Action<T>)
    requires Closed(g) && Enabled(g, a)
    ensures g.Keys <= Step(g, a).Keys
  {
    hide Closed, DestroyStep, AbortOf, TakenFrom, Aged, Trimmed;
    if a.PeerMake? {
      OfferAdds(g, a.p, a.c, a.number);
    } else if !a.Connect? && !a.Make? {
      StepIsTame(g, a);
    }
  }

  lemma {:induction false} RunNumbering<T>(run: seq<Action<T>>)
    requires Legal(run)
    ensures Numbering(After(run), run)
    decreases |run|
  {
    hide Numbering, Step, Enabled, Makes;
    if run == [] {
      NoNumbers<T>();
    } else {
      var before, a := run[..|run| - 1], run[|run| - 1];
      RunNumbering(before);
      assert before + [a] == run;
      StepNumbering(before, a);
    }
  }

  lemma NoNumbers<T>()
    ensures Numbering<T>(map[], [])
  {
  }

  lemma StepNumbering<T>(before: seq<Action<T>>, a: Action<T>)
    requires Legal(before) && Enabled(After(before), a) && Numbering(After(before), before)
    ensures Numbering(Step(After(before), a), before + [a])
  {
    hide Numbering, Step, Makes, Legal, After, Nth, Closed;
    var g := After(before);
    match a
    case Connect(c, positive) => ConnectNumbering(before, g, c, positive);
    case Make(p, c) => MakeNumbering(before, g, p, c);
    case PeerMake(p, c, n) => OfferNumbering(before, g, p, c, n);
    case _ =>
      StepIsTame(g, a);
      TameKeeps(g, Step(g, a), before);
      Renumber(Step(g, a), before, a);
  }

  lemma Renumber<T>(g: Graph<T>, before: seq<Action<T>>, a: Action<T>)
    requires Numbering(g, before) && !a.Make?
    ensures Numbering(g, before + [a])
  {
    hide OneOf, Nth, Makes;
    forall p ensures Makes(before + [a], p) == Makes(before, p) { SameMakes(before, a, p); }
    forall c | c in g ensures NumberedBy(g, c, before + [a]) { assert NumberedBy(g, c, before); }
  }

  lemma ConnectNumbering<T>(before: seq<Action<T>>, g: Graph<T>, c: T, positive: bool)
    requires Legal(before) && g == After(before) && Numbering(g, before) && c !in g
    ensures Numbering(Step(g, Connect(c, positive)), before + [Connect(c, positive)])
  {
    hide Legal, After, Nth, Makes, OneOf, Closed;
    var a := Connect(c, positive);
    var h := Step(g, a);
    forall p ensures Makes(before + [a], p) == Makes(before, p) { SameMakes(before, a, p); }
    MakesNone(before, c);
    NthNext(positive, 0);
    NotYetMade(g, c);
    NewKeeps(g, h, c, before, a);
  }

  lemma MakeNumbering<T>(before: seq<Action<T>>, g: Graph<T>, p: T, c: T)
    requires Legal(before) && g == After(before) && Numbering(g, before) && Enabled(g, Make(p, c))
    ensures Numbering(Step(g, Make(p, c)), before + [Make(p, c)])
  {
    hide Legal, After, Nth, Makes, Closed;
    var a := Make(p, c);
    var h := Step(g, a);
    forall q ensures Makes(before + [a], q) == Makes(before, q) + if q == p then 1 else 0 { SameMakes(before, a, q); }
    MakesNone(before, c);
    NthNext(true, 0);
    NthNext(g[p].positive, Makes(before, p));
    NotYetMade(g, c);
    assert g[p].next == Nth(g[p].positive, Makes(before, p));
    assert OneOf(g[p].next, g[p].positive, Makes(before + [a], p));
    NewKeeps(g, h, c, before, a);
  }

  lemma OfferNumbering<T>(before: seq<Action<T>>, g: Graph<T>, p: T, c: T, n: nat)
    requires Legal(before) && g == After(before) && Numbering(g, before) && Enabled(g, PeerMake(p, c, n))
    ensures Numbering(Step(g, PeerMake(p, c, n)), before + [PeerMake(p, c, n)])
  {
    hide Legal, After, Nth, Makes, OneOf, Closed, Trimmed;
    var a := PeerMake(p, c, n);
    var one := Offered(g, p, c, n);
    OfferAdds(g, p, c, n);
    forall q ensures Makes(before + [a], q) == Makes(before, q) { SameMakes(before, a, q); }
    MakesNone(before, c);
    NthNext(false, 0);
    NotYetMade(g, c);
    NewKeeps(g, one, c, before, a);
    TrimIsTame(one, p);
    TameKeeps(one, Trimmed(one, p), before + [a]);
  }

  /** If a channel has made fewer than 2^32 others, a working channel in the way of the next one was the peer's choice. */
  lemma TakenByPeer<T>(run: seq<Action<T>>, p: T, e: T)
    requires Legal(run) && p in After(run) && After(run)[p].error == NO_ERROR && Makes(run, p) < TWO_32
    requires var g := After(run); Taken(g, p, g[p].next) && g[p].subs[g[p].next] == Some(e)
    ensures e in After(run) && !After(run)[e].positive
  {
    hide Legal, After, Nth, Makes, Closed, Sound;
    var g := After(run);
    RunGood(run);
    RunNumbering(run);
    assert OwnedBy(g, g[p].subs[g[p].next], p, None);
    assert NumberedBy(g, e, run);
    if g[e].positive {
      var j :| 0 <= j < Makes(run, p) && g[e].number == Nth(g[p].positive, j);
      NthDistinct(g[p].positive, j, Makes(run, p));
    }
  }
}
