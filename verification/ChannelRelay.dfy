/**
 Flow control along a line of channels.

 The line has any number of pairs of ends, each pair joined by two FIFO links.  `exchange` empties the
 queues of the right end of one pair and the left end of the next, and plugs the two ends into each
 other: from then on whatever arrives at one is sent on by the other, commands included.  Everything
 else interleaves in any order.
 */
module ChannelRelay {
  import opened Bytes
  import opened ChannelFlow

  datatype Side = Left | Right

  /** An end: which pair, and which side of it. */
  datatype Place = Place(pair: nat, side: Side)

  function Other(s: Side): Side { if s == Left then Right else Left }

  function Peer(p: Place): (q: Place)
    ensures q != p
  {
    Place(p.pair, Other(p.side))
  }

  /** `links(p)` is what `p` has sent and its peer has not yet received, oldest first; `joints` the plugged pairs. */
  datatype Net = Net(ends: Place -> End, links: Place -> seq<Message>, joints: set<nat>)

  /** `p` is plugged into its neighbour. */
  predicate Plugged(net: Net, p: Place)
  {
    if p.side == Right then p.pair in net.joints else p.pair > 0 && p.pair - 1 in net.joints
  }

  /** The end that `p` may be plugged into. */
  function Neighbour(p: Place): (q: Place)
    requires p.side == Left ==> p.pair > 0
    ensures q != p
  {
    if p.side == Right then Place(p.pair + 1, Left) else Place(p.pair - 1, Right)
  }

  function With(net: Net, p: Place, e: End): Net
  {
    net.(ends := q => if q == p then e else net.ends(q))
  }

  function Sending(net: Net, p: Place, sent: seq<Message>): Net
  {
    net.(links := q => if q == p then net.links(q) + sent else net.links(q))
  }

  function Taking(net: Net, p: Place): Net
    requires net.links(p) != []
  {
    net.(links := q => if q == p then net.links(p)[1..] else net.links(q))
  }

  // ---------------------------------------------------------------- runs

  datatype Action =
    | SendWaiting(place: Place, size: nat)   // sendPacket: waits for the gate
    | SendAsync(place: Place, size: nat)     // sendPacketAsync: does not
    | Arrive(place: Place)
    | Store(place: Place)
    | Recv(place: Place)
    | Exchange(pair: nat)                    // of the right end of `pair` and the left end of the next

  predicate Enabled(net: Net, a: Action)
  {
    match a
    case SendWaiting(p, n) => n > 0 && net.ends(p).goThrough
    case SendAsync(p, n) => n > 0
    case Arrive(p) => net.ends(p).held.None? && net.links(Peer(p)) != []
    case Store(p) => net.ends(p).held.Some? && net.ends(p).notFull
    case Recv(p) => net.ends(p).queue != []
    case Exchange(_) => true
  }

  function Step(net: Net, a: Action): Net
    requires Enabled(net, a)
  {
    match a
    case SendWaiting(p, n) => Sending(net, p, [Data(n)])
    case SendAsync(p, n) => Sending(net, p, [Data(n)])
    case Arrive(p) =>
      var m, rest := net.links(Peer(p))[0], Taking(net, Peer(p));
      if Plugged(net, p) then Sending(rest, Neighbour(p), [m])
      else
        var (e, sent) := Receive(net.ends(p), m);
        Sending(With(rest, p, e), p, sent)
    case Store(p) => With(net, p, Put(net.ends(p)))
    case Recv(p) =>
      var (e, sent) := Take(net.ends(p));
      Sending(With(net, p, e), p, sent)
    case Exchange(i) =>
      var p, q := Place(i, Right), Place(i + 1, Left);
      var moved := Sending(Sending(net, q, DataOf(net.ends(p).queue)), p, DataOf(net.ends(q).queue));
      With(With(moved, p, Emptied(net.ends(p))), q, Emptied(net.ends(q))).(joints := net.joints + {i})
  }

  function Start(capacity: Place -> nat): Net
  {
    Net(p => Fresh(capacity(p)), p => [], {})
  }

  /** Every action was possible when it happened. */
  predicate Possible(capacity: Place -> nat, run: seq<Action>)
    decreases |run|, 0
  {
    run == [] ||
    (Possible(capacity, run[..|run| - 1]) && Enabled(After(capacity, run[..|run| - 1]), run[|run| - 1]))
  }

  function After(capacity: Place -> nat, run: seq<Action>): Net
    requires Possible(capacity, run)
    decreases |run|, 1
  {
    if run == [] then Start(capacity) else Step(After(capacity, run[..|run| - 1]), run[|run| - 1])
  }

  // ---------------------------------------------------------------- what stays positive

  predicate PositiveLink(link: seq<Message>)
  {
    forall i :: 0 <= i < |link| && link[i].Data? ==> link[i].size > 0
  }

  ghost predicate Positive(net: Net)
  {
    forall p: Place :: PositiveEnd(net.ends(p)) && PositiveLink(net.links(p))
  }

  lemma EndStaysPositive(net: Net, a: Action, p: Place)
    requires Positive(net) && Enabled(net, a)
    ensures PositiveEnd(Step(net, a).ends(p))
  {
    assert PositiveEnd(net.ends(p));
    if a.Arrive? { assert PositiveLink(net.links(Peer(a.place))); }
  }

  lemma LinkStaysPositive(net: Net, a: Action, p: Place)
    requires Positive(net) && Enabled(net, a)
    ensures PositiveLink(Step(net, a).links(p))
  {
    assert PositiveLink(net.links(p));
    if a.Arrive? { assert PositiveLink(net.links(Peer(a.place))); }
  }

  lemma StepPositive(net: Net, a: Action)
    requires Positive(net) && Enabled(net, a)
    ensures Positive(Step(net, a))
  {
    hide Step, Enabled, PositiveEnd, PositiveLink;
    forall p: Place ensures PositiveEnd(Step(net, a).ends(p)) && PositiveLink(Step(net, a).links(p)) {
      EndStaysPositive(net, a, p);
      LinkStaysPositive(net, a, p);
    }
  }

  // ---------------------------------------------------------------- a pair that is not plugged

  /** Without a plug, `p` and the gate of its peer agree, counting the commands still under way. */
  predicate InStep(net: Net, p: Place)
  {
    var gate, commands := net.ends(Peer(p)).goThrough, Commands(net.links(p));
    !Plugged(net, p) && !Plugged(net, Peer(p)) ==>
      Alternate(gate, commands) && GateAfter(gate, commands) == !net.ends(p).slowDownRequested
  }

  /** What an end may send along with a change of its own request. */
  predicate Announces(before: End, after: End, sent: seq<Message>)
  {
    || (Commands(sent) == [] && after.slowDownRequested == before.slowDownRequested)
    || (sent == [SlowDown] && !before.slowDownRequested && after.slowDownRequested)
    || (sent == [GoThrough] && before.slowDownRequested && !after.slowDownRequested)
  }

  lemma SentInStep(gate: bool, link: seq<Message>, before: End, after: End, sent: seq<Message>)
    requires Announces(before, after, sent)
    requires Alternate(gate, Commands(link)) && GateAfter(gate, Commands(link)) == !before.slowDownRequested
    ensures Alternate(gate, Commands(link + sent)) && GateAfter(gate, Commands(link + sent)) == !after.slowDownRequested
  {
    CommandsAppend(link, sent);
    if Commands(sent) == [] {
      assert Commands(link) + [] == Commands(link);
    } else {
      assert Commands(sent) == sent;
      AppendCommand(gate, Commands(link), sent[0]);
    }
  }

  lemma StepInStep(net: Net, a: Action, p: Place)
    requires InStep(net, p) && Enabled(net, a)
    ensures InStep(Step(net, a), p)
  {
    hide Alternate, GateAfter;
    var next := Step(net, a);
    if !Plugged(next, p) && !Plugged(next, Peer(p)) {
      var gate, e := net.ends(Peer(p)).goThrough, net.ends(p);
      if a.Exchange? {
        assert next.links(p) == net.links(p) && next.ends(p) == e;
      } else if a.place == p {
        var sent :=
          if a.SendWaiting? || a.SendAsync? then [Data(a.size)]
          else if a.Recv? then Take(e).1
          else if a.Arrive? then Receive(e, net.links(Peer(p))[0]).1
          else [];
        assert net.links(p) + [] == net.links(p);
        assert next.links(p) == net.links(p) + sent;
        SentInStep(gate, net.links(p), e, next.ends(p), sent);
      } else if a == Arrive(Peer(p)) {
        TakenInStep(net, p);
      } else {
        assert a.Arrive? && Plugged(net, a.place) ==> Plugged(net, Neighbour(a.place));
        assert next.links(p) == net.links(p) && next.ends(p) == e;
      }
    }
  }

  lemma TakenInStep(net: Net, p: Place)
    requires InStep(net, p) && Enabled(net, Arrive(Peer(p))) && !Plugged(net, p) && !Plugged(net, Peer(p))
    ensures InStep(Step(net, Arrive(Peer(p))), p)
  {
    var next, link := Step(net, Arrive(Peer(p))), net.links(p);
    assert Peer(Peer(p)) == p;
    assert next.links(p) == link[1..];
    assert Commands(link) == if link[0].Data? then Commands(link[1..]) else [link[0]] + Commands(link[1..]);
  }

  // ---------------------------------------------------------------- along the line

  /** The joints on the way from beyond `p` towards the peer of `p`. */
  function Beyond(net: Net, p: Place): set<nat>
  {
    set j | j in net.joints && (if p.side == Right then j >= p.pair else j < p.pair)
  }

  /** Where the messages come from that a plugged `p` sends on. */
  function Onward(p: Place): Place
    requires p.side == Left ==> p.pair > 0
  {
    Peer(Neighbour(p))
  }

  /** The commands that will reach the peer of `p`, in that order, if no end says anything more. */
  function Ahead(net: Net, p: Place): seq<Message>
    decreases Beyond(net, p)
  {
    Commands(net.links(p)) + if Plugged(net, p) then OnwardBeyond(net, p); Ahead(net, Onward(p)) else []
  }

  /** Some end whose commands reach the peer of `p` asks for a pause. */
  predicate PausedAhead(net: Net, p: Place)
    decreases Beyond(net, p)
  {
    net.ends(p).slowDownRequested || (Plugged(net, p) && (OnwardBeyond(net, p); PausedAhead(net, Onward(p))))
  }

  lemma OnwardBeyond(net: Net, p: Place)
    requires Plugged(net, p)
    ensures Beyond(net, Onward(p)) < Beyond(net, p)
  {
    assert (if p.side == Right then p.pair else p.pair - 1) in Beyond(net, p) - Beyond(net, Onward(p));
  }

  /** The gate at the far end of a link; one that is plugged obeys nothing and counts as open. */
  predicate Gate(net: Net, p: Place)
  {
    Plugged(net, p) || net.ends(p).goThrough
  }

  /** If the peer of `p` ends up shut, some end on the way asks for a pause. */
  predicate Accounted(net: Net, p: Place, gate: bool)
  {
    GateAfter(gate, Ahead(net, p)) || PausedAhead(net, p)
  }

  ghost predicate AllAccounted(net: Net)
  {
    forall p: Place :: Accounted(net, p, Gate(net, Peer(p)))
  }

  lemma {:induction false} OpenIsBetter(commands: seq<Message>)
    ensures GateAfter(false, commands) ==> GateAfter(true, commands)
  {
  }

  /** How one link and the request of its sender may change without a command being taken. */
  predicate Grew(net: Net, next: Net, p: Place)
  {
    var was, now := Commands(net.links(p)), Commands(next.links(p));
    || next.ends(p).slowDownRequested
    || (now == was && !net.ends(p).slowDownRequested)
    || now == was + [GoThrough]
  }

  /** If all links only grew, and ends were only plugged, what was accounted for still is. */
  lemma {:induction false} GrowthAccounted(net: Net, next: Net, p: Place, gate: bool)
    requires AllAccounted(net) && net.joints <= next.joints && forall q: Place :: Grew(net, next, q)
    requires Accounted(net, p, gate)
    ensures Accounted(next, p, gate)
    decreases Beyond(next, p)
  {
    if next.ends(p).slowDownRequested { return; }
    assert Grew(net, next, p);
    var x, x' := Commands(net.links(p)), Commands(next.links(p));
    if Plugged(next, p) {
      OnwardBeyond(next, p);
      var q := Onward(p);
      var g, g' := GateAfter(gate, x), GateAfter(gate, x');
      GateAppend(gate, x, Ahead(net, q));
      GateAppend(gate, x', Ahead(next, q));
      GateAppend(gate, x, [GoThrough]);
      assert Accounted(net, q, Gate(net, Peer(q)));
      OpenIsBetter(Ahead(net, q));
      assert Accounted(net, q, true);
      GrowthAccounted(net, next, q, true);
      if Plugged(net, p) && Accounted(net, q, g) {
        GrowthAccounted(net, next, q, g);
      }
      assert x + [] == x;
      assert Accounted(next, q, g');
    } else {
      assert x + [] == x && x' + [] == x';
      GateAppend(gate, x, [GoThrough]);
    }
  }

  /** Actions that take no command off a link. */
  predicate TakesNoCommand(net: Net, a: Action)
  {
    a.Arrive? && net.links(Peer(a.place)) != [] ==> net.links(Peer(a.place))[0].Data?
  }

  lemma StepGrows(net: Net, a: Action, p: Place)
    requires Enabled(net, a) && TakesNoCommand(net, a)
    ensures Grew(net, Step(net, a), p)
  {
    var next := Step(net, a);
    var link := net.links(p);
    assert link + [] == link;
    if a.Exchange? {
      var q, r := Place(a.pair, Right), Place(a.pair + 1, Left);
      var sent := if p == q then DataOf(net.ends(r).queue) else if p == r then DataOf(net.ends(q).queue) else [];
      assert next.links(p) == link + sent;
      NoCommands(sent);
      SentGrows(link, sent);
    } else if p == a.place {
      var e := net.ends(p);
      var sent :=
        if a.SendWaiting? || a.SendAsync? then [Data(a.size)]
        else if a.Recv? then Take(e).1
        else if a.Arrive? && !Plugged(net, p) then Receive(e, net.links(Peer(p))[0]).1
        else [];
      assert next.links(p) == link + sent;
      CommandsAppend(link, sent);
    } else if a.Arrive? && p == Peer(a.place) {
      assert next.links(p) == link[1..] && Commands(link) == Commands(link[1..]);
    } else if a.Arrive? && Plugged(net, a.place) && p == Neighbour(a.place) {
      SentGrows(link, [net.links(Peer(a.place))[0]]);
    }
  }

  lemma SentGrows(link: seq<Message>, sent: seq<Message>)
    requires Commands(sent) == []
    ensures Commands(link + sent) == Commands(link)
  {
    CommandsAppend(link, sent);
  }

  lemma GrowthKeeps(net: Net, a: Action)
    requires AllAccounted(net) && Enabled(net, a) && TakesNoCommand(net, a)
    ensures AllAccounted(Step(net, a))
  {
    var next := Step(net, a);
    forall q: Place ensures Grew(net, next, q) { StepGrows(net, a, q); }
    forall p: Place ensures Accounted(next, p, Gate(next, Peer(p))) {
      hide Grew, Accounted, Step;
      GrowthAccounted(net, next, p, Gate(net, Peer(p)));
      Widen(next, p, Gate(net, Peer(p)), Gate(next, Peer(p)));
    }
  }

  lemma Widen(net: Net, p: Place, gate: bool, wider: bool)
    requires Accounted(net, p, gate) && (gate ==> wider)
    ensures Accounted(net, p, wider)
  {
    OpenIsBetter(Ahead(net, p));
  }

  /** Where the command goes that is taken off the link of the peer of `q`. */
  lemma CommandMoves(net: Net, q: Place, p: Place)
    requires Enabled(net, Arrive(q)) && !TakesNoCommand(net, Arrive(q))
    ensures var next, m := Step(net, Arrive(q)), net.links(Peer(q))[0];
      var was, now := Commands(net.links(p)), Commands(next.links(p));
      && next.joints == net.joints && next.ends(p).slowDownRequested == net.ends(p).slowDownRequested
      && (if p == Peer(q) then was == [m] + now
          else if Plugged(net, q) && p == Neighbour(q) then now == was + [m]
          else now == was)
  {
    CommandsAppend(net.links(p), [net.links(Peer(q))[0]]);
    assert net.links(p) + [] == net.links(p);
  }

  /** Taking a command changes what lies ahead of nobody but the end it was sent from. */
  lemma {:induction false} CommandLeaves(net: Net, next: Net, q: Place, p: Place)
    requires Enabled(net, Arrive(q)) && !TakesNoCommand(net, Arrive(q)) && next == Step(net, Arrive(q))
    ensures PausedAhead(next, p) == PausedAhead(net, p)
    ensures p != Peer(q) ==> Ahead(next, p) == Ahead(net, p)
    ensures p == Peer(q) ==> Ahead(net, p) == [net.links(p)[0]] + Ahead(next, p)
    decreases Beyond(net, p)
  {
    hide Step, Commands, Beyond;
    CommandMoves(net, q, p);
    var m, was, now := net.links(Peer(q))[0], Commands(net.links(p)), Commands(next.links(p));
    if Plugged(net, p) {
      OnwardBeyond(net, p);
      CommandLeaves(net, next, q, Onward(p));
      var rest, rest' := Ahead(net, Onward(p)), Ahead(next, Onward(p));
      if p == Peer(q) {
        assert ([m] + now) + rest' == [m] + (now + rest');
      } else if Plugged(net, q) && p == Neighbour(q) {
        assert Onward(p) == Peer(q);
        assert was + ([m] + rest') == (was + [m]) + rest';
      } else {
        assert Onward(p) != Peer(q);
      }
    } else {
      assert p == Peer(q) ==> ([m] + now) + [] == [m] + (now + []);
    }
  }

  lemma CommandKeeps(net: Net, a: Action)
    requires AllAccounted(net) && Enabled(net, a) && a.Arrive? && !TakesNoCommand(net, a)
    ensures AllAccounted(Step(net, a))
  {
    var next := Step(net, a);
    forall p: Place ensures Accounted(next, p, Gate(next, Peer(p))) {
      assert Accounted(net, p, Gate(net, Peer(p)));
      CommandLeaves(net, next, a.place, p);
      if p == Peer(a.place) { OpenIsBetter(Ahead(next, p)); }
    }
  }

  // ---------------------------------------------------------------- every run

  ghost predicate Inv(net: Net)
  {
    Positive(net) && AllAccounted(net) && forall p: Place :: InStep(net, p)
  }

  lemma StepKeeps(net: Net, a: Action)
    requires Inv(net) && Enabled(net, a)
    ensures Inv(Step(net, a))
  {
    hide Positive, AllAccounted, Step, Enabled, InStep;
    StepPositive(net, a);
    if TakesNoCommand(net, a) { GrowthKeeps(net, a); } else { CommandKeeps(net, a); }
    forall p: Place ensures InStep(Step(net, a), p) { StepInStep(net, a, p); }
  }

  lemma StartInv(capacity: Place -> nat)
    ensures Inv(Start(capacity))
  {
    var net := Start(capacity);
    forall p: Place
      ensures PositiveEnd(net.ends(p)) && PositiveLink(net.links(p))
      ensures Accounted(net, p, Gate(net, Peer(p))) && InStep(net, p)
    {
      assert net.ends(p) == Fresh(capacity(p)) && net.ends(Peer(p)) == Fresh(capacity(Peer(p)));
      assert Commands(net.links(p)) == [] && Ahead(net, p) == [];
      assert GateAfter(true, []) && Alternate(true, []);
    }
  }

  lemma {:induction false} InvHolds(capacity: Place -> nat, run: seq<Action>)
    requires Possible(capacity, run)
    ensures Inv(After(capacity, run))
    decreases |run|
  {
    if run == [] {
      StartInv(capacity);
    } else {
      hide Inv;
      InvHolds(capacity, run[..|run| - 1]);
      StepKeeps(After(capacity, run[..|run| - 1]), run[|run| - 1]);
    }
  }

  /**
   In every run the gate at the other end of a pair without plugs, once it has obeyed what is under way,
   is shut iff a pause is asked for.
   */
  lemma GateFollowsRequest(capacity: Place -> nat, run: seq<Action>, p: Place)
    requires Possible(capacity, run)
    requires !Plugged(After(capacity, run), p) && !Plugged(After(capacity, run), Peer(p))
    ensures var net := After(capacity, run);
      var gate, commands := net.ends(Peer(p)).goThrough, Commands(net.links(p));
      Alternate(gate, commands) && GateAfter(gate, commands) == !net.ends(p).slowDownRequested
  {
    InvHolds(capacity, run);
    assert InStep(After(capacity, run), p);
  }

  /**
   In every run a gate that ends up shut, with what is under way along the line obeyed, has an end on the
   line that asks for a pause.
   */
  lemma ShutMeansPaused(capacity: Place -> nat, run: seq<Action>, p: Place)
    requires Possible(capacity, run) && !Plugged(After(capacity, run), Peer(p))
    ensures var net := After(capacity, run);
      !GateAfter(net.ends(Peer(p)).goThrough, Ahead(net, p)) ==> PausedAhead(net, p)
  {
    InvHolds(capacity, run);
    assert Accounted(After(capacity, run), p, Gate(After(capacity, run), Peer(p)));
  }

  // ---------------------------------------------------------------- when a pause has a reason

  ghost predicate AllFounded(net: Net, half: bool)
  {
    forall p: Place :: Founded(net.ends(p), half)
  }

  ghost predicate AlwaysFounded(capacity: Place -> nat, run: seq<Action>, half: bool)
    requires Possible(capacity, run)
    decreases |run|
  {
    AllFounded(After(capacity, run), half) && (run != [] ==> AlwaysFounded(capacity, run[..|run| - 1], half))
  }

  /** Every exchange found both of its ends relaxed. */
  predicate Careful(capacity: Place -> nat, run: seq<Action>, half: bool)
    requires Possible(capacity, run)
    decreases |run|
  {
    run == [] ||
    var before, a := run[..|run| - 1], run[|run| - 1];
    && Careful(capacity, before, half)
    && (a.Exchange? ==> var net := After(capacity, before);
          Relaxed(net.ends(Place(a.pair, Right)), half) && Relaxed(net.ends(Place(a.pair + 1, Left)), half))
  }

  ghost predicate Fits(capacity: Place -> nat)
  {
    forall p: Place :: capacity(p) * 3 < TWO_32
  }

  lemma {:induction false} CapacityFixed(capacity: Place -> nat, run: seq<Action>, p: Place)
    requires Possible(capacity, run)
    ensures After(capacity, run).ends(p).capacity == capacity(p)
    decreases |run|
  {
    if run != [] { CapacityFixed(capacity, run[..|run| - 1], p); }
  }

  lemma StepFounded(net: Net, a: Action, p: Place, half: bool)
    requires Enabled(net, a) && !a.Exchange? && Positive(net) && Founded(net.ends(p), half)
    requires half ==> net.ends(p).capacity * 3 < TWO_32
    ensures Founded(Step(net, a).ends(p), half)
  {
    hide Founded;
    var e := net.ends(p);
    if a.place == p {
      match a
      case Arrive(_) =>
        assert PositiveLink(net.links(Peer(p)));
        if !Plugged(net, p) { ReceiveFounded(e, net.links(Peer(p))[0], half); }
      case Store(_) => PutFounded(e, half);
      case Recv(_) => TakeFounded(e, half);
      case _ =>
    }
  }

  lemma ExchangeFoundedExactly(net: Net, i: nat, half: bool)
    requires AllFounded(net, half)
    ensures AllFounded(Step(net, Exchange(i)), half) <==>
      Relaxed(net.ends(Place(i, Right)), half) && Relaxed(net.ends(Place(i + 1, Left)), half)
  {
    hide Founded, Relaxed;
    var next, p, q := Step(net, Exchange(i)), Place(i, Right), Place(i + 1, Left);
    assert next.ends(p) == Emptied(net.ends(p)) && next.ends(q) == Emptied(net.ends(q));
    EmptiedFoundedExactly(net.ends(p), half);
    EmptiedFoundedExactly(net.ends(q), half);
    assert forall r: Place :: r != p && r != q ==> next.ends(r) == net.ends(r);
  }

  lemma StepFoundedExactly(net: Net, a: Action, half: bool)
    requires Enabled(net, a) && Positive(net) && AllFounded(net, half)
    requires half ==> forall p: Place :: net.ends(p).capacity * 3 < TWO_32
    ensures AllFounded(Step(net, a), half) <==>
      (a.Exchange? ==> Relaxed(net.ends(Place(a.pair, Right)), half) && Relaxed(net.ends(Place(a.pair + 1, Left)), half))
  {
    hide Step, Founded, Relaxed, Enabled, Positive;
    if a.Exchange? {
      ExchangeFoundedExactly(net, a.pair, half);
    } else {
      forall p: Place ensures Founded(Step(net, a).ends(p), half) { StepFounded(net, a, p, half); }
    }
  }

  /** In every run a pause always has its reason exactly if every exchange found both ends relaxed. */
  lemma {:induction false} FoundedExactly(capacity: Place -> nat, run: seq<Action>, half: bool)
    requires Possible(capacity, run) && (half ==> Fits(capacity))
    ensures AlwaysFounded(capacity, run, half) <==> Careful(capacity, run, half)
    decreases |run|
  {
    if run == [] {
      assert forall p: Place :: Start(capacity).ends(p) == Fresh(capacity(p));
    } else {
      hide Step, Inv, AllFounded, Relaxed, Enabled;
      var before, a := run[..|run| - 1], run[|run| - 1];
      FoundedExactly(capacity, before, half);
      var net := After(capacity, before);
      assert After(capacity, run) == Step(net, a);
      if AlwaysFounded(capacity, before, half) {
        assert Positive(net) by { InvHolds(capacity, before); UnfoldInv(net); }
        forall p: Place ensures net.ends(p).capacity == capacity(p) { CapacityFixed(capacity, before, p); }
        StepFoundedExactly(net, a, half);
      }
    }
  }

  lemma UnfoldInv(net: Net)
    requires Inv(net)
    ensures Positive(net)
  {
  }

  /** Nothing is queued or held at the ends whose commands reach the peer of `p`. */
  predicate DrainedAhead(net: Net, p: Place)
    decreases Beyond(net, p)
  {
    && net.ends(p).queue == [] && net.ends(p).held.None?
    && (Plugged(net, p) ==> (OnwardBeyond(net, p); DrainedAhead(net, Onward(p))))
  }

  lemma {:induction false} DrainedNotPaused(net: Net, p: Place)
    requires AllFounded(net, false) && DrainedAhead(net, p)
    ensures !PausedAhead(net, p)
    decreases Beyond(net, p)
  {
    assert Founded(net.ends(p), false);
    if Plugged(net, p) {
      OnwardBeyond(net, p);
      DrainedNotPaused(net, Onward(p));
    }
  }

  /** After careful exchanges, receivers that have read everything, with no command under way, leave the gate open. */
  lemma DrainedMeansOpen(capacity: Place -> nat, run: seq<Action>, p: Place)
    requires Possible(capacity, run) && Careful(capacity, run, false)
    requires !Plugged(After(capacity, run), Peer(p))
    ensures var net := After(capacity, run);
      DrainedAhead(net, p) && Ahead(net, p) == [] ==> net.ends(Peer(p)).goThrough
  {
    FoundedExactly(capacity, run, false);
    ShutMeansPaused(capacity, run, p);
    var net := After(capacity, run);
    if DrainedAhead(net, p) { DrainedNotPaused(net, p); }
  }

  // ---------------------------------------------------------------- an exchange while a pause is on

  /** Plugged, with a pause on, and nothing left whose reading could end it. */
  predicate Abandoned(net: Net, p: Place)
  {
    Plugged(net, p) && net.ends(p).slowDownRequested && net.ends(p).queue == [] && net.ends(p).held.None?
  }

  /** An exchange abandons an end exactly if that asks for a pause and holds no packet. */
  lemma AbandonedExactly(net: Net, i: nat, p: Place)
    requires p == Place(i, Right) || p == Place(i + 1, Left)
    ensures Abandoned(Step(net, Exchange(i)), p) <==> net.ends(p).slowDownRequested && net.ends(p).held.None?
  {
  }

  /** What is abandoned stays so, whatever happens. */
  lemma {:induction false} AbandonedForever(capacity: Place -> nat, run: seq<Action>, more: seq<Action>, p: Place)
    requires Possible(capacity, run + more) && Possible(capacity, run) && Abandoned(After(capacity, run), p)
    ensures Abandoned(After(capacity, run + more), p)
    decreases |more|
  {
    if more == [] {
      assert run + more == run;
    } else {
      var before := more[..|more| - 1];
      assert (run + more)[..|run + more| - 1] == run + before;
      AbandonedForever(capacity, run, before, p);
    }
  }

  lemma Extend(capacity: Place -> nat, run: seq<Action>, a: Action)
    requires Possible(capacity, run) && Enabled(After(capacity, run), a)
    ensures Possible(capacity, run + [a]) && After(capacity, run + [a]) == Step(After(capacity, run), a)
    ensures !a.Exchange? && Careful(capacity, run, true) ==> Careful(capacity, run + [a], true)
  {
    assert (run + [a])[..|run|] == run;
  }

  /** Nothing but the link and the end of `p` differs. */
  ghost predicate OnlyAt(net: Net, next: Net, p: Place)
  {
    && next.joints == net.joints
    && forall q: Place :: q != p ==> next.ends(q) == net.ends(q) && next.links(q) == net.links(q)
  }

  /** `p` takes in one packet of `size` bytes, with nothing else going on. */
  lemma OnePacket(capacity: Place -> nat, run: seq<Action>, p: Place, size: nat) returns (longer: seq<Action>)
    requires Possible(capacity, run) && size > 0
    requires var net := After(capacity, run);
      net.links(Peer(p)) == [] && net.ends(p).held.None? && net.ends(p).notFull && !Plugged(net, p)
    ensures Possible(capacity, longer) && (Careful(capacity, run, true) ==> Careful(capacity, longer, true))
    ensures var net, next := After(capacity, run), After(capacity, longer);
      var (e, sent) := Receive(net.ends(p), Data(size));
      OnlyAt(net, next, p) && next.ends(p) == Put(e) && next.links(p) == net.links(p) + sent
  {
    hide Possible, After, Careful;
    var a, b, c := SendAsync(Peer(p), size), Arrive(p), Store(p);
    var net := After(capacity, run);
    Extend(capacity, run, a);
    var one := run + [a];
    assert After(capacity, one).links(Peer(p)) == [Data(size)];
    Extend(capacity, one, b);
    var two := one + [b];
    assert After(capacity, two).links(Peer(p)) == [];
    Extend(capacity, two, c);
    longer := two + [c];
  }

  /** `p` reads the one packet that is on its way to it. */
  lemma PassOn(capacity: Place -> nat, run: seq<Action>, p: Place) returns (longer: seq<Action>)
    requires Possible(capacity, run)
    requires var net := After(capacity, run);
      && net.links(Peer(p)) != [] && net.links(Peer(p))[0].Data? && !Plugged(net, p)
      && net.ends(p) == Fresh(capacity(p)) && Threshold(capacity(p)) > 0
    ensures Possible(capacity, longer)
    ensures var net, next := After(capacity, run), After(capacity, longer);
      && next.joints == net.joints && (forall q: Place :: next.ends(q) == net.ends(q))
      && (forall q: Place :: next.links(q) == if q == Peer(p) then net.links(q)[1..] else net.links(q))
  {
    hide Possible, After, Careful;
    var net := After(capacity, run);
    assert net.links(p) + [] == net.links(p);
    Extend(capacity, run, Arrive(p));
    var one := run + [Arrive(p)];
    Extend(capacity, one, Store(p));
    var two := one + [Store(p)];
    Extend(capacity, two, Recv(p));
    longer := two + [Recv(p)];
  }

  /** Two packets reach `p`, the first as large as its threshold, and the peer obeys the request to slow down. */
  lemma PausesSender(capacity: Place -> nat, p: Place) returns (run: seq<Action>)
    requires Threshold(capacity(p)) > 0
    ensures Possible(capacity, run)
    ensures var net, t := After(capacity, run), Threshold(capacity(p));
      && net.joints == {} && (forall q: Place :: net.links(q) == [])
      && (forall q: Place :: q != p && q != Peer(p) ==> net.ends(q) == Fresh(capacity(q)))
      && net.ends(Peer(p)) == Fresh(capacity(Peer(p))).(goThrough := false)
      && net.ends(p).queue == [t, 1] && net.ends(p).held.None? && net.ends(p).slowDownRequested
  {
    hide Possible, After, Careful;
    var t := Threshold(capacity(p));
    assert t < capacity(p);
    run := [];
    StartsAt(capacity);
    assert forall q: Place :: Start(capacity).ends(q) == Fresh(capacity(q)) && Start(capacity).links(q) == [];
    run := OnePacket(capacity, run, p, t);
    assert Sum([t]) == t;
    assert After(capacity, run).ends(p).queue == [t] && [t] + [1] == [t, 1];
    run := OnePacket(capacity, run, p, 1);
    assert After(capacity, run).links(p) == [SlowDown];
    Extend(capacity, run, Arrive(Peer(p)));
    run := run + [Arrive(Peer(p))];
  }

  lemma PausedThenExchanged(capacity: Place -> nat, i: nat) returns (run: seq<Action>)
    requires Threshold(capacity(Place(i, Right))) > 0
    ensures Possible(capacity, run)
    ensures var net, p, q := After(capacity, run), Place(i, Right), Place(i + 1, Left);
      && net.joints == {i} && net.links(q) == [Data(Threshold(capacity(p))), Data(1)]
      && (forall r: Place :: r != q ==> net.links(r) == [])
      && (forall r: Place :: net.ends(r).queue == [] && net.ends(r).held.None?)
      && net.ends(p).slowDownRequested && !net.ends(Peer(p)).goThrough
      && net.ends(Peer(q)) == Fresh(capacity(Peer(q)))
  {
    hide Possible, After, Careful;
    var p, q := Place(i, Right), Place(i + 1, Left);
    run := PausesSender(capacity, p);
    var t := Threshold(capacity(p));
    assert [t, 1][1..] == [1] && DataOf([1]) == [Data(1)];
    assert [] + DataOf([t, 1]) == [Data(t), Data(1)] && [] + DataOf([]) == [];
    Extend(capacity, run, Exchange(i));
    run := run + [Exchange(i)];
  }

  /**
   A run for all capacities but the smallest: two packets pause the sender, an exchange empties the queue, and
   the far end reads all there is.  Nothing is queued, held or under way, and the sender's gate is shut.
   */
  lemma ExchangeLeavesGateShut(capacity: Place -> nat, i: nat) returns (run: seq<Action>)
    requires Threshold(capacity(Place(i, Right))) > 0 && Threshold(capacity(Place(i + 1, Right))) > 0
    ensures Possible(capacity, run)
    ensures var net := After(capacity, run);
      && (forall p: Place :: net.ends(p).queue == [] && net.ends(p).held.None? && net.links(p) == [])
      && Abandoned(net, Place(i, Right)) && !Plugged(net, Place(i, Left)) && !net.ends(Place(i, Left)).goThrough
  {
    hide Possible, After, Careful;
    var far := Place(i + 1, Right);
    run := PausedThenExchanged(capacity, i);
    run := PassOn(capacity, run, far);
    run := PassOn(capacity, run, far);
  }

  lemma StartsAt(capacity: Place -> nat)
    ensures Possible(capacity, []) && After(capacity, []) == Start(capacity) && Careful(capacity, [], true)
  {
  }

  // ---------------------------------------------------------------- what a pause costs

  /** How often a pause that `p` asked for has ended. */
  function Lifted(capacity: Place -> nat, run: seq<Action>, p: Place): nat
    requires Possible(capacity, run)
    decreases |run|
  {
    if run == [] then 0
    else
      var before := run[..|run| - 1];
      Lifted(capacity, before, p) +
        if After(capacity, before).ends(p).slowDownRequested && !After(capacity, run).ends(p).slowDownRequested then 1 else 0
  }

  /** The bytes that an action takes out of the queue of `p`. */
  function TakenOut(net: Net, a: Action, p: Place): int
    requires Enabled(net, a)
  {
    if a == Recv(p) then net.ends(p).queue[0]
    else if a.Exchange? && (p == Place(a.pair, Right) || p == Place(a.pair + 1, Left)) then Sum(net.ends(p).queue)
    else 0
  }

  /** All bytes taken out of the queue of `p`. */
  function Gone(capacity: Place -> nat, run: seq<Action>, p: Place): int
    requires Possible(capacity, run)
    decreases |run|
  {
    if run == [] then 0
    else
      var before := run[..|run| - 1];
      Gone(capacity, before, p) + TakenOut(After(capacity, before), run[|run| - 1], p)
  }

  /** From the threshold down to half the capacity. */
  function Stretch(capacity: nat): int { Threshold(capacity) - capacity / 2 }

  /** The bytes read cover the pauses that ended, and the one that is on as far as it has got. */
  ghost predicate Covered(e: End, lifted: nat, gone: int)
  {
    && gone >= lifted * Stretch(e.capacity)
    && (e.slowDownRequested ==> gone >= lifted * Stretch(e.capacity) + Threshold(e.capacity) - Sum(e.queue))
  }

  lemma OneMoreLifted(lifted: nat, stretch: int)
    ensures (lifted + 1) * stretch == lifted * stretch + stretch
  {
  }

  lemma TakeCovered(e: End, lifted: nat, gone: int)
    requires e.queue != [] && Covered(e, lifted, gone)
    ensures var e' := Take(e).0;
      Covered(e', if e.slowDownRequested && !e'.slowDownRequested then lifted + 1 else lifted, gone + e.queue[0])
  {
    OneMoreLifted(lifted, Stretch(e.capacity));
    SumTail(e.queue);
    LetsThroughExactly(e);
  }

  lemma PutCovered(e: End, lifted: nat, gone: int)
    requires e.held.Some? && e.notFull && Covered(e, lifted, gone)
    ensures Covered(Put(e), lifted, gone)
  {
    SumAppend(e.queue, [e.held.value]);
    assert Sum([e.held.value]) == e.held.value;
  }

  lemma StepCovered(net: Net, a: Action, p: Place, lifted: nat, gone: int)
    requires Enabled(net, a) && Covered(net.ends(p), lifted, gone)
    ensures var e, e' := net.ends(p), Step(net, a).ends(p);
      Covered(e', if e.slowDownRequested && !e'.slowDownRequested then lifted + 1 else lifted, gone + TakenOut(net, a, p))
  {
    var e := net.ends(p);
    SumIsNat(e.queue);
    match a
    case Exchange(_) =>
    case Arrive(q) =>
      if q == p && !Plugged(net, p) { AsksExactly(e, net.links(Peer(p))[0]); }
    case Store(q) => if q == p { PutCovered(e, lifted, gone); }
    case Recv(q) => if q == p { TakeCovered(e, lifted, gone); }
    case SendWaiting(_, _) =>
    case SendAsync(_, _) =>
  }

  lemma {:induction false} PausesAreCovered(capacity: Place -> nat, run: seq<Action>, p: Place)
    requires Possible(capacity, run)
    ensures Covered(After(capacity, run).ends(p), Lifted(capacity, run, p), Gone(capacity, run, p))
    decreases |run|
  {
    hide Step, Covered, TakenOut, Enabled;
    if run == [] {
      assert Covered(Fresh(capacity(p)), 0, 0) by { FreshCovered(capacity(p)); }
      assert Start(capacity).ends(p) == Fresh(capacity(p));
    } else {
      var before := run[..|run| - 1];
      PausesAreCovered(capacity, before, p);
      StepCovered(After(capacity, before), run[|run| - 1], p, Lifted(capacity, before, p), Gone(capacity, before, p));
    }
  }

  lemma FreshCovered(capacity: nat)
    ensures Covered(Fresh(capacity), 0, 0)
  {
  }

  /**
   In every run, between asking for a pause and ending it a receiver takes out of its queue the bytes from the
   threshold down to half its capacity, so pauses that ended times that many bytes have been taken out at least.
   */
  lemma PausesAreEarned(capacity: Place -> nat, run: seq<Action>, p: Place)
    requires Possible(capacity, run)
    ensures Lifted(capacity, run, p) * (Threshold(capacity(p)) - capacity(p) / 2) <= Gone(capacity, run, p)
  {
    PausesAreCovered(capacity, run, p);
    CapacityFixed(capacity, run, p);
  }

  /** What a step of any run makes an end without a plug say: when the pause is asked for, and when it ends. */
  lemma CommandsExactly(capacity: Place -> nat, run: seq<Action>, a: Action, p: Place)
    requires Possible(capacity, run) && Enabled(After(capacity, run), a) && !Plugged(After(capacity, run), p)
    ensures var net, next := After(capacity, run), Step(After(capacity, run), a);
      && (next.links(p) == net.links(p) + [SlowDown] <==>
            a == Arrive(p) && net.links(Peer(p))[0].Data? && !net.ends(p).slowDownRequested &&
            Sum(net.ends(p).queue) >= Threshold(capacity(p)))
      && (next.links(p) == net.links(p) + [GoThrough] <==>
            a == Recv(p) && net.ends(p).slowDownRequested && 2 * Sum(next.ends(p).queue) <= capacity(p))
      && (net.ends(p).slowDownRequested && 2 * Sum(next.ends(p).queue) > capacity(p) ==> next.ends(p).slowDownRequested)
  {
    hide Possible, After;
    CapacityFixed(capacity, run, p);
    var net, next := After(capacity, run), Step(After(capacity, run), a);
    StepSays(net, a, p);
  }

  /** The end at `p` says what its queue calls for, and keeps a pause until half is free. */
  ghost predicate Told(net: Net, a: Action, p: Place)
    requires Enabled(net, a)
  {
    var e, next := net.ends(p), Step(net, a);
    && (next.links(p) == net.links(p) + [SlowDown] <==>
          a == Arrive(p) && net.links(Peer(p))[0].Data? && !e.slowDownRequested && Sum(e.queue) >= Threshold(e.capacity))
    && (next.links(p) == net.links(p) + [GoThrough] <==>
          a == Recv(p) && e.slowDownRequested && 2 * Sum(next.ends(p).queue) <= e.capacity)
    && (e.slowDownRequested && 2 * Sum(next.ends(p).queue) > e.capacity ==> next.ends(p).slowDownRequested)
  }

  lemma ArriveSays(net: Net, q: Place, p: Place)
    requires Enabled(net, Arrive(q)) && !Plugged(net, p)
    ensures Told(net, Arrive(q), p)
  {
    hide Sum;
    var e, next, link := net.ends(p), Step(net, Arrive(q)), net.links(p);
    if q == p {
      AsksExactly(e, net.links(Peer(p))[0]);
      Says(link, Receive(e, net.links(Peer(p))[0]).1);
    } else if Peer(q) == p {
      assert |next.links(p)| < |link|;
    } else {
      assert Plugged(net, q) ==> Plugged(net, Neighbour(q));
      Says(link, []);
    }
  }

  lemma ExchangeSays(net: Net, i: nat, p: Place)
    requires Enabled(net, Exchange(i)) && !Plugged(net, p)
    ensures Told(net, Exchange(i), p)
  {
    var next, link := Step(net, Exchange(i)), net.links(p);
    var q, r := Place(i, Right), Place(i + 1, Left);
    var sent := if p == q then DataOf(net.ends(r).queue) else if p == r then DataOf(net.ends(q).queue) else [];
    Says(link, sent);
    assert next.links(p) == link + sent && (sent != [] ==> sent[0] in sent);
  }

  lemma StepSays(net: Net, a: Action, p: Place)
    requires Enabled(net, a) && !Plugged(net, p)
    ensures Told(net, a, p)
  {
    var e, link := net.ends(p), net.links(p);
    match a
    case Arrive(q) => ArriveSays(net, q, p);
    case Recv(q) =>
      if q == p {
        LetsThroughExactly(e);
        SumTail(e.queue);
        Says(link, Take(e).1);
      } else {
        Says(link, []);
      }
    case SendWaiting(q, n) => Says(link, if q == p then [Data(n)] else []);
    case SendAsync(q, n) => Says(link, if q == p then [Data(n)] else []);
    case Store(_) => Says(link, []);
    case Exchange(i) => ExchangeSays(net, i, p);
  }

  /** What was said can be told from the link. */
  lemma Says(link: seq<Message>, sent: seq<Message>)
    ensures link + sent == link + [SlowDown] <==> sent == [SlowDown]
    ensures link + sent == link + [GoThrough] <==> sent == [GoThrough]
    ensures link + [] == link
  {
    assert (link + sent)[|link|..] == sent;
    assert (link + [SlowDown])[|link|..] == [SlowDown] && (link + [GoThrough])[|link|..] == [GoThrough];
  }

  // ---------------------------------------------------------------- room in the queue

  lemma StepLatch(net: Net, a: Action, p: Place)
    requires Enabled(net, a) && net.ends(p).capacity > 0
    requires net.ends(p).notFull <==> Sum(net.ends(p).queue) < net.ends(p).capacity
    ensures Step(net, a).ends(p).notFull <==> Sum(Step(net, a).ends(p).queue) < net.ends(p).capacity
  {
    var e := net.ends(p);
    if a == Recv(p) { SumTail(e.queue); }
  }

  /** In every run a packet may be stored exactly while the queue is below its capacity. */
  lemma {:induction false} LatchExactly(capacity: Place -> nat, run: seq<Action>, p: Place)
    requires Possible(capacity, run) && capacity(p) > 0
    ensures After(capacity, run).ends(p).notFull <==> Sum(After(capacity, run).ends(p).queue) < capacity(p)
    decreases |run|
  {
    hide Step, Enabled;
    if run == [] {
      assert Start(capacity).ends(p) == Fresh(capacity(p)) && Sum([]) == 0;
    } else {
      var before := run[..|run| - 1];
      LatchExactly(capacity, before, p);
      CapacityFixed(capacity, before, p);
      StepLatch(After(capacity, before), run[|run| - 1], p);
    }
  }

  // ---------------------------------------------------------------- what is left at a plugged end

  predicate Bare(e: End) { e.queue == [] && e.held.None? }

  /** A plugged end has nothing queued and nothing to store, as the code's comment on `exchange` says. */
  ghost predicate PluggedBare(net: Net)
  {
    forall p: Place :: Plugged(net, p) ==> Bare(net.ends(p))
  }

  ghost predicate AlwaysPluggedBare(capacity: Place -> nat, run: seq<Action>)
    requires Possible(capacity, run)
    decreases |run|
  {
    PluggedBare(After(capacity, run)) && (run != [] ==> AlwaysPluggedBare(capacity, run[..|run| - 1]))
  }

  /** Every exchange found no packet waiting to be stored at either end. */
  predicate NothingHeld(capacity: Place -> nat, run: seq<Action>)
    requires Possible(capacity, run)
    decreases |run|
  {
    run == [] ||
    var before, a := run[..|run| - 1], run[|run| - 1];
    && NothingHeld(capacity, before)
    && (a.Exchange? ==> var net := After(capacity, before);
          net.ends(Place(a.pair, Right)).held.None? && net.ends(Place(a.pair + 1, Left)).held.None?)
  }

  lemma StepBare(net: Net, a: Action)
    requires PluggedBare(net) && Enabled(net, a)
    ensures PluggedBare(Step(net, a)) <==>
      (a.Exchange? ==> net.ends(Place(a.pair, Right)).held.None? && net.ends(Place(a.pair + 1, Left)).held.None?)
  {
    var next := Step(net, a);
    if a.Exchange? {
      var p, q := Place(a.pair, Right), Place(a.pair + 1, Left);
      assert Plugged(next, p) && Plugged(next, q);
      assert next.ends(p) == Emptied(net.ends(p)) && next.ends(q) == Emptied(net.ends(q));
      assert forall r: Place :: r != p && r != q ==> next.ends(r) == net.ends(r) && Plugged(next, r) == Plugged(net, r);
    } else {
      forall r: Place | Plugged(next, r) ensures Bare(next.ends(r)) {
        assert Plugged(net, r) && Bare(net.ends(r));
      }
    }
  }

  /** In every run plugged ends are always bare exactly if no exchange found a packet waiting to be stored. */
  lemma {:induction false} BareExactly(capacity: Place -> nat, run: seq<Action>)
    requires Possible(capacity, run)
    ensures AlwaysPluggedBare(capacity, run) <==> NothingHeld(capacity, run)
    decreases |run|
  {
    if run != [] {
      hide Step, PluggedBare, Enabled;
      var before, a := run[..|run| - 1], run[|run| - 1];
      BareExactly(capacity, before);
      assert After(capacity, run) == Step(After(capacity, before), a);
      if AlwaysPluggedBare(capacity, before) { StepBare(After(capacity, before), a); }
    }
  }

  /** A packet that waits to be stored when its channel is plugged is queued there afterwards, and not sent on. */
  lemma HeldIsLeftBehind(capacity: Place -> nat, i: nat, size: nat) returns (run: seq<Action>)
    requires size > 0
    ensures Possible(capacity, run)
    ensures var net, p := After(capacity, run), Place(i, Right);
      Plugged(net, p) && net.ends(p).queue == [size] && net.links(Place(i + 1, Left)) == []
  {
    hide Possible, After, Careful;
    var p := Place(i, Right);
    run := [];
    StartsAt(capacity);
    assert forall q: Place :: Start(capacity).ends(q) == Fresh(capacity(q)) && Start(capacity).links(q) == [];
    Extend(capacity, run, SendAsync(Peer(p), size));
    run := run + [SendAsync(Peer(p), size)];
    assert After(capacity, run).links(Peer(p)) == [Data(size)];
    Extend(capacity, run, Arrive(p));
    run := run + [Arrive(p)];
    assert DataOf([]) == [];
    Extend(capacity, run, Exchange(i));
    run := run + [Exchange(i)];
    Extend(capacity, run, Store(p));
    run := run + [Store(p)];
  }

  // ---------------------------------------------------------------- half the capacity

  /** With no packet waiting to be stored, a pause is asked for only above half the capacity. */
  predicate AboveHalf(e: End)
  {
    e.held.None? && e.slowDownRequested ==> Sum(e.queue) > e.capacity / 2
  }

  ghost predicate AlwaysAboveHalf(capacity: Place -> nat)
  {
    forall run, p: Place :: Possible(capacity, run) && Careful(capacity, run, true) ==>
      AboveHalf(After(capacity, run).ends(p))
  }

  /** That holds in every run with careful exchanges exactly when three times each capacity fits 32 bits. */
  lemma AboveHalfExactly(capacity: Place -> nat)
    requires forall p: Place :: capacity(p) < TWO_32
    ensures AlwaysAboveHalf(capacity) <==> Fits(capacity)
  {
    hide After, Possible, Careful;
    if Fits(capacity) {
      forall run, p: Place | Possible(capacity, run) && Careful(capacity, run, true)
        ensures AboveHalf(After(capacity, run).ends(p))
      {
        FoundedExactly(capacity, run, true);
        assert Founded(After(capacity, run).ends(p), true);
      }
    } else {
      var p: Place :| capacity(p) * 3 >= TWO_32;
      var run := PausedBelowHalf(capacity, p);
      assert Possible(capacity, run) && !AboveHalf(After(capacity, run).ends(p));
    }
  }

  lemma WrappedThreshold(capacity: nat)
    requires capacity < TWO_32 <= capacity * 3
    ensures Threshold(capacity) + 1 <= capacity / 2
  {
    var w := capacity * 3 % TWO_32;
    assert w == capacity * 3 - TWO_32 || w == capacity * 3 - 2 * TWO_32;
  }

  /** Beyond that, a queue just past the wrapped threshold is paused below half its capacity. */
  lemma PausedBelowHalf(capacity: Place -> nat, p: Place) returns (run: seq<Action>)
    requires capacity(p) < TWO_32 <= capacity(p) * 3
    ensures Possible(capacity, run) && Careful(capacity, run, true) && !AboveHalf(After(capacity, run).ends(p))
  {
    hide After, Possible, Careful;
    var t := Threshold(capacity(p));
    WrappedThreshold(capacity(p));
    run := [];
    StartsAt(capacity);
    assert Start(capacity).ends(p) == Fresh(capacity(p)) && Start(capacity).links(Peer(p)) == [];
    if t > 0 {
      run := OnePacket(capacity, run, p, t);
      assert After(capacity, run).ends(p).queue == [t];
      assert Sum([t]) == t;
    }
    var before := After(capacity, run).ends(p);
    assert Sum(before.queue) == t;
    run := OnePacket(capacity, run, p, 1);
    SumAppend(before.queue, [1]);
    assert Sum([1]) == 1;
  }
}
