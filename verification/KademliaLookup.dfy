/** The iterative lookup of BEP-5 against a network that may answer anything. */
module KademliaLookup {
  import opened Bytes
  import opened KademliaId
  import opened KademliaTable

  const ALPHA: int := 3
  const SHORTLIST: int := 4 * K

  /** A contact decoded from a reply; the decoders keep only valid ones. */
  type Contact = n: Node | ValidNode(n) witness Node(seq(ID_SIZE, _ => 0), [0], 1)

  datatype Reply = Silence | Reply(contacts: seq<Contact>)

  datatype Exchange = Exchange(node: Node, reply: Reply)

  // ---------------------------------------------------------------- what a run has heard and asked

  function Learnt(reply: Reply): seq<Node>
  {
    if reply.Silence? then [] else reply.contacts
  }

  /** Every node heard of: the starting contacts and those of all replies. */
  function Heard(start: seq<Node>, log: seq<Exchange>): seq<Node>
  {
    if log == [] then start else Heard(start, log[..|log| - 1]) + Learnt(log[|log| - 1].reply)
  }

  function Asked(log: seq<Exchange>): (r: seq<Node>)
    ensures |r| == |log| && forall i :: 0 <= i < |log| ==> r[i] == log[i].node
  {
    seq(|log|, i requires 0 <= i < |log| => log[i].node)
  }

  lemma HeardStep(start: seq<Node>, log: seq<Exchange>, e: Exchange)
    ensures Heard(start, log + [e]) == Heard(start, log) + Learnt(e.reply)
  {
    assert (log + [e])[..|log|] == log;
  }

  lemma IdsAppend(a: seq<Node>, b: seq<Node>)
    ensures Ids(a + b) == Ids(a) + Ids(b)
  {
  }

  // ---------------------------------------------------------------- the shortlist

  ghost predicate Farther(target: NodeId, xs: set<NodeId>, s: seq<Node>)
  {
    forall x, n :: x in xs && n in s ==> Distance(n.id, target) < Distance(x, target)
  }

  ghost predicate WellFormed(s: seq<Node>, seen: set<NodeId>)
  {
    && DistinctIds(s) && (forall n :: n in s ==> ValidNode(n))
    && Ids(s) <= seen && (forall x :: x in seen ==> ValidId(x))
  }

  /** Between rounds: whatever was seen and is not on the list is farther than all of a full list. */
  ghost predicate Settled(target: NodeId, s: seq<Node>, seen: set<NodeId>)
  {
    && WellFormed(s, seen) && |s| <= SHORTLIST
    && Farther(target, seen - Ids(s), s)
    && (seen != Ids(s) ==> |s| == SHORTLIST)
  }

  /** Inside a round that began with `base`. */
  ghost predicate Growing(target: NodeId, base: seq<Node>, s: seq<Node>, seen: set<NodeId>)
  {
    && WellFormed(s, seen) && base <= s && |base| <= SHORTLIST
    && Farther(target, seen - Ids(s), base)
    && (seen != Ids(s) ==> |base| == SHORTLIST)
  }

  /** `r` holds exactly the `count` identifiers of `seen` nearest to the target, nearest first. */
  ghost predicate ExactlyNearest(target: NodeId, seen: set<NodeId>, count: nat, r: seq<Node>)
  {
    && DistinctIds(r) && SortedBy(target, r) && Ids(r) <= seen && |r| == Min(count, |seen|)
    && Farther(target, seen - Ids(r), r)
  }

  function Truncated(target: NodeId, s: seq<Node>, count: nat): seq<Node>
  {
    SortByDistance(target, s)[..Min(count, |s|)]
  }

  /** Truncating after sorting keeps a well-formed part, farther ones being dropped. */
  lemma TruncateDrops(target: NodeId, s: seq<Node>, count: nat, seen: set<NodeId>)
    requires ValidId(target) && WellFormed(s, seen)
    ensures var r := Truncated(target, s, count);
      WellFormed(r, seen) && SortedBy(target, r) && |r| == Min(count, |s|) &&
      Ids(r) <= Ids(s) && (forall n :: n in r ==> n in s) && Farther(target, Ids(s) - Ids(r), r)
  {
    hide SortByDistance, Distance;
    var sorted, k := SortByDistance(target, s), Min(count, |s|);
    var r := sorted[..k];
    SortKeeps(target, s);
    SortDistinct(target, s);
    PermutedIds(s, sorted);
    assert forall n :: n in r ==> n in sorted;
    assert forall i :: 0 <= i < k ==> r[i] == sorted[i];
    forall x, n | x in Ids(s) - Ids(r) && n in r
      ensures Distance(n.id, target) < Distance(x, target)
    {
      DroppedFarther(target, sorted, k, x, n);
      assert n in s;
      if Distance(n.id, target) == Distance(x, target) { DistinctDistance(n, x, target); }
    }
  }

  lemma DroppedFarther(target: NodeId, sorted: seq<Node>, k: nat, x: NodeId, n: Node)
    requires SortedBy(target, sorted) && k <= |sorted| && n in sorted[..k]
    requires x in Ids(sorted) && x !in Ids(sorted[..k])
    ensures Distance(n.id, target) <= Distance(x, target) && n.id != x
  {
    hide Distance;
    assert n.id in Ids(sorted[..k]);
    var m :| m in sorted && m.id == x;
    var i :| 0 <= i < |sorted| && sorted[i] == m;
    var j :| 0 <= j < k && sorted[..k][j] == n;
    PrefixHas(sorted, k);
    assert j < i;
  }

  lemma PrefixHas(s: seq<Node>, k: nat)
    requires k <= |s|
    ensures forall i :: 0 <= i < k ==> s[i].id in Ids(s[..k])
  {
    forall i | 0 <= i < k ensures s[i].id in Ids(s[..k]) { assert s[..k][i] == s[i]; }
  }

  lemma DistinctDistance(n: Node, x: NodeId, target: NodeId)
    requires ValidNode(n) && ValidId(x) && ValidId(target) && Distance(n.id, target) == Distance(x, target)
    ensures n.id == x
  {
    DistanceInjective(n.id, x, target);
  }

  /** Cutting the list to its bound at the end of a round loses no near node. */
  lemma RoundSettles(target: NodeId, base: seq<Node>, s: seq<Node>, seen: set<NodeId>)
    requires ValidId(target) && Growing(target, base, s, seen)
    ensures Settled(target, Truncated(target, s, SHORTLIST), seen) && WellFormed(s, seen)
  {
    hide SortByDistance, Distance, Truncated, DistinctIds, SortedBy, ValidNode;
    TruncateDrops(target, s, SHORTLIST, seen);
    var r := Truncated(target, s, SHORTLIST);
    SizeOfIds(s);
    SizeOfIds(r);
    if |s| <= SHORTLIST { SameSize(Ids(r), Ids(s)); }
    forall x, n | x in seen - Ids(r) && n in r
      ensures Distance(n.id, target) < Distance(x, target)
    {
      if x !in Ids(s) {
        StillFarther(target, base, s, r, x, n);
      }
    }
    if seen != Ids(r) && seen == Ids(s) { assert Ids(r) != Ids(s); }
  }

  lemma SizeOfIds(s: seq<Node>)
    requires DistinctIds(s)
    ensures |Ids(s)| == |s|
  {
    DistinctCount(s);
  }

  lemma SameSize(a: set<NodeId>, b: set<NodeId>)
    requires a <= b && |a| == |b|
    ensures a == b
  {
    assert |b - a| == 0;
  }

  lemma BaseDistinct(base: seq<Node>, s: seq<Node>)
    requires base <= s && DistinctIds(s)
    ensures DistinctIds(base) && Ids(base) <= Ids(s)
  {
    assert forall i :: 0 <= i < |base| ==> base[i] == s[i];
    assert forall n :: n in base ==> n in s;
  }

  /** A kept newcomer displaced someone of the full base, so what the base beats it beats too. */
  lemma StillFarther(target: NodeId, base: seq<Node>, s: seq<Node>, r: seq<Node>, x: NodeId, n: Node)
    requires base <= s && DistinctIds(s) && DistinctIds(r) && |base| == |r| && n in r
    requires Farther(target, Ids(s) - Ids(r), r) && Farther(target, {x}, base)
    ensures Distance(n.id, target) < Distance(x, target)
  {
    hide Distance, DistinctIds;
    BaseDistinct(base, s);
    SizeOfIds(base);
    SizeOfIds(r);
    if n.id in Ids(base) {
      var m :| m in base && m.id == n.id;
      assert Distance(m.id, target) < Distance(x, target);
    } else {
      if Ids(base) <= Ids(r) { SameSize(Ids(base), Ids(r)); }
      var y :| y in Ids(base) && y !in Ids(r);
      var m :| m in base && m.id == y;
      assert Distance(n.id, target) < Distance(y, target);
      assert Distance(m.id, target) < Distance(x, target);
    }
  }

  /** The first K of a settled list are the K nearest of everything seen. */
  lemma SettledGivesNearest(target: NodeId, s: seq<Node>, seen: set<NodeId>, count: nat)
    requires ValidId(target) && Settled(target, s, seen) && count <= SHORTLIST
    ensures ExactlyNearest(target, seen, count, Truncated(target, s, count))
  {
    hide SortByDistance, Distance, Truncated, DistinctIds, SortedBy, ValidNode;
    TruncateDrops(target, s, count, seen);
    var r := Truncated(target, s, count);
    SizeOfIds(s);
    assert |seen| >= |Ids(s)| by { SubsetSize(Ids(s), seen); }
    forall x, n | x in seen - Ids(r) && n in r
      ensures Distance(n.id, target) < Distance(x, target)
    {
      if x !in Ids(s) { assert x in seen - Ids(s) && n in s; }
    }
  }

  lemma SubsetSize(a: set<NodeId>, b: set<NodeId>)
    requires a <= b
    ensures |a| <= |b|
  {
    assert |b| == |a| + |b - a| by { assert b == a + (b - a); }
  }

  lemma SettledBeginsRound(target: NodeId, s: seq<Node>, seen: set<NodeId>)
    requires Settled(target, s, seen)
    ensures Growing(target, s, s, seen) && WellFormed(s, seen)
  {
  }

  // ---------------------------------------------------------------- finitely many identifiers

  ghost function Strings(n: nat): set<seq<byte>>
  {
    if n == 0 then {[]} else set b: byte, s | s in Strings(n - 1) :: [b] + s
  }

  lemma {:induction false} InStrings(s: seq<byte>)
    ensures s in Strings(|s|)
  {
    if s != [] {
      InStrings(s[1..]);
      assert s == [s[0]] + s[1..];
    }
  }

  lemma FinitelyMany(seen: set<NodeId>)
    requires forall x :: x in seen ==> ValidId(x)
    ensures forall x :: x in seen ==> x in Strings(ID_SIZE)
  {
    forall x | x in seen ensures x in Strings(ID_SIZE) { InStrings(x); }
  }

  lemma SeenGrows(before: set<NodeId>, seen: set<NodeId>)
    requires before <= seen && forall x :: x in seen ==> ValidId(x)
    ensures seen != before ==> Strings(ID_SIZE) - seen < Strings(ID_SIZE) - before
  {
    hide Strings;
    FinitelyMany(seen);
    if seen != before {
      var x :| x in seen && x !in before;
      assert x in Strings(ID_SIZE) - before && x !in Strings(ID_SIZE) - seen;
    }
  }

  // ---------------------------------------------------------------- the search

  /** The identifiers asked in vain. */
  function Silent(log: seq<Exchange>): set<NodeId>
  {
    set e | e in log && e.reply.Silence? :: e.node.id
  }

  /** From the table went those that were silent, and no others. */
  ghost predicate Cleared(before: seq<Node>, after: seq<Node>, log: seq<Exchange>)
  {
    forall n :: n in after <==> n in before && n.id !in Silent(log)
  }

  lemma ClearedNothing(all: seq<Node>)
    ensures Cleared(all, all, [])
  {
  }

  lemma ClearedMore(a: seq<Node>, b: seq<Node>, c: seq<Node>, log: seq<Exchange>, more: seq<Exchange>)
    requires Cleared(a, b, log) && Cleared(b, c, more)
    ensures Cleared(a, c, log + more)
  {
    assert forall e :: e in log + more <==> e in log || e in more;
    assert Silent(log + more) == Silent(log) + Silent(more);
  }

  lemma ClearedOne(before: seq<Node>, after: seq<Node>, e: Exchange)
    requires forall n :: n in after <==> n in before && !(e.reply.Silence? && n.id == e.node.id)
    ensures Cleared(before, after, [e])
  {
    assert forall x :: x in [e] <==> x == e;
  }

  // ---------------------------------------------------------------- the rounds of a search

  /** The exchanges from `from` to `to` taught an identifier. */
  ghost predicate Taught(start: seq<Node>, log: seq<Exchange>, from: nat, to: nat)
    requires from <= to <= |log|
  {
    Ids(Heard(start, log[..to])) != Ids(Heard(start, log[..from]))
  }

  /** Asked from `from` to `to` were the nearest three not asked before, of the 32 nearest heard of by then. */
  ghost predicate Round(target: NodeId, start: seq<Node>, log: seq<Exchange>, from: nat, to: nat)
    requires from <= to <= |log|
  {
    exists short: seq<Node> ::
      && ExactlyNearest(target, Ids(Heard(start, log[..from])), SHORTLIST, short)
      && ExactlyNearest(target, Ids(short) - Ids(Asked(log[..from])), ALPHA, Asked(log[from..to]))
  }

  /** The 32 nearest of all heard of have been asked. */
  ghost predicate Exhausted(target: NodeId, start: seq<Node>, log: seq<Exchange>)
  {
    exists short: seq<Node> ::
      ExactlyNearest(target, Ids(Heard(start, log)), SHORTLIST, short) && Ids(short) <= Ids(Asked(log))
  }

  /** The exchanges fall into rounds at `cuts`, and the first `taught` of these taught something. */
  ghost predicate Rounds(target: NodeId, start: seq<Node>, log: seq<Exchange>, cuts: seq<nat>, taught: nat)
  {
    && cuts != [] && cuts[0] == 0 && cuts[|cuts| - 1] == |log|
    && (forall j, k :: 0 <= j < k < |cuts| ==> cuts[j] < cuts[k])
    && (forall j :: 0 <= j < |cuts| - 1 ==> Round(target, start, log, cuts[j], cuts[j + 1]))
    && (forall j :: 0 <= j < |cuts| - 1 && j < taught ==> Taught(start, log, cuts[j], cuts[j + 1]))
  }

  /**
   A whole search: every round but the last taught something, and it stopped because the last one did not, or
   because nobody was left to ask.
   */
  ghost predicate Searched(target: NodeId, start: seq<Node>, log: seq<Exchange>, cuts: seq<nat>)
  {
    && cuts != [] && Rounds(target, start, log, cuts, if |cuts| >= 2 then |cuts| - 2 else 0)
    && ((|cuts| >= 2 && cuts[|cuts| - 2] <= |log| && !Taught(start, log, cuts[|cuts| - 2], |log|)) ||
        Exhausted(target, start, log))
  }

  lemma NoRounds(target: NodeId, start: seq<Node>)
    ensures Rounds(target, start, [], [0], 0)
  {
  }

  /** One more round, after others that all taught something. */
  lemma RoundAdds(target: NodeId, start: seq<Node>, log: seq<Exchange>, cuts: seq<nat>, longer: seq<Exchange>)
    requires cuts != [] && Rounds(target, start, log, cuts, |cuts| - 1) && log < longer && Round(target, start, longer, |log|, |longer|)
    ensures var cuts' := cuts + [|longer|];
      Rounds(target, start, longer, cuts', |cuts| - 1) &&
      (if Taught(start, longer, |log|, |longer|) then Rounds(target, start, longer, cuts', |cuts|)
       else Searched(target, start, longer, cuts'))
  {
    hide ExactlyNearest, Heard, Asked;
    var cuts' := cuts + [|longer|];
    forall j | 0 <= j < |cuts| - 1
      ensures Round(target, start, longer, cuts'[j], cuts'[j + 1]) && Taught(start, longer, cuts'[j], cuts'[j + 1])
    {
      var a, b := cuts[j], cuts[j + 1];
      assert j + 1 == |cuts| - 1 || cuts[j + 1] < cuts[|cuts| - 1];
      assert longer[..a] == log[..a] && longer[..b] == log[..b] && longer[a..b] == log[a..b];
      assert Round(target, start, log, a, b) && Taught(start, log, a, b);
    }
  }

  datatype Search = Search(shortlist: seq<Node>, queried: set<NodeId>, seen: set<NodeId>, log: seq<Exchange>)

  /** The bookkeeping matches the exchanges so far, and no identifier was asked twice. */
  ghost predicate Recorded(start: seq<Node>, network: (nat, Node) -> Reply, st: Search)
  {
    && st.seen == Ids(Heard(start, st.log))
    && st.queried == Ids(Asked(st.log)) && DistinctIds(Asked(st.log))
    && (forall i :: 0 <= i < |st.log| ==> st.log[i].reply == network(i, st.log[i].node))
    && (forall i :: 0 <= i < |st.log| ==> st.log[i].node in Heard(start, st.log[..i]))
    && (forall n :: n in st.shortlist ==> n in Heard(start, st.log))
  }

  lemma RecordExchange(start: seq<Node>, network: (nat, Node) -> Reply, st: Search, node: Node)
    requires Recorded(start, network, st) && node.id !in st.queried && node in Heard(start, st.log)
    ensures var reply := network(|st.log|, node);
      Recorded(start, network,
               Search(st.shortlist, st.queried + {node.id}, st.seen + Ids(Learnt(reply)), st.log + [Exchange(node, reply)]))
  {
    hide Heard, Learnt;
    var reply := network(|st.log|, node);
    var e := Exchange(node, reply);
    var log := st.log + [e];
    HeardStep(start, st.log, e);
    IdsAppend(Heard(start, st.log), Learnt(reply));
    assert Asked(log) == Asked(st.log) + [node];
    IdsAppend(Asked(st.log), [node]);
    assert Ids([node]) == {node.id};
    forall i | 0 <= i < |st.log| ensures Asked(st.log)[i].id != node.id { assert Asked(st.log)[i] in Asked(st.log); }
    forall i | 0 <= i < |log| ensures log[i].node in Heard(start, log[..i]) && log[i].reply == network(i, log[i].node) {
      if i < |st.log| { assert log[..i] == st.log[..i]; } else { assert log[..i] == st.log; }
    }
  }

  lemma GrowOne(target: NodeId, base: seq<Node>, s: seq<Node>, seen: set<NodeId>, n: Node)
    requires Growing(target, base, s, seen) && ValidNode(n) && n.id !in seen
    ensures Growing(target, base, s + [n], seen + {n.id})
  {
    hide Distance;
    IdsAppend(s, [n]);
    assert Ids([n]) == {n.id};
    forall i | 0 <= i < |s| ensures s[i].id != n.id { assert s[i] in s; }
    assert (seen + {n.id}) - Ids(s + [n]) == seen - Ids(s);
  }

  /** Appends the contacts not seen before. */
  method AddContacts(shortlist: seq<Node>, known: set<NodeId>, contacts: seq<Node>,
                     ghost target: NodeId, ghost base: seq<Node>)
    returns (s: seq<Node>, seen: set<NodeId>, improved: bool)
    requires Growing(target, base, shortlist, known) && (forall n :: n in contacts ==> ValidNode(n))
    ensures Growing(target, base, s, seen)
    ensures seen == known + Ids(contacts) && (improved <==> seen != known)
    ensures forall n :: n in s ==> n in shortlist || n in contacts
  {
    hide Growing, ValidNode;
    s, seen, improved := shortlist, known, false;
    for i := 0 to |contacts|
      invariant Growing(target, base, s, seen)
      invariant seen == known + Ids(contacts[..i]) && (improved <==> seen != known)
      invariant forall n :: n in s ==> n in shortlist || n in contacts
    {
      var n := contacts[i];
      assert contacts[..i + 1] == contacts[..i] + [n];
      IdsAppend(contacts[..i], [n]);
      assert Ids([n]) == {n.id};
      if n.id !in seen {
        GrowOne(target, base, s, seen, n);
        seen := seen + {n.id};
        s := s + [n];
        improved := true;
      }
    }
    assert contacts[..|contacts|] == contacts;
  }

  /** Asks one node; a silent one is dropped from the routing table. */
  method QueryOne(table: RoutingTable, target: NodeId, network: (nat, Node) -> Reply, st: Search, node: Node,
                  ghost start: seq<Node>, ghost base: seq<Node>)
    returns (next: Search, improved: bool)
    requires table.Valid() && Recorded(start, network, st) && Growing(target, base, st.shortlist, st.seen)
    requires node.id !in st.queried && node in Heard(start, st.log)
    modifies table`buckets
    ensures table.Valid() && Recorded(start, network, next) && Growing(target, base, next.shortlist, next.seen)
    ensures next.queried == st.queried + {node.id} && next.log == st.log + [Exchange(node, network(|st.log|, node))]
    ensures forall n :: n in Concat(table.buckets) <==>
      n in old(Concat(table.buckets)) && !(network(|st.log|, node).Silence? && n.id == node.id)
    ensures st.seen <= next.seen && (improved <==> next.seen != st.seen)
    ensures forall n :: n in Heard(start, st.log) ==> n in Heard(start, next.log)
  {
    hide Growing, RoutingTable.Valid, Heard, BucketIndex;
    RecordExchange(start, network, st, node);
    var reply := network(|st.log|, node);
    var e := Exchange(node, reply);
    HeardStep(start, st.log, e);
    if reply.Silence? {
      table.Remove(node.id);
      next := Search(st.shortlist, st.queried + {node.id}, st.seen, st.log + [e]);
      improved := false;
      assert Ids(Learnt(reply)) == {};
      assert st.seen + {} == st.seen;
    } else {
      var s, seen, more := AddContacts(st.shortlist, st.seen, reply.contacts, target, base);
      improved := more;
      next := Search(s, st.queried + {node.id}, seen, st.log + [e]);
    }
  }

  /** The nodes of a list not asked yet, in its order. */
  function Unasked(s: seq<Node>, queried: set<NodeId>): seq<Node>
  {
    if s == [] then []
    else
      var n := s[|s| - 1];
      Unasked(s[..|s| - 1], queried) + if n.id in queried then [] else [n]
  }

  lemma {:induction false} UnaskedKeeps(target: NodeId, s: seq<Node>, queried: set<NodeId>)
    requires DistinctIds(s) && SortedBy(target, s)
    ensures var r := Unasked(s, queried);
      DistinctIds(r) && SortedBy(target, r) && forall n :: n in r <==> n in s && n.id !in queried
  {
    hide Distance, SortedBy, DistinctIds;
    if s == [] {
      assert Unasked(s, queried) == s;
    } else {
      assert Unasked(s[..|s| - 1], queried) + [] == Unasked(s[..|s| - 1], queried);
      var front, n := s[..|s| - 1], s[|s| - 1];
      assert front + [n] == s;
      FrontKept(target, front, n);
      UnaskedKeeps(target, front, queried);
      if n.id !in queried { BehindAll(target, front, n, Unasked(front, queried)); }
    }
  }

  lemma FrontKept(target: NodeId, front: seq<Node>, n: Node)
    requires DistinctIds(front + [n]) && SortedBy(target, front + [n])
    ensures DistinctIds(front) && SortedBy(target, front)
    ensures forall m :: m in front ==> m.id != n.id && Distance(m.id, target) <= Distance(n.id, target)
  {
    hide Distance;
    var s := front + [n];
    assert forall i :: 0 <= i < |front| ==> s[i] == front[i];
    assert s[|front|] == n;
  }

  lemma BehindAll(target: NodeId, front: seq<Node>, n: Node, r: seq<Node>)
    requires DistinctIds(r) && SortedBy(target, r) && forall m :: m in r ==> m in front
    requires forall m :: m in front ==> m.id != n.id && Distance(m.id, target) <= Distance(n.id, target)
    ensures DistinctIds(r + [n]) && SortedBy(target, r + [n])
  {
    hide Distance;
    forall i | 0 <= i < |r| ensures r[i].id != n.id && Distance(r[i].id, target) <= Distance(n.id, target) {
      assert r[i] in r;
    }
  }

  /** At the end of a sorted list, or as soon as they are enough, the unasked ones before `i` are the nearest of all. */
  lemma FrontUnasked(target: NodeId, s: seq<Node>, queried: set<NodeId>, i: nat)
    requires ValidId(target) && DistinctIds(s) && SortedBy(target, s) && forall n :: n in s ==> ValidNode(n)
    requires i <= |s| && |Unasked(s[..i], queried)| <= ALPHA
    requires i == |s| || |Unasked(s[..i], queried)| == ALPHA
    ensures ExactlyNearest(target, Ids(s) - queried, ALPHA, Unasked(s[..i], queried))
    ensures forall n :: n in Unasked(s[..i], queried) ==> n in s
  {
    hide Distance, Unasked, ValidNode;
    var front, all := s[..i], Ids(s) - queried;
    assert forall j :: 0 <= j < i ==> front[j] == s[j];
    assert forall n :: n in front ==> n in s;
    UnaskedKeeps(target, front, queried);
    var r := Unasked(front, queried);
    SizeOfIds(r);
    SubsetSize(Ids(r), all);
    if i == |s| {
      assert front == s;
      assert Ids(r) == all;
    }
    forall x, n | x in all - Ids(r) && n in r ensures Distance(n.id, target) < Distance(x, target) {
      UnaskedBehind(target, s, queried, i, x, n);
      if Distance(n.id, target) == Distance(x, target) { DistinctDistance(n, x, target); }
    }
  }

  lemma UnaskedBehind(target: NodeId, s: seq<Node>, queried: set<NodeId>, i: nat, x: NodeId, n: Node)
    requires DistinctIds(s) && SortedBy(target, s) && i <= |s| && (forall m :: m in s ==> ValidNode(m))
    requires n in s[..i] && x in Ids(s) - queried && x != n.id && forall m :: m in s[..i] && m.id !in queried ==> m.id != x
    ensures Distance(n.id, target) <= Distance(x, target) && ValidId(x)
  {
    hide Distance;
    var m :| m in s && m.id == x;
    var j :| 0 <= j < |s| && s[j] == m;
    var k :| 0 <= k < i && s[..i][k] == n;
    assert forall p :: 0 <= p < i ==> s[p] in s[..i];
  }

  /** The nearest nodes of the list not asked yet, from its front. */
  method SelectQueries(shortlist: seq<Node>, queried: set<NodeId>, ghost target: NodeId) returns (toQuery: seq<Node>)
    requires ValidId(target) && DistinctIds(shortlist) && SortedBy(target, shortlist) && forall n :: n in shortlist ==> ValidNode(n)
    ensures ExactlyNearest(target, Ids(shortlist) - queried, ALPHA, toQuery)
    ensures forall n :: n in toQuery ==> n in shortlist
  {
    toQuery := [];
    var i := 0;
    while i < |shortlist| && |toQuery| < ALPHA
      invariant 0 <= i <= |shortlist| && |toQuery| <= ALPHA
      invariant toQuery == Unasked(shortlist[..i], queried)
    {
      assert shortlist[..i + 1][..i] == shortlist[..i];
      if shortlist[i].id !in queried {
        toQuery := toQuery + [shortlist[i]];
      }
      i := i + 1;
    }
    FrontUnasked(target, shortlist, queried, i);
  }

  /** One round of queries, sequentially. */
  method QueryRound(table: RoutingTable, target: NodeId, network: (nat, Node) -> Reply, st: Search, toQuery: seq<Node>,
                    ghost start: seq<Node>)
    returns (next: Search, improved: bool)
    requires table.Valid() && Recorded(start, network, st) && Growing(target, st.shortlist, st.shortlist, st.seen)
    requires DistinctIds(toQuery) && forall n :: n in toQuery ==> n in st.shortlist && n.id !in st.queried
    modifies table`buckets
    ensures table.Valid() && Recorded(start, network, next) && Growing(target, st.shortlist, next.shortlist, next.seen)
    ensures st.seen <= next.seen && (improved <==> next.seen != st.seen)
    ensures st.log <= next.log && Asked(next.log) == Asked(st.log) + toQuery
    ensures Cleared(old(Concat(table.buckets)), Concat(table.buckets), next.log[|st.log|..])
  {
    hide Growing, RoutingTable.Valid, Heard, Cleared;
    ClearedNothing(Concat(table.buckets));
    assert st.log[|st.log|..] == [] && Asked(st.log) + toQuery[..0] == Asked(st.log);
    next, improved := st, false;
    for i := 0 to |toQuery|
      invariant table.Valid() && Recorded(start, network, next) && Growing(target, st.shortlist, next.shortlist, next.seen)
      invariant st.seen <= next.seen && (improved <==> next.seen != st.seen)
      invariant forall n :: n in toQuery[i..] ==> n.id !in next.queried
      invariant forall n :: n in toQuery ==> n in Heard(start, next.log)
      invariant st.log <= next.log && Asked(next.log) == Asked(st.log) + toQuery[..i]
      invariant Cleared(old(Concat(table.buckets)), Concat(table.buckets), next.log[|st.log|..])
    {
      assert toQuery[i..] == [toQuery[i]] + toQuery[i + 1..];
      assert toQuery[i] in toQuery;
      var more: bool;
      ghost var before, nodes := next, Concat(table.buckets);
      next, more := QueryOne(table, target, network, next, toQuery[i], start, st.shortlist);
      improved := improved || more;
      ghost var e := Exchange(toQuery[i], network(|before.log|, toQuery[i]));
      assert Asked(next.log) == Asked(before.log) + [toQuery[i]] && toQuery[..i + 1] == toQuery[..i] + [toQuery[i]];
      assert next.log[|st.log|..] == before.log[|st.log|..] + [e];
      ClearedOne(nodes, Concat(table.buckets), e);
      ClearedMore(old(Concat(table.buckets)), nodes, Concat(table.buckets), before.log[|st.log|..], [e]);
    }
    assert toQuery[..|toQuery|] == toQuery;
  }

  lemma StartRecorded(start: seq<Node>, network: (nat, Node) -> Reply)
    ensures Recorded(start, network, Search(start, {}, Ids(start), []))
  {
    assert Asked([]) == [] && Ids([]) == {};
  }

  lemma StartSettled(target: NodeId, all: seq<Node>, start: seq<Node>)
    requires Nearest(target, all, K, start) && forall n :: n in start ==> ValidNode(n)
    ensures Settled(target, start, Ids(start))
  {
    hide Distance, SortedBy, DistinctIds;
  }

  /** Sorts the list by distance and keeps the first `count`. */
  method Reordered(target: NodeId, st: Search, count: nat, ghost start: seq<Node>, ghost network: (nat, Node) -> Reply)
    returns (next: Search)
    requires ValidId(target) && Recorded(start, network, st) && WellFormed(st.shortlist, st.seen)
    ensures next == st.(shortlist := Truncated(target, st.shortlist, count)) && Recorded(start, network, next)
  {
    hide SortByDistance, WellFormed, Heard, Asked, DistinctIds;
    TruncateDrops(target, st.shortlist, count, st.seen);
    var sorted := SortByDistance(target, st.shortlist);
    assert sorted[..|sorted|] == sorted;
    next := st.(shortlist := if |sorted| > count then sorted[..count] else sorted);
  }

  /** The list at the beginning of a round is the 32 nearest of all heard of. */
  lemma RoundBegins(target: NodeId, start: seq<Node>, network: (nat, Node) -> Reply, st: Search, s: seq<Node>)
    requires ValidId(target) && Recorded(start, network, st) && Settled(target, st.shortlist, st.seen)
    requires s == Truncated(target, st.shortlist, SHORTLIST)
    ensures ExactlyNearest(target, Ids(Heard(start, st.log)), SHORTLIST, s)
    ensures SortedBy(target, s) && DistinctIds(s) && forall n :: n in s ==> ValidNode(n)
  {
    hide Growing, Truncated, Distance, Asked;
    SettledGivesNearest(target, st.shortlist, st.seen, SHORTLIST);
    TruncateDrops(target, st.shortlist, SHORTLIST, st.seen);
  }

  lemma NoneNearest(target: NodeId, seen: set<NodeId>, count: nat)
    requires ExactlyNearest(target, seen, count, []) && count > 0
    ensures seen == {}
  {
    hide SortedBy, Farther, DistinctIds;
  }

  lemma NobodyLeft(target: NodeId, start: seq<Node>, log: seq<Exchange>, short: seq<Node>)
    requires ExactlyNearest(target, Ids(Heard(start, log)), SHORTLIST, short)
    requires ExactlyNearest(target, Ids(short) - Ids(Asked(log)), ALPHA, [])
    ensures Exhausted(target, start, log)
  {
    hide Heard, Asked, ExactlyNearest, Ids;
    var all, asked := Ids(short), Ids(Asked(log));
    NoneNearest(target, all - asked, ALPHA);
    assert all <= asked by { forall id | id in all ensures id in asked { assert id !in all - asked; } }
  }

  lemma RoundEnds(target: NodeId, start: seq<Node>, log: seq<Exchange>, short: seq<Node>, longer: seq<Exchange>, asked: seq<Node>)
    requires ExactlyNearest(target, Ids(Heard(start, log)), SHORTLIST, short)
    requires ExactlyNearest(target, Ids(short) - Ids(Asked(log)), ALPHA, asked)
    requires log <= longer && Asked(longer) == Asked(log) + asked
    ensures Round(target, start, longer, |log|, |longer|)
  {
    hide ExactlyNearest, Heard;
    assert longer[..|log|] == log && longer[|log|..|longer|] == longer[|log|..];
    assert Asked(longer[|log|..]) == asked by {
      forall i | 0 <= i < |asked| ensures Asked(longer[|log|..])[i] == asked[i] {
        assert Asked(longer)[|log| + i] == longer[|log| + i].node;
      }
    }
  }

  /**
   The iterative lookup.  `cuts` are the places in the log where its rounds begin and end.
   */
  method IterativeLookup(table: RoutingTable, target: NodeId, network: (nat, Node) -> Reply)
    returns (nodes: seq<Node>, log: seq<Exchange>, start: seq<Node>, ghost cuts: seq<nat>)
    requires table.Valid()
    modifies table`buckets
    ensures table.Valid() && Cleared(old(Concat(table.buckets)), Concat(table.buckets), log)
    ensures !ValidId(target) ==> nodes == [] && log == []
    ensures ValidId(target) ==> Nearest(target, old(Concat(table.buckets)), K, start)
    ensures DistinctIds(Asked(log))
    ensures forall i :: 0 <= i < |log| ==> log[i].reply == network(i, log[i].node) && log[i].node in Heard(start, log[..i])
    ensures ValidId(target) ==> Searched(target, start, log, cuts)
    ensures ValidId(target) ==> ExactlyNearest(target, Ids(Heard(start, log)), K, nodes)
    ensures forall n :: n in nodes ==> n in Heard(start, log)
  {
    hide Growing, RoutingTable.Valid, Heard, ExactlyNearest, Settled, Nearest, DistinctIds, SortByDistance, Cleared,
      Rounds, Round, Taught, Exhausted, Truncated, SortedBy, Asked, Recorded, Ids, Strings;
    start, nodes, log, cuts := [], [], [], [0];
    StartRecorded(start, network);
    Bookkeeping(start, network, Search(start, {}, Ids(start), []));
    ClearedNothing(Concat(table.buckets));
    if !ValidId(target) {
      return;
    }
    start := table.Closest(target, K);
    StartRecorded(start, network);
    StartSettled(target, Concat(table.buckets), start);
    NoRounds(target, start);
    var st := Search(start, {}, Ids(start), []);
    var improved := true;
    while improved
      invariant table.Valid() && Recorded(start, network, st) && Settled(target, st.shortlist, st.seen)
      invariant Cleared(old(Concat(table.buckets)), Concat(table.buckets), st.log)
      invariant cuts != [] && (improved ==> Rounds(target, start, st.log, cuts, |cuts| - 1))
      invariant !improved ==> Searched(target, start, st.log, cuts)
      decreases Strings(ID_SIZE) - st.seen, improved
    {
      SettledBeginsRound(target, st.shortlist, st.seen);
      RoundSettles(target, st.shortlist, st.shortlist, st.seen);
      RoundBegins(target, start, network, st, Truncated(target, st.shortlist, SHORTLIST));
      st := Reordered(target, st, SHORTLIST, start, network);
      improved := false;
      SettledBeginsRound(target, st.shortlist, st.seen);
      Bookkeeping(start, network, st);
      var toQuery := SelectQueries(st.shortlist, st.queried, target);
      if toQuery == [] {
        NobodyLeft(target, start, st.log, st.shortlist);
        FewerTaught(target, start, st.log, cuts);
        break;
      }
      ghost var before, here := st, Concat(table.buckets);
      PickedFresh(target, st.shortlist, st.queried, toQuery);
      st, improved := QueryRound(table, target, network, st, toQuery, start);
      ClearedMore(old(Concat(table.buckets)), here, Concat(table.buckets), before.log, st.log[|before.log|..]);
      assert before.log + st.log[|before.log|..] == st.log;
      Bookkeeping(start, network, st);
      RoundEnds(target, start, before.log, before.shortlist, st.log, toQuery);
      RoundAdds(target, start, before.log, cuts, st.log);
      TaughtIs(start, before.log, st.log);
      cuts := cuts + [|st.log|];
      RoundSettles(target, before.shortlist, st.shortlist, st.seen);
      SeenGrows(before.seen, st.seen);
      st := Reordered(target, st, SHORTLIST, start, network);
    }
    SettledBeginsRound(target, st.shortlist, st.seen);
    SettledGivesNearest(target, st.shortlist, st.seen, K);
    st := Reordered(target, st, K, start, network);
    Bookkeeping(start, network, st);
    nodes := st.shortlist;
    log := st.log;
  }

  lemma Bookkeeping(start: seq<Node>, network: (nat, Node) -> Reply, st: Search)
    requires Recorded(start, network, st)
    ensures st.seen == Ids(Heard(start, st.log)) && st.queried == Ids(Asked(st.log)) && DistinctIds(Asked(st.log))
    ensures forall i :: 0 <= i < |st.log| ==>
      st.log[i].reply == network(i, st.log[i].node) && st.log[i].node in Heard(start, st.log[..i])
    ensures forall n :: n in st.shortlist ==> n in Heard(start, st.log)
  {
  }

  lemma PickedFresh(target: NodeId, s: seq<Node>, queried: set<NodeId>, picked: seq<Node>)
    requires ExactlyNearest(target, Ids(s) - queried, ALPHA, picked)
    ensures DistinctIds(picked) && forall n :: n in picked ==> n.id !in queried
  {
    forall n | n in picked ensures n.id !in queried { assert n.id in Ids(picked); }
  }

  lemma TaughtIs(start: seq<Node>, log: seq<Exchange>, longer: seq<Exchange>)
    requires log <= longer
    ensures Taught(start, longer, |log|, |longer|) <==> Ids(Heard(start, longer)) != Ids(Heard(start, log))
  {
    assert longer[..|log|] == log && longer[..|longer|] == longer;
  }

  lemma FewerTaught(target: NodeId, start: seq<Node>, log: seq<Exchange>, cuts: seq<nat>)
    requires cuts != [] && Rounds(target, start, log, cuts, |cuts| - 1)
    ensures Rounds(target, start, log, cuts, if |cuts| >= 2 then |cuts| - 2 else 0)
  {
  }
}
