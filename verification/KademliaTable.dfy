/** The k-bucket routing table of BEP-5. */
module KademliaTable {
  import opened Bytes
  import opened KademliaId

  const K: int := 8

  datatype Node = Node(id: NodeId, address: seq<byte>, port: nat)

  predicate ValidNode(n: Node) { ValidId(n.id) && n.address != [] && n.port != 0 }

  // ---------------------------------------------------------------- order by distance

  ghost predicate SortedBy(target: NodeId, s: seq<Node>)
  {
    forall i, j :: 0 <= i < j < |s| ==> Distance(s[i].id, target) <= Distance(s[j].id, target)
  }

  ghost predicate DistinctIds(s: seq<Node>)
  {
    forall i, j :: 0 <= i < j < |s| ==> s[i].id != s[j].id
  }

  function Ids(s: seq<Node>): set<NodeId>
  {
    set n | n in s :: n.id
  }

  /** `DistanceLess` compares the XOR results as byte strings. */
  predicate Nearer(target: NodeId, a: Node, b: Node)
  {
    LexLess(Xor(a.id, target), Xor(b.id, target))
  }

  function InsertByDistance(target: NodeId, n: Node, s: seq<Node>): (r: seq<Node>)
    ensures |r| == |s| + 1
  {
    if s == [] || !Nearer(target, s[0], n) then [n] + s else [s[0]] + InsertByDistance(target, n, s[1..])
  }

  /** `std::sort` with `DistanceLess`. */
  function SortByDistance(target: NodeId, s: seq<Node>): (r: seq<Node>)
    ensures |r| == |s|
  {
    if s == [] then [] else InsertByDistance(target, s[0], SortByDistance(target, s[1..]))
  }

  lemma {:induction false} InsertPermutes(target: NodeId, n: Node, s: seq<Node>)
    ensures multiset(InsertByDistance(target, n, s)) == multiset(s) + multiset{n}
  {
    hide Nearer;
    if s != [] && Nearer(target, s[0], n) {
      assert s == [s[0]] + s[1..];
      InsertPermutes(target, n, s[1..]);
    }
  }

  lemma {:induction false} InsertSorts(target: NodeId, n: Node, s: seq<Node>)
    requires ValidNode(n) && (forall m :: m in s ==> ValidNode(m)) && SortedBy(target, s)
    ensures SortedBy(target, InsertByDistance(target, n, s))
  {
    hide Nearer, Distance, ValidNode, SortedBy;
    if s == [] {
      PrependSorted(target, n, s);
    } else {
      assert s == [s[0]] + s[1..] && s[0] in s;
      TailSorted(target, s);
      NearerIsSmaller(target, s[0], n);
      if Nearer(target, s[0], n) {
        InsertSorts(target, n, s[1..]);
        InsertPermutes(target, n, s[1..]);
        var rest := InsertByDistance(target, n, s[1..]);
        forall m | m in rest ensures Distance(s[0].id, target) <= Distance(m.id, target) {
          assert m in multiset(rest);
        }
        PrependSorted(target, s[0], rest);
      } else {
        PrependSorted(target, n, s);
      }
    }
  }

  lemma PrependSorted(target: NodeId, n: Node, s: seq<Node>)
    requires SortedBy(target, s) && forall m :: m in s ==> Distance(n.id, target) <= Distance(m.id, target)
    ensures SortedBy(target, [n] + s)
  {
    hide Distance;
  }

  lemma TailSorted(target: NodeId, s: seq<Node>)
    requires s != [] && SortedBy(target, s)
    ensures SortedBy(target, s[1..])
    ensures forall m :: m in s ==> Distance(s[0].id, target) <= Distance(m.id, target)
  {
    hide Distance;
  }

  lemma NearerIsSmaller(target: NodeId, a: Node, b: Node)
    requires ValidNode(a) && ValidNode(b)
    ensures Nearer(target, a, b) <==> Distance(a.id, target) < Distance(b.id, target)
  {
    ComparesDistance(a.id, b.id, target);
  }

  lemma {:induction false} SortKeeps(target: NodeId, s: seq<Node>)
    requires forall m :: m in s ==> ValidNode(m)
    ensures var r := SortByDistance(target, s); SortedBy(target, r) && multiset(r) == multiset(s)
  {
    hide Distance, InsertByDistance;
    if s != [] {
      assert s == [s[0]] + s[1..];
      SortKeeps(target, s[1..]);
      var rest := SortByDistance(target, s[1..]);
      forall m | m in rest ensures ValidNode(m) { assert m in multiset(rest); }
      InsertPermutes(target, s[0], rest);
      InsertSorts(target, s[0], rest);
    }
  }

  lemma PermutedIds(s: seq<Node>, r: seq<Node>)
    requires multiset(s) == multiset(r)
    ensures Ids(s) == Ids(r) && (forall n :: n in s <==> n in r)
  {
    forall n ensures n in s <==> n in r { assert n in multiset(s) <==> n in multiset(r); }
  }

  lemma {:induction false} DistinctCount(s: seq<Node>)
    ensures |Ids(s)| <= |s| && (DistinctIds(s) <==> |Ids(s)| == |s|)
  {
    hide DistinctIds;
    if s == [] {
      assert Ids(s) == {} && DistinctIds(s) by { DistinctNone(); }
    } else {
      var n, rest := s[0], s[1..];
      DistinctCount(rest);
      assert s == [n] + rest;
      assert Ids(s) == Ids(rest) + {n.id};
      DistinctFirst(n, rest);
      if n.id in Ids(rest) {
        assert Ids(s) == Ids(rest);
      }
    }
  }

  lemma DistinctNone()
    ensures DistinctIds([])
  {
  }

  lemma DistinctFirst(n: Node, rest: seq<Node>)
    ensures DistinctIds([n] + rest) <==> DistinctIds(rest) && n.id !in Ids(rest)
  {
    var s := [n] + rest;
    assert s[1..] == rest;
    if DistinctIds(s) {
      DistinctTail(s);
      forall m | m in rest ensures m.id != n.id {
        var k :| 0 <= k < |rest| && rest[k] == m;
        assert s[k + 1].id != s[0].id;
      }
    }
    if DistinctIds(rest) && n.id !in Ids(rest) { DistinctGrows(n, rest); }
  }

  lemma DistinctGrows(n: Node, rest: seq<Node>)
    requires DistinctIds(rest) && n.id !in Ids(rest)
    ensures DistinctIds([n] + rest)
  {
    forall j | 0 <= j < |rest| ensures rest[j].id != n.id { assert rest[j] in rest; }
  }

  lemma DistinctTail(s: seq<Node>)
    requires s != [] && DistinctIds(s)
    ensures DistinctIds(s[1..])
  {
  }

  /** Sorting keeps identifiers distinct. */
  lemma SortDistinct(target: NodeId, s: seq<Node>)
    requires (forall m :: m in s ==> ValidNode(m)) && DistinctIds(s)
    ensures DistinctIds(SortByDistance(target, s))
  {
    hide SortByDistance, Distance;
    SortKeeps(target, s);
    PermutedIds(s, SortByDistance(target, s));
    DistinctCount(s);
    DistinctCount(SortByDistance(target, s));
  }

  /** `r` lists, nearest first, the nodes of `all` nearest to the target, as many as asked for or there are. */
  ghost predicate Nearest(target: NodeId, all: seq<Node>, count: nat, r: seq<Node>)
  {
    && |r| == Min(count, |all|)
    && SortedBy(target, r) && DistinctIds(r)
    && (forall n :: n in r ==> n in all)
    && (forall n, m :: n in all && n !in r && m in r ==> Distance(m.id, target) <= Distance(n.id, target))
  }

  lemma PrefixIsNearest(target: NodeId, all: seq<Node>, count: nat)
    requires (forall m :: m in all ==> ValidNode(m)) && DistinctIds(all)
    ensures Nearest(target, all, count, SortByDistance(target, all)[..Min(count, |all|)])
  {
    hide SortByDistance, Distance;
    var s := SortByDistance(target, all);
    SortKeeps(target, all);
    SortDistinct(target, all);
    PermutedIds(all, s);
    var k := Min(count, |all|);
    var r := s[..k];
    assert forall n :: n in r ==> n in s;
    assert forall i :: 0 <= i < k ==> r[i] == s[i];
    forall n, m | n in all && n !in r && m in r
      ensures Distance(m.id, target) <= Distance(n.id, target)
    {
      FrontIsNearer(target, s, k, n, m);
    }
  }

  lemma FrontIsNearer(target: NodeId, s: seq<Node>, k: nat, n: Node, m: Node)
    requires SortedBy(target, s) && k <= |s| && n in s && n !in s[..k] && m in s[..k]
    ensures Distance(m.id, target) <= Distance(n.id, target)
  {
    hide Distance;
    assert forall j :: 0 <= j < k ==> s[j] in s[..k];
    var i :| 0 <= i < |s| && s[i] == n;
    var j :| 0 <= j < k && s[..k][j] == m;
  }

  // ---------------------------------------------------------------- buckets

  /** Where in the history of accepted offers `id` was last offered, or -1. */
  function LastOffer(offers: seq<Node>, id: NodeId): (i: int)
    ensures -1 <= i < |offers|
    ensures i >= 0 ==> offers[i].id == id
  {
    if offers == [] then -1
    else if offers[|offers| - 1].id == id then |offers| - 1
    else LastOffer(offers[..|offers| - 1], id)
  }

  lemma LastOfferStep(offers: seq<Node>, n: Node, id: NodeId)
    ensures LastOffer(offers + [n], id) == if n.id == id then |offers| else LastOffer(offers, id)
  {
    assert (offers + [n])[..|offers|] == offers;
  }

  /** `n` belongs to bucket `i` of the table of `self`. */
  ghost predicate Placed(self: NodeId, i: nat, n: Node)
  {
    ValidId(self) && ValidNode(n) && Pow2(i) <= Distance(self, n.id) < Pow2(i + 1)
  }

  /** The entry is what was last offered under its identifier. */
  ghost predicate Current(offers: seq<Node>, n: Node)
  {
    LastOffer(offers, n.id) >= 0 && offers[LastOffer(offers, n.id)] == n
  }

  ghost predicate BucketOk(self: NodeId, i: nat, b: seq<Node>, offers: seq<Node>)
  {
    && |b| <= K
    && (forall j :: 0 <= j < |b| ==> Placed(self, i, b[j]))
    && (forall j :: 0 <= j < |b| ==> Current(offers, b[j]))
    && (forall j, k :: 0 <= j < k < |b| ==> LastOffer(offers, b[j].id) > LastOffer(offers, b[k].id))
  }

  ghost predicate TableOk(self: NodeId, buckets: seq<seq<Node>>, offers: seq<Node>)
  {
    |buckets| == BUCKET_COUNT && forall i :: 0 <= i < |buckets| ==> BucketOk(self, i, buckets[i], offers)
  }

  function Erase(b: seq<Node>, id: NodeId): (r: seq<Node>)
    ensures |r| <= |b|
  {
    if b == [] then [] else if b[0].id == id then b[1..] else [b[0]] + Erase(b[1..], id)
  }

  lemma {:induction false} EraseAt(b: seq<Node>, id: NodeId, j: nat)
    requires j < |b| && b[j].id == id && (forall k :: 0 <= k < j ==> b[k].id != id)
    ensures Erase(b, id) == b[..j] + b[j + 1..]
  {
    if j > 0 {
      EraseAt(b[1..], id, j - 1);
      assert b[..j] == [b[0]] + b[1..][..j - 1];
      assert b[1..][j..] == b[j + 1..];
    }
  }

  lemma {:induction false} EraseNone(b: seq<Node>, id: NodeId)
    requires forall k :: 0 <= k < |b| ==> b[k].id != id
    ensures Erase(b, id) == b
  {
    if b != [] { EraseNone(b[1..], id); }
  }

  /** Erasing leaves a sound bucket, without the identifier. */
  lemma EraseKeeps(self: NodeId, i: nat, b: seq<Node>, offers: seq<Node>, id: NodeId)
    requires BucketOk(self, i, b, offers)
    ensures BucketOk(self, i, Erase(b, id), offers)
    ensures forall n :: n in Erase(b, id) <==> n in b && n.id != id
  {
    hide Placed, Current, LastOffer, Erase;
    if j :| 0 <= j < |b| && b[j].id == id {
      assert forall k :: 0 <= k < |b| && k != j ==> b[k].id != id;
      EraseAt(b, id, j);
      CutOut(self, i, b, offers, j);
    } else {
      EraseNone(b, id);
    }
  }

  lemma CutOut(self: NodeId, i: nat, b: seq<Node>, offers: seq<Node>, j: nat)
    requires BucketOk(self, i, b, offers) && j < |b|
    ensures BucketOk(self, i, b[..j] + b[j + 1..], offers)
    ensures forall n :: n in b[..j] + b[j + 1..] <==> n in b && n.id != b[j].id
  {
    hide Placed, Current, LastOffer;
    var r := b[..j] + b[j + 1..];
    assert forall k :: 0 <= k < |r| ==> r[k] == b[if k < j then k else k + 1];
    assert b == b[..j] + [b[j]] + b[j + 1..];
    assert forall k :: 0 <= k < |b| && k != j ==> b[k].id != b[j].id;
  }

  /** A newly accepted offer goes to the front and is the latest of all. */
  lemma FrontKeeps(self: NodeId, i: nat, b: seq<Node>, offers: seq<Node>, n: Node)
    requires BucketOk(self, i, b, offers) && |b| < K && Placed(self, i, n)
    requires forall k :: 0 <= k < |b| ==> b[k].id != n.id
    ensures BucketOk(self, i, [n] + b, offers + [n])
  {
    hide Placed, LastOffer;
    OtherKeeps(self, i, b, offers, n);
    LastOfferStep(offers, n, n.id);
    var r, now := [n] + b, offers + [n];
    assert Current(now, n);
    assert forall k :: 0 < k < |r| ==> r[k] == b[k - 1];
    forall k | 0 <= k < |b| ensures LastOffer(now, b[k].id) < |offers| { LastOfferStep(offers, n, b[k].id); }
  }

  /** An offer of an identifier that is not in a bucket leaves that bucket sound. */
  lemma OtherKeeps(self: NodeId, i: nat, b: seq<Node>, offers: seq<Node>, n: Node)
    requires BucketOk(self, i, b, offers)
    requires forall k :: 0 <= k < |b| ==> b[k].id != n.id
    ensures BucketOk(self, i, b, offers + [n])
  {
    hide Placed, LastOffer;
    forall k | 0 <= k < |b|
      ensures LastOffer(offers + [n], b[k].id) == LastOffer(offers, b[k].id) && Current(offers + [n], b[k])
    {
      LastOfferStep(offers, n, b[k].id);
      assert Current(offers, b[k]);
    }
  }

  lemma OneBucket(self: NodeId, i: nat, j: nat, n: Node, m: Node)
    requires Placed(self, i, n) && Placed(self, j, m) && n.id == m.id
    ensures i == j
  {
    hide Distance, TopBit, Pow2;
    TopBitUnique(Distance(self, n.id), i);
    TopBitUnique(Distance(self, n.id), j);
  }

  /** The bucket for `id` is full and `oldest` is its entry whose last accepted offer is longest ago. */
  ghost predicate LeastRecent(self: NodeId, buckets: seq<seq<Node>>, offers: seq<Node>, id: NodeId, oldest: Node)
  {
    var bi := BucketIndex(self, id);
    0 <= bi < |buckets| && |buckets[bi]| == K && oldest in buckets[bi] &&
    forall n :: n in buckets[bi] ==> LastOffer(offers, oldest.id) <= LastOffer(offers, n.id)
  }

  lemma OldestIsLast(self: NodeId, buckets: seq<seq<Node>>, offers: seq<Node>, id: NodeId)
    requires TableOk(self, buckets, offers)
    requires var bi := BucketIndex(self, id); 0 <= bi < |buckets| && |buckets[bi]| >= K
    ensures LeastRecent(self, buckets, offers, id, buckets[BucketIndex(self, id)][|buckets[BucketIndex(self, id)]| - 1])
  {
    hide Placed, Current, LastOffer, BucketIndex;
    assert BucketOk(self, BucketIndex(self, id), buckets[BucketIndex(self, id)], offers);
  }

  /** Would the table take this node? */
  predicate Accepts(self: NodeId, buckets: seq<seq<Node>>, n: Node)
    requires |buckets| == BUCKET_COUNT
  {
    ValidNode(n) && ValidId(self) && n.id != self &&
    var bi := BucketIndex(self, n.id);
    0 <= bi < BUCKET_COUNT && (|buckets[bi]| < K || exists k :: 0 <= k < |buckets[bi]| && buckets[bi][k].id == n.id)
  }

  lemma AcceptsExactly(self: NodeId, buckets: seq<seq<Node>>, n: Node)
    requires |buckets| == BUCKET_COUNT
    ensures !Accepts(self, buckets, n) ==> Offered(self, buckets, n) == buckets
    ensures !(ValidNode(n) && ValidId(self) && n.id != self) ==> !Accepts(self, buckets, n)
    ensures ValidNode(n) && ValidId(self) && n.id != self && 0 <= BucketIndex(self, n.id) < BUCKET_COUNT ==>
      var b := buckets[BucketIndex(self, n.id)];
      Accepts(self, buckets, n) <==> |b| < K || exists k :: 0 <= k < |b| && b[k].id == n.id
  {
    hide ValidNode, BucketIndex, Erase;
  }

  /** Moved or inserted at the front of its bucket when accepted. */
  function Offered(self: NodeId, buckets: seq<seq<Node>>, n: Node): (r: seq<seq<Node>>)
    requires |buckets| == BUCKET_COUNT
    ensures |r| == BUCKET_COUNT
  {
    if !Accepts(self, buckets, n) then buckets
    else
      var bi := BucketIndex(self, n.id);
      buckets[bi := [n] + Erase(buckets[bi], n.id)]
  }

  lemma PlacedByIndex(self: NodeId, n: Node)
    requires ValidNode(n) && ValidId(self) && n.id != self
    ensures var bi := BucketIndex(self, n.id); 0 <= bi && Placed(self, bi, n)
  {
    hide Distance, TopBit, Pow2;
    DistanceZero(self, n.id);
  }

  lemma OfferKeeps(self: NodeId, buckets: seq<seq<Node>>, offers: seq<Node>, n: Node)
    requires TableOk(self, buckets, offers) && Accepts(self, buckets, n)
    ensures TableOk(self, Offered(self, buckets, n), offers + [n])
  {
    hide Placed, Current, LastOffer, Erase, BucketIndex, ValidNode;
    var bi := BucketIndex(self, n.id);
    PlacedByIndex(self, n);
    EraseKeeps(self, bi, buckets[bi], offers, n.id);
    EraseShrinks(buckets[bi], n.id);
    var rest := Erase(buckets[bi], n.id);
    assert forall k :: 0 <= k < |rest| ==> rest[k] in rest;
    FrontKeeps(self, bi, rest, offers, n);
    forall i | 0 <= i < |buckets| && i != bi
      ensures BucketOk(self, i, buckets[i], offers + [n])
    {
      forall k | 0 <= k < |buckets[i]| ensures buckets[i][k].id != n.id {
        if buckets[i][k].id == n.id { OneBucket(self, i, bi, buckets[i][k], n); }
      }
      OtherKeeps(self, i, buckets[i], offers, n);
    }
  }

  lemma EraseShrinks(b: seq<Node>, id: NodeId)
    requires |b| < K || (|b| <= K && exists k :: 0 <= k < |b| && b[k].id == id)
    ensures |Erase(b, id)| < K
  {
    if k :| 0 <= k < |b| && b[k].id == id { EraseSmaller(b, id, k); }
  }

  lemma {:induction false} EraseSmaller(b: seq<Node>, id: NodeId, k: nat)
    requires k < |b| && b[k].id == id
    ensures |Erase(b, id)| < |b|
  {
    if b[0].id != id { EraseSmaller(b[1..], id, k - 1); }
  }

  lemma RemoveKeeps(self: NodeId, buckets: seq<seq<Node>>, offers: seq<Node>, bi: nat, id: NodeId)
    requires TableOk(self, buckets, offers) && bi < BUCKET_COUNT
    ensures TableOk(self, buckets[bi := Erase(buckets[bi], id)], offers)
  {
    hide Placed, Current, LastOffer, Erase;
    EraseKeeps(self, bi, buckets[bi], offers, id);
  }

  lemma {:induction false} InSomeBucket(buckets: seq<seq<Node>>, n: Node)
    ensures n in Concat(buckets) <==> exists i :: 0 <= i < |buckets| && n in buckets[i]
  {
    if buckets != [] {
      InSomeBucket(buckets[1..], n);
      if i :| 0 <= i < |buckets[1..]| && n in buckets[1..][i] { assert n in buckets[i + 1]; }
      if i :| 0 <= i < |buckets| && n in buckets[i] { assert i == 0 || n in buckets[1..][i - 1]; }
    }
  }

  /** A node of a sound table stands in the bucket of its identifier. */
  lemma InItsBucket(self: NodeId, buckets: seq<seq<Node>>, offers: seq<Node>, i: nat, n: Node)
    requires TableOk(self, buckets, offers) && i < |buckets| && n in buckets[i]
    ensures BucketIndex(self, n.id) == i && ValidNode(n)
  {
    hide BucketIndex, Current, Distance, ValidNode;
    assert BucketOk(self, i, buckets[i], offers);
    assert Placed(self, i, n);
    NotSelf(self, i, n);
    PlacedByIndex(self, n);
    OneBucket(self, BucketIndex(self, n.id), i, n, n);
  }

  /** The nodes after the bucket for `id` was changed, if every node with another identifier stands where it stood. */
  lemma OneBucketChanged(self: NodeId, buckets: seq<seq<Node>>, offers: seq<Node>, bi: nat, b: seq<Node>, n: Node)
    requires TableOk(self, buckets, offers) && bi < |buckets|
    ensures n in Concat(buckets[bi := b]) <==> n in b || (n in Concat(buckets) && BucketIndex(self, n.id) != bi)
  {
    hide TableOk, BucketIndex;
    var after := buckets[bi := b];
    InSomeBucket(buckets, n);
    InSomeBucket(after, n);
    if i :| 0 <= i < |buckets| && n in buckets[i] {
      InItsBucket(self, buckets, offers, i, n);
      if i != bi { assert n in after[i]; }
    }
    if i :| 0 <= i < |after| && n in after[i] {
      if i != bi {
        assert n in buckets[i];
        InItsBucket(self, buckets, offers, i, n);
      }
    }
    if n in b { assert n in after[bi]; }
  }

  lemma InBucket(self: NodeId, buckets: seq<seq<Node>>, offers: seq<Node>, n: Node)
    requires TableOk(self, buckets, offers) && n in Concat(buckets)
    ensures ValidNode(n) && 0 <= BucketIndex(self, n.id) < |buckets| && n in buckets[BucketIndex(self, n.id)]
  {
    hide TableOk, BucketIndex, ValidNode;
    InSomeBucket(buckets, n);
    var i :| 0 <= i < |buckets| && n in buckets[i];
    InItsBucket(self, buckets, offers, i, n);
  }

  /** Removing an identifier takes its entry out of the table, and no other. */
  lemma RemovedOnly(self: NodeId, buckets: seq<seq<Node>>, offers: seq<Node>, id: NodeId)
    requires TableOk(self, buckets, offers)
    ensures var bi := BucketIndex(self, id);
      var after := if 0 <= bi < |buckets| then buckets[bi := Erase(buckets[bi], id)] else buckets;
      forall n :: n in Concat(after) <==> n in Concat(buckets) && n.id != id
  {
    hide TableOk, BucketIndex, Erase, ValidNode, BucketOk;
    var bi := BucketIndex(self, id);
    TableSize(self, buckets, offers);
    var after := if 0 <= bi < |buckets| then buckets[bi := Erase(buckets[bi], id)] else buckets;
    forall n ensures n in Concat(after) <==> n in Concat(buckets) && n.id != id {
      if n in Concat(buckets) { InBucket(self, buckets, offers, n); }
      if 0 <= bi < BUCKET_COUNT {
        EraseKeeps(self, bi, buckets[bi], offers, id);
        OneBucketChanged(self, buckets, offers, bi, Erase(buckets[bi], id), n);
        InSomeBucket(buckets, n);
      }
    }
  }

  lemma TableSize(self: NodeId, buckets: seq<seq<Node>>, offers: seq<Node>)
    requires TableOk(self, buckets, offers)
    ensures |buckets| == BUCKET_COUNT && forall i :: 0 <= i < BUCKET_COUNT ==> BucketOk(self, i, buckets[i], offers)
  {
  }

  /** An accepted node is in the table, in place of any other with its identifier; the rest stays. */
  lemma OfferedOnly(self: NodeId, buckets: seq<seq<Node>>, offers: seq<Node>, n: Node)
    requires TableOk(self, buckets, offers) && Accepts(self, buckets, n)
    ensures forall m :: m in Concat(Offered(self, buckets, n)) <==> m == n || (m in Concat(buckets) && m.id != n.id)
  {
    hide TableOk, BucketIndex, Erase, ValidNode, BucketOk;
    var bi := BucketIndex(self, n.id);
    TableSize(self, buckets, offers);
    EraseKeeps(self, bi, buckets[bi], offers, n.id);
    var b := [n] + Erase(buckets[bi], n.id);
    forall m ensures m in Concat(Offered(self, buckets, n)) <==> m == n || (m in Concat(buckets) && m.id != n.id) {
      if m in Concat(buckets) { InBucket(self, buckets, offers, m); }
      OneBucketChanged(self, buckets, offers, bi, b, m);
      InSomeBucket(buckets, m);
    }
  }

  /** All identifiers of a sound table are distinct and valid, and none is the table's own. */
  lemma {:induction false} TableDistinct(self: NodeId, buckets: seq<seq<Node>>, offers: seq<Node>, k: nat)
    requires TableOk(self, buckets, offers) && k <= BUCKET_COUNT
    ensures DistinctIds(Concat(buckets[..k]))
    ensures forall n :: n in Concat(buckets[..k]) ==> ValidNode(n) && n.id != self
    ensures forall n :: n in Concat(buckets[..k]) ==> exists i :: 0 <= i < k && Placed(self, i, n)
    decreases k
  {
    hide Placed, Current, LastOffer;
    if k > 0 {
      TableDistinct(self, buckets, offers, k - 1);
      var front, b := Concat(buckets[..k - 1]), buckets[k - 1];
      LastBucket(buckets, k);
      assert BucketOk(self, k - 1, b, offers);
      assert DistinctIds(b);
      forall n | n in b ensures ValidNode(n) && n.id != self && Placed(self, k - 1, n) { NotSelf(self, k - 1, n); }
      forall i, j | 0 <= i < |front| && 0 <= j < |b|
        ensures front[i].id != b[j].id
      {
        assert front[i] in front;
        var p :| 0 <= p < k - 1 && Placed(self, p, front[i]);
        if front[i].id == b[j].id { OneBucket(self, p, k - 1, front[i], b[j]); }
      }
      DistinctConcat(front, b);
    }
  }

  lemma LastBucket(buckets: seq<seq<Node>>, k: nat)
    requires 0 < k <= |buckets|
    ensures Concat(buckets[..k]) == Concat(buckets[..k - 1]) + buckets[k - 1]
  {
    assert buckets[..k] == buckets[..k - 1] + [buckets[k - 1]];
    ConcatAppend(buckets[..k - 1], [buckets[k - 1]]);
    assert Concat([buckets[k - 1]]) == buckets[k - 1];
  }

  lemma NotSelf(self: NodeId, i: nat, n: Node)
    requires Placed(self, i, n)
    ensures ValidNode(n) && n.id != self
  {
    SelfDistance(self);
  }

  lemma DistinctConcat(a: seq<Node>, b: seq<Node>)
    requires DistinctIds(a) && DistinctIds(b)
    requires forall i, j :: 0 <= i < |a| && 0 <= j < |b| ==> a[i].id != b[j].id
    ensures DistinctIds(a + b)
  {
    var s := a + b;
    forall i, j | 0 <= i < j < |s| ensures s[i].id != s[j].id {
      if i < |a| <= j { assert s[j] == b[j - |a|]; }
    }
  }

  // ---------------------------------------------------------------- the table

  class RoutingTable {
    const selfId: NodeId
    var buckets: seq<seq<Node>>
    /** Every accepted offer so far, oldest first. */
    ghost var offers: seq<Node>

    ghost predicate Valid()
      reads this
    {
      TableOk(selfId, buckets, offers)
    }

    constructor (selfId: NodeId)
      ensures Valid() && this.selfId == selfId && offers == [] && Concat(buckets) == []
    {
      this.selfId := selfId;
      buckets := EmptyBuckets();
      offers := [];
      new;
      EmptyConcat();
    }

    method FindId(b: seq<Node>, id: NodeId) returns (j: nat)
      ensures j <= |b| && (j < |b| ==> b[j].id == id)
      ensures forall k :: 0 <= k < j ==> b[k].id != id
    {
      j := 0;
      while j < |b| && b[j].id != id
        invariant j <= |b| && forall k :: 0 <= k < j ==> b[k].id != id
      {
        j := j + 1;
      }
    }

    method Offer(node: Node) returns (ok: bool, evict: Option<Node>)
      requires Valid()
      modifies this
      ensures Valid()
      ensures ok == Accepts(selfId, old(buckets), node)
      ensures buckets == Offered(selfId, old(buckets), node)
      ensures forall n :: n in Concat(buckets) <==> (ok && n == node) || (n in old(Concat(buckets)) && !(ok && n.id == node.id))
      ensures offers == if ok then old(offers) + [node] else old(offers)
      ensures evict.Some? <==> !ok && ValidNode(node) && ValidId(selfId) && node.id != selfId
      ensures evict.Some? ==> LeastRecent(selfId, buckets, offers, node.id, evict.value)
    {
      hide LeastRecent, BucketOk, Erase, BucketIndex, ValidNode, Accepts, Offered, Concat;
      AcceptsExactly(selfId, buckets, node);
      if Accepts(selfId, buckets, node) { OfferedOnly(selfId, buckets, offers, node); }
      evict := None;
      ok := false;
      if !ValidNode(node) || !ValidId(selfId) || node.id == selfId {
        return;
      }
      var bi := BucketFor(selfId, node.id);
      if bi < 0 {
        return;
      }
      var b := buckets[bi];
      var j := FindId(b, node.id);
      if j < |b| {
        EraseAt(b, node.id, j);
        PushFront(bi, b[..j] + b[j + 1..], node);
        ok := true;
        return;
      }
      EraseNone(b, node.id);
      if |b| < K {
        PushFront(bi, b, node);
        ok := true;
        return;
      }
      OldestIsLast(selfId, buckets, offers, node.id);
      evict := Some(b[|b| - 1]);
    }

    method PushFront(bi: nat, rest: seq<Node>, node: Node)
      requires Valid() && Accepts(selfId, buckets, node)
      requires bi == BucketIndex(selfId, node.id) && rest == Erase(buckets[bi], node.id)
      modifies this
      ensures Valid() && buckets == Offered(selfId, old(buckets), node) && offers == old(offers) + [node]
    {
      hide BucketOk, BucketIndex, ValidNode, Erase;
      OfferKeeps(selfId, buckets, offers, node);
      buckets := buckets[bi := [node] + rest];
      offers := offers + [node];
    }

    /** Drops `evict` from the newcomer's bucket, then offers the newcomer. */
    method Replace(evict: Node, newcomer: Node) returns (ghost ok: bool)
      requires Valid()
      modifies this
      ensures Valid()
      ensures var bi := BucketIndex(selfId, newcomer.id);
              if bi < 0 then buckets == old(buckets) && !ok
              else bi < BUCKET_COUNT &&
                   var without := old(buckets)[bi := Erase(old(buckets)[bi], evict.id)];
                   buckets == Offered(selfId, without, newcomer) && ok == Accepts(selfId, without, newcomer)
      ensures offers == if ok then old(offers) + [newcomer] else old(offers)
    {
      hide LastOffer, Placed, Current, Accepts, Offered, TableOk;
      ok := false;
      var bi := BucketFor(selfId, newcomer.id);
      if bi < 0 {
        return;
      }
      EraseFrom(bi, evict.id);
      var accepted, _ := Offer(newcomer);
      ok := accepted;
    }

    method EraseFrom(bi: nat, id: NodeId)
      requires Valid() && bi < BUCKET_COUNT
      modifies this`buckets
      ensures Valid() && buckets == old(buckets)[bi := Erase(old(buckets)[bi], id)]
    {
      RemoveKeeps(selfId, buckets, offers, bi, id);
      hide BucketOk, Erase;
      var b := buckets[bi];
      var j := FindId(b, id);
      if j < |b| {
        EraseAt(b, id, j);
        buckets := buckets[bi := b[..j] + b[j + 1..]];
      } else {
        EraseNone(b, id);
        assert buckets[bi := b] == buckets;
      }
    }

    method Remove(id: NodeId)
      requires Valid()
      modifies this`buckets
      ensures Valid()
      ensures var bi := BucketIndex(selfId, id);
              if bi < 0 then buckets == old(buckets)
              else bi < BUCKET_COUNT && buckets == old(buckets)[bi := Erase(old(buckets)[bi], id)]
      ensures forall n :: n in Concat(buckets) <==> n in old(Concat(buckets)) && n.id != id
    {
      hide BucketOk, Erase;
      RemovedOnly(selfId, buckets, offers, id);
      var bi := BucketFor(selfId, id);
      if bi < 0 {
        return;
      }
      EraseFrom(bi, id);
    }

    method Load(nodes: seq<Node>)
      requires Valid()
      modifies this
      ensures Valid() && |buckets| == BUCKET_COUNT
      ensures buckets == Loaded(selfId, nodes)
    {
      hide BucketOk, Accepts, Offered;
      buckets := EmptyBuckets();
      EmptyOk(selfId, offers);
      for i := 0 to |nodes|
        invariant Valid() && buckets == Loaded(selfId, nodes[..i])
      {
        assert nodes[..i + 1][..i] == nodes[..i];
        var _, _ := Offer(nodes[i]);
      }
      assert nodes[..|nodes|] == nodes;
    }

    method AllNodes() returns (all: seq<Node>)
      requires Valid()
      ensures all == Concat(buckets)
    {
      hide BucketOk;
      all := [];
      for i := 0 to |buckets|
        invariant all == Concat(buckets[..i])
      {
        LastBucket(buckets, i + 1);
        ghost var before := all;
        for j := 0 to |buckets[i]|
          invariant all == before + buckets[i][..j]
        {
          all := all + [buckets[i][j]];
        }
        assert buckets[i][..|buckets[i]|] == buckets[i];
      }
      assert buckets[..|buckets|] == buckets;
    }

    method Closest(target: NodeId, count: nat) returns (r: seq<Node>)
      requires Valid()
      ensures Nearest(target, Concat(buckets), count, r)
      ensures forall n :: n in r ==> ValidNode(n)
    {
      hide BucketOk, Nearest, SortByDistance, SortedBy, DistinctIds, ValidNode, Placed;
      var all := AllNodes();
      assert buckets[..BUCKET_COUNT] == buckets;
      TableDistinct(selfId, buckets, offers, BUCKET_COUNT);
      PrefixIsNearest(target, all, count);
      r := SortByDistance(target, all);
      SortKeeps(target, all);
      PermutedIds(all, r);
      assert forall k, n :: 0 <= k <= |r| && n in r[..k] ==> n in r;
      assert r[..|r|] == r;
      if |r| > count {
        r := r[..count];
      }
    }
  }

  function EmptyBuckets(): (b: seq<seq<Node>>)
    ensures |b| == BUCKET_COUNT && forall i :: 0 <= i < |b| ==> b[i] == []
  {
    seq(BUCKET_COUNT, _ => [])
  }

  lemma EmptyOk(self: NodeId, offers: seq<Node>)
    ensures TableOk(self, EmptyBuckets(), offers)
  {
  }

  lemma EmptyConcat()
    ensures Concat(EmptyBuckets()) == []
  {
    NothingConcat(EmptyBuckets());
  }

  lemma {:induction false} NothingConcat(b: seq<seq<Node>>)
    requires forall i :: 0 <= i < |b| ==> b[i] == []
    ensures Concat(b) == []
  {
    if b != [] { NothingConcat(b[1..]); }
  }

  /** Offering a list of nodes, in order, to an empty table. */
  function Loaded(self: NodeId, nodes: seq<Node>): (b: seq<seq<Node>>)
    ensures |b| == BUCKET_COUNT
  {
    if nodes == [] then EmptyBuckets() else Offered(self, Loaded(self, nodes[..|nodes| - 1]), nodes[|nodes| - 1])
  }
}
