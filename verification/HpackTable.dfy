/**
 The dynamic table of HPACK (section 4 of RFC 7541).  The source keeps one copy of this code in
 the encoder and one in the decoder; both are this table.

 The table is related to the history of everything ever inserted, newest first.
 */
module HpackTable {
  import opened Bytes

  datatype Header = Header(name: seq<byte>, value: seq<byte>)

  /** 32-bit entry size: both strings plus 32 (section 4.1). */
  function EntrySize(h: Header): (n: nat)
    ensures n < TWO_32
  {
    (|h.name| + |h.value| + 32) % TWO_32
  }

  /** `size` and `limit` are the 32-bit counters of the source; newest entry first. */
  datatype Table = Table(entries: seq<Header>, size: nat, limit: nat)

  const DEFAULT_LIMIT: nat := 4096

  function Empty(limit: nat): Table { Table([], 0, limit) }

  function TotalSize(entries: seq<Header>): nat
  {
    if entries == [] then 0 else EntrySize(entries[0]) + TotalSize(entries[1..])
  }

  // ---------------------------------------------------------------- operations

  /** Drops the oldest entries while the recorded size exceeds the limit. */
  function Evict(t: Table): Table
    decreases |t.entries|
  {
    if t.size > t.limit && t.entries != [] then
      var last := |t.entries| - 1;
      Evict(Table(t.entries[..last], (t.size - EntrySize(t.entries[last])) % TWO_32, t.limit))
    else t
  }

  function Insert(t: Table, h: Header): Table
  {
    if EntrySize(h) > t.limit then Table([], 0, t.limit)
    else Evict(Table([h] + t.entries, (t.size + EntrySize(h)) % TWO_32, t.limit))
  }

  function Resize(t: Table, limit: nat): Table
  {
    Evict(t.(limit := limit))
  }

  // ---------------------------------------------------------------- reference definitions

  /** The recorded size is the true one and respects the limit. */
  ghost predicate Consistent(t: Table)
  {
    t.size == TotalSize(t.entries) <= t.limit
  }

  /** How many of the newest entries fit within `limit`. */
  function Fitting(history: seq<Header>, limit: int): (n: nat)
    ensures n <= |history|
    ensures limit >= 0 ==> TotalSize(history[..n]) <= limit
    ensures n < |history| && limit >= 0 ==> TotalSize(history[..n + 1]) > limit
  {
    if history == [] || EntrySize(history[0]) > limit then
      assert history != [] ==> history[..1][1..] == [];
      0
    else
      var rest := Fitting(history[1..], limit - EntrySize(history[0]));
      assert history[..rest + 1][1..] == history[1..][..rest];
      assert rest + 1 < |history| ==> history[..rest + 2][1..] == history[1..][..rest + 1];
      rest + 1
  }

  /** The longest run of newest entries that fits (sections 4.3 and 4.4 say this is what remains). */
  function LongestFit(history: seq<Header>, limit: nat): seq<Header>
  {
    history[..Fitting(history, limit)]
  }

  // ---------------------------------------------------------------- facts about sizes

  lemma {:induction false} TotalSizeAppend(a: seq<Header>, b: seq<Header>)
    ensures TotalSize(a + b) == TotalSize(a) + TotalSize(b)
  {
    if a == [] {
      assert a + b == b;
    } else {
      assert (a + b)[1..] == a[1..] + b;
      TotalSizeAppend(a[1..], b);
    }
  }

  lemma TotalSizeCons(h: Header, s: seq<Header>)
    ensures TotalSize([h] + s) == EntrySize(h) + TotalSize(s) && TotalSize([]) == 0
  {
    assert ([h] + s)[1..] == s;
  }

  lemma TotalSizePrefix(s: seq<Header>, m: nat, n: nat)
    requires m <= n <= |s|
    ensures TotalSize(s[..m]) <= TotalSize(s[..n])
  {
    assert s[..n] == s[..m] + s[m..n];
    TotalSizeAppend(s[..m], s[m..n]);
  }

  /** Any prefix that fits and cannot be extended is the longest fitting one. */
  lemma FittingUnique(history: seq<Header>, limit: nat, n: nat)
    requires n <= |history| && TotalSize(history[..n]) <= limit
    requires n < |history| ==> TotalSize(history[..n + 1]) > limit
    ensures Fitting(history, limit) == n
  {
    var m := Fitting(history, limit);
    if m < n { TotalSizePrefix(history, m + 1, n); }
    if n < m { TotalSizePrefix(history, n + 1, m); }
  }

  // ---------------------------------------------------------------- eviction

  /** Eviction from a table whose size is right keeps exactly the longest fitting prefix. */
  lemma {:induction false} EvictKeepsLongestFit(t: Table)
    requires t.size == TotalSize(t.entries) < TWO_32
    ensures Evict(t).entries == LongestFit(t.entries, t.limit)
    ensures Consistent(Evict(t)) && Evict(t).limit == t.limit
    decreases |t.entries|
  {
    hide EntrySize, Fitting;
    var s := t.entries;
    if t.size > t.limit && s != [] {
      var last := |s| - 1;
      assert s == s[..last] + [s[last]];
      TotalSizeAppend(s[..last], [s[last]]);
      var t' := Table(s[..last], t.size - EntrySize(s[last]), t.limit);
      assert t'.size == t'.size % TWO_32;
      EvictKeepsLongestFit(t');
      var n := Fitting(s[..last], t.limit);
      assert s[..last][..n] == s[..n];
      assert n < last ==> s[..last][..n + 1] == s[..n + 1];
      assert n == last ==> s[..n + 1] == s;
      FittingUnique(s, t.limit, n);
    } else {
      assert s[..|s|] == s;
      FittingUnique(s, t.limit, |s|);
    }
  }

  /** Inserting into a consistent table: with limits below 2^31 the counter never wraps. */
  lemma InsertIsLongestFit(t: Table, h: Header)
    requires Consistent(t) && t.limit < TWO_31
    ensures Insert(t, h).entries == LongestFit([h] + t.entries, t.limit)
    ensures Consistent(Insert(t, h)) && Insert(t, h).limit == t.limit
  {
    hide EntrySize, Fitting, Evict, TotalSize;
    var s := [h] + t.entries;
    TotalSizeCons(h, t.entries);
    if EntrySize(h) > t.limit {
      assert s[..1] == [h] + [] && s[..0] == [];
      TotalSizeCons(h, []);
      FittingUnique(s, t.limit, 0);
    } else {
      var t' := Table(s, t.size + EntrySize(h), t.limit);
      assert Insert(t, h) == Evict(t');
      EvictKeepsLongestFit(t');
    }
  }

  lemma ResizeIsLongestFit(t: Table, limit: nat)
    requires Consistent(t) && t.limit < TWO_31
    ensures Resize(t, limit).entries == LongestFit(t.entries, limit)
    ensures Consistent(Resize(t, limit)) && Resize(t, limit).limit == limit
  {
    EvictKeepsLongestFit(t.(limit := limit));
  }

  // ---------------------------------------------------------------- runs

  datatype Op = Add(header: Header) | SetLimit(limit: nat)

  function Apply(t: Table, op: Op): Table
  {
    match op case Add(h) => Insert(t, h) case SetLimit(n) => Resize(t, n)
  }

  function Run(t: Table, ops: seq<Op>): Table
  {
    if ops == [] then t else Apply(Run(t, ops[..|ops| - 1]), ops[|ops| - 1])
  }

  /** Everything inserted by the run, newest first. */
  function History(ops: seq<Op>): seq<Header>
  {
    if ops == [] then []
    else
      var older := History(ops[..|ops| - 1]);
      match ops[|ops| - 1] case Add(h) => [h] + older case SetLimit(_) => older
  }

  ghost predicate SmallLimits(ops: seq<Op>)
  {
    forall i :: 0 <= i < |ops| && ops[i].SetLimit? ==> ops[i].limit < TWO_31
  }

  /**
   Under any inserts and resizes with limits below 2^31, the recorded size is the sum of the
   entry sizes and within the limit, and the table is a prefix of the insertion history.
   */
  lemma {:induction false} TableIsPrefixOfHistory(limit: nat, ops: seq<Op>)
    requires limit < TWO_31 && SmallLimits(ops)
    ensures var t := Run(Empty(limit), ops);
            Consistent(t) && t.limit < TWO_31 && t.entries <= History(ops)
    decreases |ops|
  {
    if ops != [] {
      var before := ops[..|ops| - 1];
      TableIsPrefixOfHistory(limit, before);
      var t := Run(Empty(limit), before);
      match ops[|ops| - 1] {
        case Add(h) =>
          InsertIsLongestFit(t, h);
          assert [h] + t.entries <= [h] + History(before);
        case SetLimit(n) =>
          ResizeIsLongestFit(t, n);
      }
    }
  }

  /** While the limit stays what it is, the table is exactly the longest fitting prefix. */
  lemma {:induction false} TableIsLongestFit(limit: nat, ops: seq<Op>)
    requires limit < TWO_31 && forall i :: 0 <= i < |ops| ==> ops[i].Add?
    ensures Run(Empty(limit), ops).entries == LongestFit(History(ops), limit)
    ensures Run(Empty(limit), ops).limit == limit
    decreases |ops|
  {
    if ops == [] {
    } else {
      var before := ops[..|ops| - 1];
      var h := ops[|ops| - 1].header;
      TableIsLongestFit(limit, before);
      TableIsPrefixOfHistory(limit, before);
      InsertIsLongestFit(Run(Empty(limit), before), h);
      LongestFitOfLongestFit(h, History(before), limit);
    }
  }

  /** What an earlier eviction dropped would not fit behind a newer entry either. */
  lemma LongestFitOfLongestFit(h: Header, history: seq<Header>, limit: nat)
    ensures LongestFit([h] + LongestFit(history, limit), limit) == LongestFit([h] + history, limit)
  {
    hide EntrySize, Fitting;
    var m := Fitting(history, limit);
    var kept := [h] + history[..m];
    var all := [h] + history;
    var n := Fitting(all, limit);
    assert all[..m + 1] == kept;
    assert n > m + 1 ==> TotalSize(all[..m + 2]) <= limit by {
      if n > m + 1 { TotalSizePrefix(all, m + 2, n); }
    }
    assert m < |history| ==> all[..m + 2][1..] == history[..m + 1];
    assert n <= m + 1;
    assert kept[..n] == all[..n];
    assert n < m + 1 ==> kept[..n + 1] == all[..n + 1];
    FittingUnique(kept, limit, n);
  }

  // ---------------------------------------------------------------- section 4.4 of RFC 7541

  /** The standard's order: evict until the new entry has room, then insert it. */
  function EvictThenInsert(t: Table, h: Header): Table
  {
    if EntrySize(h) > t.limit then Table([], 0, t.limit)
    else
      var room := Evict(t.(limit := t.limit - EntrySize(h)));
      Table([h] + room.entries, room.size + EntrySize(h), t.limit)
  }

  /** The source inserts first and evicts afterwards; on consistent tables that is the same. */
  lemma InsertFirstIsEvictFirst(t: Table, h: Header)
    requires Consistent(t) && t.limit < TWO_31
    ensures Insert(t, h) == EvictThenInsert(t, h)
  {
    hide EntrySize, Fitting, Evict, Insert, TotalSize;
    InsertIsLongestFit(t, h);
    var s := [h] + t.entries;
    if EntrySize(h) <= t.limit {
      var limit := t.limit - EntrySize(h);
      EvictKeepsLongestFit(t.(limit := limit));
      var n := Fitting(t.entries, limit);
      assert s[..n + 1] == [h] + t.entries[..n];
      TotalSizeCons(h, t.entries[..n]);
      if n < |t.entries| {
        assert s[..n + 2] == [h] + t.entries[..n + 1];
        TotalSizeCons(h, t.entries[..n + 1]);
      }
      FittingUnique(s, t.limit, n + 1);
    } else {
      TotalSizeCons(h, []);
      assert s[..1] == [h] + [] && s[..0] == [];
      FittingUnique(s, t.limit, 0);
    }
  }

  // ---------------------------------------------------------------- why limits must stay below 2^31

  /**
   The bound on the limit is exact: from 2^31 on, two entries of 2^31 bytes wrap the counter to
   zero and the table holds more than its limit.
   */
  lemma SizeIsRightExactlyBelow2To31(limit: nat)
    requires limit < TWO_32
    ensures (forall t: Table, h: Header :: Consistent(t) && t.limit == limit ==> Consistent(Insert(t, h)))
            <==> limit < TWO_31
  {
    if limit < TWO_31 {
      forall t: Table, h: Header | Consistent(t) && t.limit == limit
        ensures Consistent(Insert(t, h))
      {
        InsertIsLongestFit(t, h);
      }
    } else {
      var big := Header(seq(TWO_31 - 32, i => 0), []);
      var t := Table([big], TWO_31, limit);
      assert t.entries[1..] == [];
      assert Consistent(t);
      var s := [big] + [big];
      assert s[1..] == [big];
      assert Insert(t, big) == Table(s, 0, limit);
      assert TotalSize(s) == TWO_32;
      assert !Consistent(Insert(t, big));
    }
  }

  // ---------------------------------------------------------------- the mutable table

  /** `dynamicTable`, `dynamicTableSize` and `maxDynamicTableSize`, edited in place. */
  class DynamicTable {
    var entries: seq<Header>
    var size: nat
    var limit: nat

    ghost function View(): Table
      reads this
    {
      Table(entries, size, limit)
    }

    constructor ()
      ensures View() == Empty(DEFAULT_LIMIT)
    {
      entries, size, limit := [], 0, DEFAULT_LIMIT;
    }

    method EvictOldest()
      modifies this`entries, this`size
      ensures View() == Evict(old(View()))
    {
      while size > limit && entries != []
        invariant Evict(View()) == Evict(old(View()))
        decreases |entries|
      {
        var last := |entries| - 1;
        size := (size - EntrySize(entries[last])) % TWO_32;
        entries := entries[..last];
      }
    }

    method AddToDynamicTable(h: Header)
      modifies this`entries, this`size
      ensures View() == Insert(old(View()), h)
      ensures old(Consistent(View()) && limit < TWO_31) ==>
                Consistent(View()) && entries == LongestFit([h] + old(entries), limit)
    {
      hide EntrySize, Evict, TotalSize;
      ghost var before := View();
      var n := EntrySize(h);
      if n > limit {
        entries, size := [], 0;
      } else {
        entries := [h] + entries;
        size := (size + n) % TWO_32;
        EvictOldest();
      }
      if Consistent(before) && before.limit < TWO_31 { InsertIsLongestFit(before, h); }
    }

    method SetMaxDynamicTableSize(newLimit: nat)
      modifies this
      ensures View() == Resize(old(View()), newLimit)
      ensures old(Consistent(View()) && limit < TWO_31) ==>
                Consistent(View()) && entries == LongestFit(old(entries), newLimit)
    {
      ghost var before := View();
      limit := newLimit;
      EvictOldest();
      if Consistent(before) && before.limit < TWO_31 { ResizeIsLongestFit(before, newLimit); }
    }
  }
}
