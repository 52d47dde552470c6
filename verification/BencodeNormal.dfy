/** What the decoder accepts: proper values only, texts and integers in one spelling, and decoding is stable. */
module BencodeNormal {
  import opened Bytes
  import opened Bencode
  import opened BencodeRoundTrip

  // ---------------------------------------------------------------- one spelling

  lemma {:induction false} DigitsOfNumber(s: Text)
    requires AllDigits(s) && s != [] && (s[0] == CHAR_0 ==> |s| == 1)
    ensures Digits(Number(s)) == s && (s[0] != CHAR_0 ==> Number(s) > 0)
  {
    var t, d := s[..|s| - 1], s[|s| - 1];
    assert s == t + [d] && IsDigit(d);
    if t != [] {
      assert AllDigits(t) && t[0] == s[0];
      DigitsOfNumber(t);
      assert Number(s) / 10 == Number(t) && Number(s) % 10 == (d - CHAR_0) as int;
    } else {
      assert Number(t) == 0;
    }
  }

  lemma RunNotEmpty(data: Text, pos: nat)
    requires pos < |data| && IsDigit(data[pos])
    ensures DigitEnd(data, pos) > pos
  {
  }

  /** A text is accepted only as its length, a colon and its bytes, the way it is written. */
  lemma TextIsCanonical(data: Text, pos: nat, used: nat, limit: nat)
    requires ParseText(data, pos, used, limit).Got?
    ensures var r := ParseText(data, pos, used, limit);
      data[pos..r.pos] == WriteText(r.value) && r.used == used + |r.value| && r.used <= limit
  {
    hide Digits, Number, DigitEnd;
    var r, e := ParseText(data, pos, used, limit), DigitEnd(data, pos);
    var run := data[pos..e];
    RunNotEmpty(data, pos);
    assert run[0] == data[pos];
    DigitsOfNumber(run);
    assert data[pos..r.pos] == run + [data[e]] + data[e + 1..r.pos];
  }

  /** The integer spelled at `pos`, before it is cut off at 64 bits. */
  function Spelled(data: Text, pos: nat): int
  {
    if pos + 1 >= |data| then 0
    else
      var negative := data[pos + 1] == MINUS;
      var d := if negative then pos + 2 else pos + 1;
      Signed(negative, Number(data[d..DigitEnd(data, d)]))
  }

  /** Neither "-0" nor beyond 64 bits. */
  predicate PlainInt(data: Text, pos: nat)
  {
    && ParseInt(data, pos).Some? && pos + 2 < |data|
    && !(data[pos + 1] == MINUS && data[pos + 2] == CHAR_0)
    && INT64_MIN <= Spelled(data, pos) <= INT64_MAX
  }

  /** What is read is the number spelled, cut off at 64 bits; the bytes are the way it is written iff plain. */
  lemma IntIsCanonical(data: Text, pos: nat)
    requires ParseInt(data, pos).Some?
    ensures var (n, e) := ParseInt(data, pos).value;
      && INT64_MIN <= n <= INT64_MAX && n == Clamp(Spelled(data, pos))
      && (data[pos..e] == [CHAR_i] + Decimal(n) + [CHAR_e] <==> PlainInt(data, pos))
  {
    hide Digits, Number, DigitEnd, ParseInt;
    IntRunIs(data, pos);
    var (n, e) := ParseInt(data, pos).value;
    var negative := data[pos + 1] == MINUS;
    var d := if negative then pos + 2 else pos + 1;
    var run := data[d..e - 1];
    RunNotEmpty(data, d);
    assert run[0] == data[d];
    DigitsOfNumber(run);
    if run[0] == CHAR_0 { ZeroIsZero(run); }
    SameSpelling(negative, Number(run), n);
    var body := if negative then [MINUS] + run else run;
    assert data[pos..e] == [CHAR_i] + body + [CHAR_e];
    Unframe(body, Decimal(n));
  }

  lemma Unframe(a: Text, b: Text)
    ensures [CHAR_i] + a + [CHAR_e] == [CHAR_i] + b + [CHAR_e] <==> a == b
  {
    var x, y := [CHAR_i] + a + [CHAR_e], [CHAR_i] + b + [CHAR_e];
    assert x[1..|x| - 1] == a && y[1..|y| - 1] == b;
  }

  /** Where an accepted integer's digits lie. */
  lemma IntRunIs(data: Text, pos: nat)
    requires ParseInt(data, pos).Some?
    ensures var (n, e) := ParseInt(data, pos).value;
      var d := if data[pos + 1] == MINUS then pos + 2 else pos + 1;
      && data[pos] == CHAR_i && d < |data| && IsDigit(data[d]) && pos + 2 < |data|
      && DigitEnd(data, d) == e - 1 && data[e - 1] == CHAR_e && (data[d] == CHAR_0 ==> e == d + 2)
      && n == Clamp(Spelled(data, pos))
  {
    hide Number, DigitEnd;
    var d := if data[pos + 1] == MINUS then pos + 2 else pos + 1;
    if data[d] == CHAR_0 { ZeroRun(data, d); }
  }

  lemma ZeroRun(data: Text, d: nat)
    requires d + 1 < |data| && data[d] == CHAR_0 && data[d + 1] == CHAR_e
    ensures DigitEnd(data, d) == d + 1 && Number(data[d..d + 1]) == 0
  {
    assert DigitEnd(data, d + 1) == d + 1;
    assert data[d..d + 1] == [CHAR_0] && [CHAR_0][..0] == [];
  }

  lemma DigitsInjective(m: nat, n: nat)
    ensures Digits(m) == Digits(n) ==> m == n
  {
    NumberOfDigits(m);
    NumberOfDigits(n);
  }

  lemma NoMinus(m: nat)
    ensures Digits(m)[0] != MINUS
  {
    assert IsDigit(Digits(m)[0]);
  }

  /** Digits, with or without a minus, are the decimal form of what they are read as, iff not "-0" and in range. */
  lemma SameSpelling(negative: bool, s: nat, n: int)
    requires n == Clamp(Signed(negative, s))
    ensures (if negative then [MINUS] + Digits(s) else Digits(s)) == Decimal(n) <==>
      !(negative && s == 0) && INT64_MIN <= Signed(negative, s) <= INT64_MAX
  {
    hide Digits;
    var m := if n < 0 then -n else n;
    DigitsInjective(m, s);
    NoMinus(m);
    NoMinus(s);
    assert ([MINUS] + Digits(s))[1..] == Digits(s) && ([MINUS] + Digits(m))[1..] == Digits(m);
  }

  function Signed(negative: bool, s: nat): int { if negative then -(s as int) else s }

  lemma ZeroIsZero(run: Text)
    requires AllDigits(run) && |run| == 1 && run[0] == CHAR_0
    ensures Number(run) == 0
  {
    assert run[..0] == [];
  }

  // ---------------------------------------------------------------- proper values only

  lemma {:induction false} LessTransitive(a: Text, b: Text, c: Text)
    requires Less(a, b) && Less(b, c)
    ensures Less(a, c)
  {
    if a != [] && a[0] == b[0] && b[0] == c[0] { LessTransitive(a[1..], b[1..], c[1..]); }
  }

  lemma {:induction false} LessTotal(a: Text, b: Text)
    requires a != b
    ensures Less(a, b) || Less(b, a)
  {
    if a != [] && b != [] && a[0] == b[0] {
      assert a == [a[0]] + a[1..] && b == [b[0]] + b[1..];
      LessTotal(a[1..], b[1..]);
    }
  }

  ghost predicate AllProper(entries: seq<Entry>)
  {
    forall i :: 0 <= i < |entries| ==> Proper(entries[i].value)
  }

  /** Everything in the dictionary sorts after `low`. */
  ghost predicate Above(low: Text, entries: seq<Entry>)
  {
    forall i :: 0 <= i < |entries| ==> Less(low, entries[i].key)
  }

  lemma SortedFirst(e: Entry, rest: seq<Entry>)
    ensures Sorted([e] + rest) <==> Above(e.key, rest) && Sorted(rest)
  {
    hide Less;
    var all := [e] + rest;
    assert all[0] == e && forall i :: 0 < i < |all| ==> all[i] == rest[i - 1];
    if Sorted(all) {
      forall i | 0 <= i < |rest| ensures Less(e.key, rest[i].key) { assert all[i + 1] == rest[i]; }
      forall i, j | 0 <= i < j < |rest| ensures Less(rest[i].key, rest[j].key) {
        assert all[i + 1] == rest[i] && all[j + 1] == rest[j];
      }
    }
  }

  lemma AboveAll(low: Text, key: Text, entries: seq<Entry>)
    requires Less(low, key) && Above(key, entries)
    ensures Above(low, entries)
  {
    forall i | 0 <= i < |entries| ensures Less(low, entries[i].key) { LessTransitive(low, key, entries[i].key); }
  }

  /** Storing under a key keeps the order and charges no more than a new entry. */
  lemma {:induction false} PutKeeps(entries: seq<Entry>, key: Text, value: Value)
    requires Sorted(entries) && AllProper(entries) && Proper(value)
    ensures var r := Put(entries, key, value);
      && Sorted(r) && AllProper(r)
      && EntriesWeight(r) <= EntriesWeight(entries) + |key| + Weight(value) + 1
      && (forall low :: Less(low, key) && Above(low, entries) ==> Above(low, r))
  {
    hide Less, Proper, Weight, Sorted;
    if entries == [] {
      SortedFirst(Entry(key, value), []);
      assert [Entry(key, value)] == [Entry(key, value)] + [];
      NothingSorted();
    } else {
      var e, rest := entries[0], entries[1..];
      assert entries == [e] + rest;
      SortedFirst(e, rest);
      if e.key == key {
        SortedFirst(Entry(key, value), rest);
        AbovePut(entries, [Entry(key, value)] + rest, key, rest);
      } else if Less(e.key, key) {
        PutKeeps(rest, key, value);
        SortedFirst(e, Put(rest, key, value));
        AboveCons(e, rest, Put(rest, key, value), key);
      } else {
        LessTotal(e.key, key);
        AboveAll(key, e.key, rest);
        SortedFirst(Entry(key, value), entries);
        AboveEntry(key, e, rest);
        AbovePut(entries, [Entry(key, value)] + entries, key, entries);
      }
    }
  }

  lemma NothingSorted()
    ensures Sorted([])
  {
  }

  lemma AboveEntry(low: Text, e: Entry, rest: seq<Entry>)
    requires Less(low, e.key) && Above(low, rest)
    ensures Above(low, [e] + rest)
  {
    hide Less;
  }

  lemma AbovePut(entries: seq<Entry>, r: seq<Entry>, key: Text, rest: seq<Entry>)
    requires r != [] && r[0].key == key && r[1..] == rest
    requires forall i :: 0 <= i < |rest| ==> rest[i] in entries
    ensures forall low :: Less(low, key) && Above(low, entries) ==> Above(low, r)
  {
    hide Less;
    assert forall i :: 0 < i < |r| ==> r[i] == rest[i - 1];
  }

  lemma AboveCons(e: Entry, rest: seq<Entry>, after: seq<Entry>, key: Text)
    requires forall low :: Less(low, key) && Above(low, rest) ==> Above(low, after)
    ensures forall low :: Less(low, key) && Above(low, [e] + rest) ==> Above(low, [e] + after)
  {
    hide Less;
    forall low | Less(low, key) && Above(low, [e] + rest) ensures Above(low, [e] + after) {
      var all := [e] + rest;
      assert all[0] == e && forall i :: 0 <= i < |rest| ==> rest[i] == all[i + 1];
      assert Above(low, rest);
    }
  }

  lemma {:induction false} ItemsWeightAppend(items: seq<Value>, v: Value)
    ensures ItemsWeight(items + [v]) == ItemsWeight(items) + Weight(v) + 1
  {
    hide Weight;
    if items == [] {
      assert items + [v] == [v] && [v][1..] == [];
    } else {
      ItemsWeightAppend(items[1..], v);
      assert (items + [v])[1..] == items[1..] + [v];
    }
  }

  /** Whatever is accepted is proper, and was charged at least its weight, within the limit. */
  lemma {:induction false} AcceptedIsProper(data: Text, pos: nat, used: nat, limit: nat)
    requires ParseValue(data, pos, used, limit).Got? && used <= limit
    ensures var r := ParseValue(data, pos, used, limit); Proper(r.value) && used + Weight(r.value) <= r.used <= limit
    decreases |data| - pos, 0
  {
    hide ParseInt, ParseText, ParseItems, ParseEntries, ItemsWeight, EntriesWeight, Sorted, WriteText, Decimal;
    if data[pos] == CHAR_i {
      IntIsCanonical(data, pos);
    } else if data[pos] == CHAR_l {
      NoWeight();
      AcceptedItems(data, pos + 1, used, limit, [], used);
    } else if data[pos] == CHAR_d {
      NoWeight();
      NothingSorted();
      AcceptedEntries(data, pos + 1, used, limit, [], used);
    } else {
      TextIsCanonical(data, pos, used, limit);
    }
  }

  lemma NoWeight()
    ensures ItemsWeight([]) == 0 && EntriesWeight([]) == 0
  {
  }

  lemma {:induction false} AcceptedItems(data: Text, pos: nat, used: nat, limit: nat, items: seq<Value>, start: nat)
    requires ParseItems(data, pos, used, limit, items).Got? && used <= limit
    requires (forall i :: 0 <= i < |items| ==> Proper(items[i])) && start + ItemsWeight(items) <= used
    ensures var r := ParseItems(data, pos, used, limit, items);
      (forall i :: 0 <= i < |r.value| ==> Proper(r.value[i])) && start + ItemsWeight(r.value) <= r.used <= limit
    decreases |data| - pos, 1
  {
    hide ParseValue, Proper, ItemsWeight, ParseItems;
    ItemsRange(data, pos, used, limit, items);
    ItemsStep(data, pos, used, limit, items);
    if data[pos] != CHAR_e {
      var v := ParseValue(data, pos, used, limit);
      AcceptedIsProper(data, pos, used, limit);
      ItemsWeightAppend(items, v.value);
      AcceptedItems(data, v.pos, v.used + 1, limit, items + [v.value], start);
    }
  }

  lemma ValueRange(data: Text, pos: nat, used: nat, limit: nat)
    requires ParseValue(data, pos, used, limit).Got?
    ensures pos < |data| && (data[pos] == CHAR_i || data[pos] == CHAR_l || data[pos] == CHAR_d || IsDigit(data[pos]))
  {
    hide ParseInt, ParseText, ParseItems, ParseEntries;
  }

  lemma ItemsRange(data: Text, pos: nat, used: nat, limit: nat, items: seq<Value>)
    requires ParseItems(data, pos, used, limit, items).Got?
    ensures pos < |data|
  {
  }

  lemma {:induction false} AcceptedEntries(data: Text, pos: nat, used: nat, limit: nat, entries: seq<Entry>, start: nat)
    requires ParseEntries(data, pos, used, limit, entries).Got? && used <= limit
    requires Sorted(entries) && AllProper(entries) && start + EntriesWeight(entries) <= used
    ensures var r := ParseEntries(data, pos, used, limit, entries);
      Sorted(r.value) && AllProper(r.value) && start + EntriesWeight(r.value) <= r.used <= limit
    decreases |data| - pos, 1
  {
    hide ParseValue, ParseText, Proper, EntriesWeight, ParseEntries, Sorted, AllProper, Put, WriteText;
    EntriesRange(data, pos, used, limit, entries);
    EntriesStep(data, pos, used, limit, entries);
    if data[pos] != CHAR_e {
      var key := ParseText(data, pos, used, limit);
      TextIsCanonical(data, pos, used, limit);
      var v := ParseValue(data, key.pos, key.used, limit);
      AcceptedIsProper(data, key.pos, key.used, limit);
      PutKeeps(entries, key.value, v.value);
      AcceptedEntries(data, v.pos, v.used + 1, limit, Put(entries, key.value, v.value), start);
    }
  }

  lemma EntriesRange(data: Text, pos: nat, used: nat, limit: nat, entries: seq<Entry>)
    requires ParseEntries(data, pos, used, limit, entries).Got?
    ensures pos < |data|
  {
  }

  /**
   Whatever bytes were decoded, however oddly spelled, encoding the value and decoding it again under
   the same limit gives the same value.
   */
  lemma DecodingIsStable(data: Text, limit: nat)
    requires Decode(data, limit) != Invalid && |Encode(Decode(data, limit))| < TWO_31
    ensures Decode(Encode(Decode(data, limit)), limit) == Decode(data, limit)
  {
    hide ParseValue, Proper, Weight, Encode;
    AcceptedIsProper(data, 0, 0, limit);
    RoundTrip(Decode(data, limit), limit);
  }
}
