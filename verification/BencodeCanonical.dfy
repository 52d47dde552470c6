/** Which accepted inputs are exactly the encoding of what they decode to. */
module BencodeCanonical {
  import opened Bytes
  import opened Bencode
  import opened BencodeRoundTrip
  import opened BencodeNormal

  // ---------------------------------------------------------------- a scan over the bytes

  /** End of a text, whatever it costs. */
  function TextEnd(data: Text, pos: nat): (r: Parsed<Text>)
    ensures r.Got? ==> pos < r.pos <= |data|
  {
    ParseText(data, pos, 0, |data|)
  }

  /**
   The end of the value at `pos` if it is spelled canonically: no integer is "-0" or beyond 64 bits,
   and in every dictionary the keys strictly increase.
   */
  function CanonValue(data: Text, pos: nat): (r: Option<nat>)
    ensures r.Some? ==> pos < r.value <= |data|
    decreases |data| - pos, 0
  {
    if pos >= |data| then None
    else if data[pos] == CHAR_i then
      if PlainInt(data, pos) then Some(ParseInt(data, pos).value.1) else None
    else if data[pos] == CHAR_l then CanonItems(data, pos + 1)
    else if data[pos] == CHAR_d then CanonEntries(data, pos + 1, None)
    else
      var text := TextEnd(data, pos);
      if text.Got? then Some(text.pos) else None
  }

  function CanonItems(data: Text, pos: nat): (r: Option<nat>)
    ensures r.Some? ==> pos < r.value <= |data|
    decreases |data| - pos, 1
  {
    if pos >= |data| then None
    else if data[pos] == CHAR_e then Some(pos + 1)
    else
      var v := CanonValue(data, pos);
      if v.None? then None else CanonItems(data, v.value)
  }

  /** `last` is the key before, if there was one. */
  function CanonEntries(data: Text, pos: nat, last: Option<Text>): (r: Option<nat>)
    ensures r.Some? ==> pos < r.value <= |data|
    decreases |data| - pos, 1
  {
    if pos >= |data| then None
    else if data[pos] == CHAR_e then Some(pos + 1)
    else
      var key := TextEnd(data, pos);
      if key.Fail? || (last.Some? && !Less(last.value, key.value)) then None
      else
        var v := CanonValue(data, key.pos);
        if v.None? then None else CanonEntries(data, v.value, Some(key.value))
  }

  predicate Canonical(data: Text) { CanonValue(data, 0) == Some(|data|) }

  // ---------------------------------------------------------------- canonical bytes are the encoding

  lemma TextCostsNothing(data: Text, pos: nat, used: nat, limit: nat)
    requires ParseText(data, pos, used, limit).Got?
    ensures var r := ParseText(data, pos, used, limit); TextEnd(data, pos) == Got(r.value, r.pos, |r.value|)
  {
    hide Number, DigitEnd;
  }

  lemma CanonStep(data: Text, pos: nat)
    requires pos < |data|
    ensures data[pos] == CHAR_i ==>
      CanonValue(data, pos) == if PlainInt(data, pos) then Some(ParseInt(data, pos).value.1) else None
    ensures data[pos] == CHAR_l ==> CanonValue(data, pos) == CanonItems(data, pos + 1)
    ensures data[pos] == CHAR_d ==> CanonValue(data, pos) == CanonEntries(data, pos + 1, None)
    ensures IsDigit(data[pos]) ==>
      CanonValue(data, pos) == if TextEnd(data, pos).Got? then Some(TextEnd(data, pos).pos) else None
  {
    hide CanonItems, CanonEntries, TextEnd, PlainInt, ParseInt;
  }

  lemma CanonItemsStep(data: Text, pos: nat)
    requires pos < |data|
    ensures data[pos] == CHAR_e ==> CanonItems(data, pos) == Some(pos + 1)
    ensures data[pos] != CHAR_e ==>
      CanonItems(data, pos) ==
        var v := CanonValue(data, pos); if v.None? then None else CanonItems(data, v.value)
  {
    hide CanonValue;
  }

  lemma CanonEntriesStep(data: Text, pos: nat, last: Option<Text>)
    requires pos < |data|
    ensures data[pos] == CHAR_e ==> CanonEntries(data, pos, last) == Some(pos + 1)
    ensures data[pos] != CHAR_e ==>
      CanonEntries(data, pos, last) ==
        var key := TextEnd(data, pos);
        if key.Fail? || (last.Some? && !Less(last.value, key.value)) then None
        else
          var v := CanonValue(data, key.pos);
          if v.None? then None else CanonEntries(data, v.value, Some(key.value))
  {
    hide CanonValue, TextEnd, Less;
  }

  /** The bytes from `pos` to the end of `r` are what `w` wrote, and then the closing byte. */
  predicate Spells(data: Text, pos: nat, end: nat, w: Written)
  {
    pos < end <= |data| && w.ok && data[pos..end] == w.bytes + [CHAR_e]
  }

  lemma {:induction false} CanonicalBytes(data: Text, pos: nat, used: nat, limit: nat)
    requires ParseValue(data, pos, used, limit).Got? && CanonValue(data, pos).Some? && used <= limit
    ensures var r := ParseValue(data, pos, used, limit);
      CanonValue(data, pos) == Some(r.pos) && Write(r.value) == Written(data[pos..r.pos], true)
    decreases |data| - pos, 0
  {
    hide ParseInt, ParseText, ParseItems, ParseEntries, ParseValue, CanonValue, CanonItems, CanonEntries, TextEnd, PlainInt,
         Decimal, WriteText, WriteItems, WriteEntries, Less;
    ValueRange(data, pos, used, limit);
    CanonStep(data, pos);
    ListStep(data, pos, used, limit);
    ScalarStep(data, pos, used, limit);
    var r := ParseValue(data, pos, used, limit);
    if data[pos] == CHAR_i {
      IntIsCanonical(data, pos);
    } else if data[pos] == CHAR_l {
      ItemsBytes(data, pos + 1, used, limit, []);
      Framed(data, pos, r.pos, CHAR_l, WriteItems(r.value.items));
    } else if data[pos] == CHAR_d {
      NothingSorted();
      EntriesBytes(data, pos + 1, used, limit, [], None);
      Framed(data, pos, r.pos, CHAR_d, WriteEntries(r.value.entries));
    } else {
      TextIsCanonical(data, pos, used, limit);
      TextCostsNothing(data, pos, used, limit);
    }
  }

  lemma Framed(data: Text, pos: nat, end: nat, c: byte, w: Written)
    requires pos + 1 < |data| && data[pos] == c && Spells(data, pos + 1, end, w)
    ensures data[pos..end] == [c] + w.bytes + [CHAR_e]
  {
    assert data[pos..end] == [data[pos]] + data[pos + 1..end];
  }

  lemma {:induction false} ItemsBytes(data: Text, pos: nat, used: nat, limit: nat, items: seq<Value>)
    requires ParseItems(data, pos, used, limit, items).Got? && CanonItems(data, pos).Some? && used <= limit
    ensures var r := ParseItems(data, pos, used, limit, items);
      && CanonItems(data, pos) == Some(r.pos) && items <= r.value
      && Spells(data, pos, r.pos, WriteItems(r.value[|items|..]))
    decreases |data| - pos, 1
  {
    hide ParseValue, ParseItems, CanonValue, CanonItems, Write;
    ItemsRange(data, pos, used, limit, items);
    ItemsStep(data, pos, used, limit, items);
    CanonItemsStep(data, pos);
    var r := ParseItems(data, pos, used, limit, items);
    if data[pos] == CHAR_e {
      assert r.value[|items|..] == [];
      assert data[pos..pos + 1] == [CHAR_e];
    } else {
      var v := ParseValue(data, pos, used, limit);
      CanonicalBytes(data, pos, used, limit);
      AcceptedIsProper(data, pos, used, limit);
      ItemsBytes(data, v.pos, v.used + 1, limit, items + [v.value]);
      var more := r.value[|items|..];
      assert more[0] == v.value && more[1..] == r.value[|items + [v.value]|..];
      SpellsMore(data, pos, v.pos, r.pos, WriteItems(more[1..]));
    }
  }

  lemma SpellsMore(data: Text, pos: nat, mid: nat, end: nat, w: Written)
    requires pos <= mid && Spells(data, mid, end, w)
    ensures Spells(data, pos, end, Written(data[pos..mid] + w.bytes, true))
  {
    assert data[pos..end] == data[pos..mid] + data[mid..end];
  }

  /** `last` is the key of the last entry read. */
  ghost predicate LastKey(entries: seq<Entry>, last: Option<Text>)
  {
    if entries == [] then last == None else last == Some(entries[|entries| - 1].key)
  }

  lemma AppendSorted(entries: seq<Entry>, e: Entry)
    requires Sorted(entries) && (entries != [] ==> Less(entries[|entries| - 1].key, e.key))
    ensures Sorted(entries + [e])
  {
    hide Less;
    var all := entries + [e];
    forall i, j | 0 <= i < j < |all| ensures Less(all[i].key, all[j].key) {
      if j == |entries| && i < |entries| - 1 { LessTransitive(all[i].key, entries[|entries| - 1].key, e.key); }
    }
  }

  lemma PutAtEnd(entries: seq<Entry>, key: Text, value: Value)
    requires Sorted(entries) && (entries != [] ==> Less(entries[|entries| - 1].key, key))
    ensures Put(entries, key, value) == entries + [Entry(key, value)] && Sorted(entries + [Entry(key, value)])
  {
    hide Less, Sorted;
    AppendSorted(entries, Entry(key, value));
    PutLast(entries, [Entry(key, value)]);
  }

  lemma {:induction false} EntriesBytes(data: Text, pos: nat, used: nat, limit: nat, entries: seq<Entry>, last: Option<Text>)
    requires ParseEntries(data, pos, used, limit, entries).Got? && CanonEntries(data, pos, last).Some? && used <= limit
    requires Sorted(entries) && LastKey(entries, last)
    ensures var r := ParseEntries(data, pos, used, limit, entries);
      && CanonEntries(data, pos, last) == Some(r.pos) && entries <= r.value
      && Spells(data, pos, r.pos, WriteEntries(r.value[|entries|..]))
    decreases |data| - pos, 1
  {
    hide ParseValue, ParseEntries, ParseText, CanonValue, CanonEntries, Write, WriteText, Sorted, Less, Put, TextEnd;
    EntriesRange(data, pos, used, limit, entries);
    EntriesStep(data, pos, used, limit, entries);
    CanonEntriesStep(data, pos, last);
    var r := ParseEntries(data, pos, used, limit, entries);
    if data[pos] == CHAR_e {
      assert r.value[|entries|..] == [];
      assert data[pos..pos + 1] == [CHAR_e];
    } else {
      var key := ParseText(data, pos, used, limit);
      TextIsCanonical(data, pos, used, limit);
      TextCostsNothing(data, pos, used, limit);
      var v := ParseValue(data, key.pos, key.used, limit);
      CanonicalBytes(data, key.pos, key.used, limit);
      AcceptedIsProper(data, key.pos, key.used, limit);
      var e := Entry(key.value, v.value);
      PutAtEnd(entries, key.value, v.value);
      EntriesBytes(data, v.pos, v.used + 1, limit, entries + [e], Some(key.value));
      var more := r.value[|entries|..];
      assert more[0] == e && more[1..] == r.value[|entries + [e]|..];
      SpellsMore(data, pos, v.pos, r.pos, WriteEntries(more[1..]));
      assert data[pos..v.pos] == data[pos..key.pos] + data[key.pos..v.pos];
    }
  }

  // ---------------------------------------------------------------- encodings are canonical

  lemma {:induction false} EncodingIsCanonical(v: Value, data: Text, pos: nat)
    requires Proper(v) && At(data, pos, Encode(v)) && |data| < TWO_31
    ensures CanonValue(data, pos) == Some(pos + |Encode(v)|)
    decreases v, 0
  {
    hide Digits, ParseInt, WriteText, Decimal, CanonValue, CanonItems, CanonEntries, WriteItems, WriteEntries, PlainInt,
         ItemsWeight, EntriesWeight, ParseText;
    ProperWrites(v);
    FirstByte(v);
    assert data[pos] == data[pos..pos + |Encode(v)|][0];
    CanonStep(data, pos);
    CompoundWritten(v);
    match v
    case Int(n) =>
      IntAt(data, pos, n);
      IntIsCanonical(data, pos);
    case Str(s) =>
      TextFits(data, pos, s);
      TextAt(data, pos, s, 0, |data|);
    case List(items) =>
      AtSplit(data, pos, [CHAR_l], WriteItems(items).bytes + [CHAR_e]);
      ItemsAreCanonical(items, data, pos + 1);
    case Dict(entries) =>
      AtSplit(data, pos, [CHAR_d], WriteEntries(entries).bytes + [CHAR_e]);
      EntriesAreCanonical(entries, data, pos + 1, None);
  }

  lemma {:induction false} ItemsAreCanonical(items: seq<Value>, data: Text, pos: nat)
    requires forall i :: 0 <= i < |items| ==> Proper(items[i])
    requires At(data, pos, WriteItems(items).bytes + [CHAR_e]) && |data| < TWO_31
    ensures CanonItems(data, pos) == Some(pos + |WriteItems(items).bytes| + 1)
    decreases items, 1
  {
    hide CanonValue, CanonItems, Write, Proper;
    if items == [] {
      assert WriteItems(items).bytes + [CHAR_e] == [CHAR_e];
      AtByte(data, pos, CHAR_e);
      CanonItemsStep(data, pos);
    } else {
      hide WriteItems;
      var first, rest := Encode(items[0]), WriteItems(items[1..]).bytes;
      ItemsWritten(items);
      StartsAnItem(items[0]);
      assert WriteItems(items).bytes + [CHAR_e] == first + (rest + [CHAR_e]);
      AtSplit(data, pos, first, rest + [CHAR_e]);
      assert data[pos] == data[pos..pos + |first|][0];
      CanonItemsStep(data, pos);
      EncodingIsCanonical(items[0], data, pos);
      ItemsAreCanonical(items[1..], data, pos + |first|);
    }
  }

  lemma {:induction false} EntriesAreCanonical(entries: seq<Entry>, data: Text, pos: nat, last: Option<Text>)
    requires forall i :: 0 <= i < |entries| ==> Proper(entries[i].value)
    requires Sorted(entries) && (last.Some? && entries != [] ==> Less(last.value, entries[0].key))
    requires At(data, pos, WriteEntries(entries).bytes + [CHAR_e]) && |data| < TWO_31
    ensures CanonEntries(data, pos, last) == Some(pos + |WriteEntries(entries).bytes| + 1)
    decreases entries, 1
  {
    hide CanonValue, CanonEntries, Write, Proper, WriteText, ParseText, Less;
    if entries == [] {
      assert WriteEntries(entries).bytes + [CHAR_e] == [CHAR_e];
      AtByte(data, pos, CHAR_e);
      CanonEntriesStep(data, pos, last);
    } else {
      hide WriteEntries;
      var e := entries[0];
      var key, first := WriteText(e.key), Encode(e.value);
      EntriesWritten(entries);
      FirstEntryAt(entries, data, pos);
      CanonEntriesStep(data, pos, last);
      TextFits(data, pos, e.key);
      TextAt(data, pos, e.key, 0, |data|);
      EncodingIsCanonical(e.value, data, pos + |key|);
      EntriesAreCanonical(entries[1..], data, pos + |key| + |first|, Some(e.key));
    }
  }

  lemma TextFits(data: Text, pos: nat, s: Text)
    requires At(data, pos, WriteText(s))
    ensures |s| <= |data|
  {
  }

  // ---------------------------------------------------------------- exactly

  /** An accepted input is the encoding of its value if and only if it is canonical, byte by byte. */
  lemma CanonicalExactly(data: Text, limit: nat)
    requires Decode(data, limit) != Invalid && |data| < TWO_31
    ensures Encode(Decode(data, limit)) == data <==> Canonical(data)
  {
    hide ParseValue, CanonValue, Write, Proper;
    var v := Decode(data, limit);
    AcceptedIsProper(data, 0, 0, limit);
    assert data[0..|data|] == data;
    if Encode(v) == data { EncodingIsCanonical(v, data, 0); }
    if Canonical(data) { CanonicalBytes(data, 0, 0, limit); }
  }

  // ---------------------------------------------------------------- inputs that are accepted and not canonical

  /** Minus zero is accepted, as 0, which is written another way. */
  lemma MinusZero(limit: nat)
    ensures Decode([CHAR_i, MINUS, CHAR_0, CHAR_e], limit) == Int(0)
    ensures Encode(Int(0)) == [CHAR_i, CHAR_0, CHAR_e] && !Canonical([CHAR_i, MINUS, CHAR_0, CHAR_e])
  {
    hide ParseItems, ParseEntries, ParseText;
    var data := [CHAR_i, MINUS, CHAR_0, CHAR_e];
    assert ParseInt(data, 0) == Some((0, 4));
    assert Digits(0) == [CHAR_0];
  }

  /** 2^63 is accepted, as the greatest 64-bit integer. */
  lemma BeyondRange(limit: nat)
    ensures var data := [CHAR_i] + Digits(INT64_MAX + 1) + [CHAR_e];
      Decode(data, limit) == Int(INT64_MAX) && Encode(Int(INT64_MAX)) != data && !Canonical(data)
  {
    hide Digits, Number, DigitEnd, ParseItems, ParseEntries, ParseText;
    var n := INT64_MAX + 1;
    var data := [CHAR_i] + Digits(n) + [CHAR_e];
    NumberOfDigits(n);
    DigitsInjective(n, INT64_MAX);
    Unframe(Digits(n), Digits(INT64_MAX));
    assert data[1..1 + |Digits(n)|] == Digits(n);
    WideInt(data, n);
    if Canonical(data) { CanonicalExactly(data, limit); }
  }

  lemma WideInt(data: Text, n: nat)
    requires data == [CHAR_i] + Digits(n) + [CHAR_e] && n == INT64_MAX + 1
    ensures |data| < TWO_31 && ParseInt(data, 0) == Some((INT64_MAX, |data|))
  {
    hide Digits, Number;
    NumberOfDigits(n);
    NoLeadingZero(n);
    assert |Digits(n)| <= 19 by { Pow10Values(); FewDigits(n, 19); }
    var e := 1 + |Digits(n)|;
    assert data[1..e] == Digits(n) && data[e] == CHAR_e;
    DigitRun(data, 1, e);
    NoMinus(n);
    assert data[1] == Digits(n)[0];
  }

  /** One entry, read. */
  lemma EntryRead(k: Text, v: Value, data: Text, pos: nat, next: nat, used: nat, limit: nat, entries: seq<Entry>)
    requires Proper(v) && At(data, pos, WriteText(k) + Encode(v)) && |data| < TWO_31
    requires next == pos + |WriteText(k) + Encode(v)| && used + |k| + Weight(v) + 1 <= limit
    ensures ParseEntries(data, pos, used, limit, entries)
         == ParseEntries(data, next, used + |k| + Weight(v) + 1, limit, Put(entries, k, v))
  {
    hide WriteText, Write, ParseEntries, ParseText, ParseValue, Put, Less, Weight, Proper;
    AtSplit(data, pos, WriteText(k), Encode(v));
    TextStart(k);
    assert data[pos] == data[pos..pos + |WriteText(k)|][0];
    EntriesStep(data, pos, used, limit, entries);
    TextAt(data, pos, k, used, limit);
    ValueAt(v, data, pos + |WriteText(k)|, used + |k|, limit);
  }

  /** One entry, scanned. */
  lemma EntryScanned(k: Text, v: Value, data: Text, pos: nat, next: nat, last: Option<Text>)
    requires Proper(v) && At(data, pos, WriteText(k) + Encode(v)) && |data| < TWO_31
    requires next == pos + |WriteText(k) + Encode(v)|
    ensures CanonEntries(data, pos, last)
         == if last.Some? && !Less(last.value, k) then None else CanonEntries(data, next, Some(k))
  {
    hide WriteText, Write, ParseText, CanonEntries, CanonValue, Less, Proper;
    AtSplit(data, pos, WriteText(k), Encode(v));
    TextStart(k);
    assert data[pos] == data[pos..pos + |WriteText(k)|][0];
    CanonEntriesStep(data, pos, last);
    TextFits(data, pos, k);
    TextAt(data, pos, k, 0, |data|);
    EncodingIsCanonical(v, data, pos + |WriteText(k)|);
  }

  /**
   A dictionary of two entries is accepted whatever the order of its keys, and even if they are the same: the
   second then replaces the first. It is what its value is written as only if the first key sorts below the second.
   */
  lemma TwoEntries(k1: Text, v1: Value, k2: Text, v2: Value, data: Text, limit: nat)
    requires Proper(v1) && Proper(v2) && |k1| + Weight(v1) + |k2| + Weight(v2) + 2 <= limit
    requires data == [CHAR_d] + (WriteText(k1) + Encode(v1)) + (WriteText(k2) + Encode(v2)) + [CHAR_e] && |data| < TWO_31
    ensures Decode(data, limit) == Dict(Put(Put([], k1, v1), k2, v2))
    ensures Encode(Decode(data, limit)) == data <==> Less(k1, k2)
  {
    hide WriteText, Encode, ParseEntries, CanonEntries, Put, Less, Weight, Proper, At, Decode, Canonical;
    var first, second := WriteText(k1) + Encode(v1), WriteText(k2) + Encode(v2);
    TwoParts(data, first, second);
    var mid, end, paid := 1 + |first|, 1 + |first| + |second|, |k1| + Weight(v1) + 1;
    BothRead(k1, v1, k2, v2, data, mid, end, paid, paid + |k2| + Weight(v2) + 1, limit);
    BothScanned(k1, v1, k2, v2, data, mid, end);
    OneDictionary(data, limit);
    CanonicalExactly(data, limit);
  }

  /** The last entry, read. */
  lemma LastRead(k: Text, v: Value, data: Text, pos: nat, end: nat, used: nat, paid: nat, limit: nat, entries: seq<Entry>)
    requires Proper(v) && paid == used + |k| + Weight(v) + 1 && paid <= limit && |data| < TWO_31
    requires At(data, pos, WriteText(k) + Encode(v)) && end == pos + |WriteText(k) + Encode(v)|
    requires end == |data| - 1 && data[end] == CHAR_e
    ensures ParseEntries(data, pos, used, limit, entries) == Got(Put(entries, k, v), |data|, paid)
  {
    hide *;
    EntryRead(k, v, data, pos, end, used, limit, entries);
    EntriesEnd(data, end, paid, limit, Put(entries, k, v), None);
  }

  /** Both entries, read. */
  lemma BothRead(k1: Text, v1: Value, k2: Text, v2: Value, data: Text, mid: nat, end: nat, paid: nat, all: nat, limit: nat)
    requires Proper(v1) && Proper(v2) && paid == |k1| + Weight(v1) + 1 && all == paid + |k2| + Weight(v2) + 1
    requires all <= limit && |data| < TWO_31
    requires At(data, 1, WriteText(k1) + Encode(v1)) && mid == 1 + |WriteText(k1) + Encode(v1)|
    requires At(data, mid, WriteText(k2) + Encode(v2)) && end == mid + |WriteText(k2) + Encode(v2)|
    requires end == |data| - 1 && data[end] == CHAR_e
    ensures ParseEntries(data, 1, 0, limit, []) == Got(Put(Put([], k1, v1), k2, v2), |data|, all)
  {
    hide *;
    LastRead(k2, v2, data, mid, end, paid, all, limit, Put([], k1, v1));
    EntryRead(k1, v1, data, 1, mid, 0, limit, []);
    assert 0 + |k1| + Weight(v1) + 1 == paid;
  }

  /** Both entries, scanned. */
  lemma BothScanned(k1: Text, v1: Value, k2: Text, v2: Value, data: Text, mid: nat, end: nat)
    requires Proper(v1) && Proper(v2) && |data| < TWO_31
    requires At(data, 1, WriteText(k1) + Encode(v1)) && mid == 1 + |WriteText(k1) + Encode(v1)|
    requires At(data, mid, WriteText(k2) + Encode(v2)) && end == mid + |WriteText(k2) + Encode(v2)|
    requires end == |data| - 1 && data[end] == CHAR_e
    ensures CanonEntries(data, 1, None) == if Less(k1, k2) then Some(|data|) else None
  {
    hide *;
    EntryScanned(k1, v1, data, 1, mid, None);
    EntryScanned(k2, v2, data, mid, end, Some(k1));
    EntriesEnd(data, end, 0, 0, [], Some(k2));
  }

  lemma EntriesEnd(data: Text, pos: nat, used: nat, limit: nat, entries: seq<Entry>, last: Option<Text>)
    requires pos < |data| && data[pos] == CHAR_e
    ensures ParseEntries(data, pos, used, limit, entries) == Got(entries, pos + 1, used)
    ensures CanonEntries(data, pos, last) == Some(pos + 1)
  {
  }

  /** A dictionary that ends the input. */
  lemma OneDictionary(data: Text, limit: nat)
    requires data != [] && data[0] == CHAR_d
    ensures var r := ParseEntries(data, 1, 0, limit, []);
      r.Got? && r.pos == |data| ==> Decode(data, limit) == Dict(r.value)
    ensures Canonical(data) <==> CanonEntries(data, 1, None) == Some(|data|)
  {
    hide ParseEntries, CanonEntries, ParseValue, CanonValue;
    ListStep(data, 0, 0, limit);
    CanonStep(data, 0);
  }

  lemma TwoParts(data: Text, first: Text, second: Text)
    requires data == [CHAR_d] + first + second + [CHAR_e]
    ensures data[0] == CHAR_d && At(data, 1, first) && At(data, 1 + |first|, second)
    ensures |data| == 1 + |first| + |second| + 1 && data[1 + |first| + |second|] == CHAR_e
  {
  }

  /** "d1:bi0e1:ai0ee", keys out of order, and "d1:ai0e1:ai0ee", a key repeated: both accepted, both written differently. */
  lemma KeysOutOfOrder(limit: nat)
    requires limit >= 4
    ensures var data := [CHAR_d, 49, COLON, 98, CHAR_i, CHAR_0, CHAR_e, 49, COLON, 97, CHAR_i, CHAR_0, CHAR_e, CHAR_e];
      Decode(data, limit) == Dict([Entry([97], Int(0)), Entry([98], Int(0))]) && Encode(Decode(data, limit)) != data
    ensures var data := [CHAR_d, 49, COLON, 97, CHAR_i, CHAR_0, CHAR_e, 49, COLON, 97, CHAR_i, CHAR_0, CHAR_e, CHAR_e];
      Decode(data, limit) == Dict([Entry([97], Int(0))]) && Encode(Decode(data, limit)) != data
  {
    SmallSpellings();
    var a: Text, b: Text, zero: Value := [97], [98], Int(0);
    var swapped := [CHAR_d, 49, COLON, 98, CHAR_i, CHAR_0, CHAR_e, 49, COLON, 97, CHAR_i, CHAR_0, CHAR_e, CHAR_e];
    var twice := [CHAR_d, 49, COLON, 97, CHAR_i, CHAR_0, CHAR_e, 49, COLON, 97, CHAR_i, CHAR_0, CHAR_e, CHAR_e];
    assert |swapped| < TWO_31 && |twice| < TWO_31;
    hide *;
    assert swapped == [CHAR_d] + (WriteText(b) + Encode(zero)) + (WriteText(a) + Encode(zero)) + [CHAR_e];
    TwoEntries(b, zero, a, zero, swapped, limit);
    assert twice == [CHAR_d] + (WriteText(a) + Encode(zero)) + (WriteText(a) + Encode(zero)) + [CHAR_e];
    TwoEntries(a, zero, a, zero, twice, limit);
  }

  lemma SmallSpellings()
    ensures WriteText([97]) == [49, COLON, 97] && WriteText([98]) == [49, COLON, 98]
    ensures Encode(Int(0)) == [CHAR_i, CHAR_0, CHAR_e] && Weight(Int(0)) == 0 && Proper(Int(0))
    ensures !Less([98], [97]) && !Less([97], [97])
    ensures Put(Put([], [98], Int(0)), [97], Int(0)) == [Entry([97], Int(0)), Entry([98], Int(0))]
    ensures Put(Put([], [97], Int(0)), [97], Int(0)) == [Entry([97], Int(0))]
  {
    var a: Text, b: Text := [97], [98];
    assert Digits(0) == [CHAR_0] && Digits(1) == [49];
    assert a[0] == 97 && b[0] == 98 && a[1..] == [];
  }
}
