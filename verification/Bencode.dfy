/** Bencoded values (BEP-3): what the writer produces and what the decoder accepts. */
module Bencode {
  import opened Bytes

  const INT64_MAX: int := 0x7fff_ffff_ffff_ffff
  const INT64_MIN: int := -0x8000_0000_0000_0000

  const CHAR_0: byte := 48
  const CHAR_9: byte := 57
  const COLON: byte := 58
  const MINUS: byte := 45
  const CHAR_d: byte := 100
  const CHAR_e: byte := 101
  const CHAR_i: byte := 105
  const CHAR_l: byte := 108

  type Text = seq<byte>

  /** Dictionaries are kept in key order, as `std::map` does. */
  datatype Value =
    | Invalid
    | Int(number: int)
    | Str(text: Text)
    | List(items: seq<Value>)
    | Dict(entries: seq<Entry>)

  datatype Entry = Entry(key: Text, value: Value)

  // ---------------------------------------------------------------- decimal numbers

  predicate IsDigit(b: byte) { CHAR_0 <= b <= CHAR_9 }

  predicate AllDigits(s: Text) { forall i :: 0 <= i < |s| ==> IsDigit(s[i]) }

  function Digits(n: nat): (s: Text)
    ensures |s| > 0 && AllDigits(s)
  {
    if n < 10 then [CHAR_0 + n] else Digits(n / 10) + [CHAR_0 + n % 10]
  }

  function Number(s: Text): nat
    requires AllDigits(s)
  {
    if s == [] then 0 else 10 * Number(s[..|s| - 1]) + (s[|s| - 1] - CHAR_0) as int
  }

  function Decimal(n: int): Text
  {
    if n < 0 then [MINUS] + Digits(-n) else Digits(n)
  }

  function Pow10(k: nat): nat { if k == 0 then 1 else 10 * Pow10(k - 1) }

  lemma {:induction false} NumberOfDigits(n: nat)
    ensures Number(Digits(n)) == n
  {
    if n >= 10 {
      NumberOfDigits(n / 10);
      assert Digits(n)[..|Digits(n)| - 1] == Digits(n / 10);
    }
  }

  lemma {:induction false} NoLeadingZero(n: nat)
    ensures n > 0 ==> Digits(n)[0] != CHAR_0
    ensures n == 0 ==> Digits(n) == [CHAR_0]
  {
    if n >= 10 { NoLeadingZero(n / 10); }
  }

  lemma {:induction false} FewDigits(n: nat, k: nat)
    requires n < Pow10(k) && k > 0
    ensures |Digits(n)| <= k
    decreases k
  {
    if n >= 10 {
      assert k > 1;
      FewDigits(n / 10, k - 1);
    }
  }

  lemma Pow10Values()
    ensures Pow10(10) == 10_000_000_000
    ensures Pow10(19) == 10_000_000_000_000_000_000
  {
    assert Pow10(5) == 100_000;
    assert Pow10(10) == 10_000_000_000;
    assert Pow10(15) == 1_000_000_000_000_000;
  }

  // ---------------------------------------------------------------- writing

  /** What was written, and whether writing got to the end: an Invalid value stops it. */
  datatype Written = Written(bytes: Text, ok: bool)

  function Write(v: Value): Written
    decreases v, 0
  {
    match v
    case Invalid => Written([], false)
    case Int(n) => Written([CHAR_i] + Decimal(n) + [CHAR_e], true)
    case Str(s) => Written(WriteText(s), true)
    case List(items) =>
      var w := WriteItems(items);
      if w.ok then Written([CHAR_l] + w.bytes + [CHAR_e], true) else Written([CHAR_l] + w.bytes, false)
    case Dict(entries) =>
      var w := WriteEntries(entries);
      if w.ok then Written([CHAR_d] + w.bytes + [CHAR_e], true) else Written([CHAR_d] + w.bytes, false)
  }

  function WriteText(s: Text): Text { Digits(|s|) + [COLON] + s }

  function WriteItems(items: seq<Value>): Written
    decreases items, 1
  {
    if items == [] then Written([], true)
    else
      var first := Write(items[0]);
      if !first.ok then first
      else
        var rest := WriteItems(items[1..]);
        Written(first.bytes + rest.bytes, rest.ok)
  }

  function WriteEntries(entries: seq<Entry>): Written
    decreases entries, 1
  {
    if entries == [] then Written([], true)
    else
      var first := Write(entries[0].value);
      if !first.ok then Written(WriteText(entries[0].key) + first.bytes, false)
      else
        var rest := WriteEntries(entries[1..]);
        Written(WriteText(entries[0].key) + first.bytes + rest.bytes, rest.ok)
  }

  /** `Bencode::encode`: whatever was written. */
  function Encode(v: Value): Text { Write(v).bytes }

  // ---------------------------------------------------------------- reading

  datatype Parsed<T> = Fail | Got(value: T, pos: nat, used: nat)

  /** Where the run of digits at `pos` ends. */
  function DigitEnd(data: Text, pos: nat): (e: nat)
    requires pos <= |data|
    ensures pos <= e <= |data| && AllDigits(data[pos..e])
    ensures e < |data| ==> !IsDigit(data[e])
    decreases |data| - pos
  {
    if pos < |data| && IsDigit(data[pos])
    then
      var e := DigitEnd(data, pos + 1);
      assert data[pos..e] == [data[pos]] + data[pos + 1..e];
      e
    else pos
  }

  /** `strtoll` stops at the ends of the 64-bit range. */
  function Clamp(n: int): int
  {
    if n > INT64_MAX then INT64_MAX else if n < INT64_MIN then INT64_MIN else n
  }

  /** An integer at `pos`: at most twenty characters, a leading zero only alone; "-0" is read as 0. */
  function ParseInt(data: Text, pos: nat): (r: Option<(int, nat)>)
    ensures r.Some? ==> pos < r.value.1 <= |data|
  {
    if pos >= |data| || data[pos] != CHAR_i then None
    else
      var negative := pos + 1 < |data| && data[pos + 1] == MINUS;
      var d := if negative then pos + 2 else pos + 1;
      if d >= |data| || !IsDigit(data[d]) then None
      else if data[d] == CHAR_0 then
        if d + 1 < |data| && data[d + 1] == CHAR_e then Some((0, d + 2)) else None
      else
        var e := DigitEnd(data, d);
        var size := e - d + (if negative then 1 else 0);
        var n: int := Number(data[d..e]);
        if e < |data| && data[e] == CHAR_e && size <= 20 then Some((Clamp(if negative then -n else n), e + 1)) else None
  }

  /** May `n` more be charged when `used` of `limit` is gone? */
  predicate Affordable(used: nat, n: nat, limit: nat)
  {
    used <= limit && n <= limit - used
  }

  function ParseText(data: Text, pos: nat, used: nat, limit: nat): (r: Parsed<Text>)
    ensures r.Got? ==> pos < r.pos <= |data|
  {
    if pos >= |data| || !IsDigit(data[pos]) then Fail
    else
      var e := DigitEnd(data, pos);
      if e - pos > 10 || (e - pos > 1 && data[pos] == CHAR_0) then Fail
      else if e >= |data| || data[e] != COLON then Fail
      else
        var n := Number(data[pos..e]);
        if !Affordable(used, n, limit) || e + 1 + n > |data| then Fail
        else Got(data[e + 1..e + 1 + n], e + 1 + n, used + n)
  }

  function ParseValue(data: Text, pos: nat, used: nat, limit: nat): (r: Parsed<Value>)
    ensures r.Got? ==> pos < r.pos <= |data|
    decreases |data| - pos, 0
  {
    if pos >= |data| then Fail
    else if data[pos] == CHAR_i then
      var i := ParseInt(data, pos);
      if i.None? then Fail else Got(Int(i.value.0), i.value.1, used)
    else if data[pos] == CHAR_l then
      var items := ParseItems(data, pos + 1, used, limit, []);
      if items.Fail? then Fail else Got(List(items.value), items.pos, items.used)
    else if data[pos] == CHAR_d then
      var entries := ParseEntries(data, pos + 1, used, limit, []);
      if entries.Fail? then Fail else Got(Dict(entries.value), entries.pos, entries.used)
    else if IsDigit(data[pos]) then
      var text := ParseText(data, pos, used, limit);
      if text.Fail? then Fail else Got(Str(text.value), text.pos, text.used)
    else Fail
  }

  /** The rest of a list; `items` has been read. */
  function ParseItems(data: Text, pos: nat, used: nat, limit: nat, items: seq<Value>): (r: Parsed<seq<Value>>)
    ensures r.Got? ==> pos < r.pos <= |data|
    decreases |data| - pos, 1
  {
    if pos >= |data| then Fail
    else if data[pos] == CHAR_e then Got(items, pos + 1, used)
    else
      var v := ParseValue(data, pos, used, limit);
      if v.Fail? || !Affordable(v.used, 1, limit) then Fail
      else ParseItems(data, v.pos, v.used + 1, limit, items + [v.value])
  }

  function ParseEntries(data: Text, pos: nat, used: nat, limit: nat, entries: seq<Entry>): (r: Parsed<seq<Entry>>)
    ensures r.Got? ==> pos < r.pos <= |data|
    decreases |data| - pos, 1
  {
    if pos >= |data| then Fail
    else if data[pos] == CHAR_e then Got(entries, pos + 1, used)
    else
      var key := ParseText(data, pos, used, limit);
      if key.Fail? then Fail
      else
        var v := ParseValue(data, key.pos, key.used, limit);
        if v.Fail? || !Affordable(v.used, 1, limit) then Fail
        else ParseEntries(data, v.pos, v.used + 1, limit, Put(entries, key.value, v.value))
  }

  /** Byte-string order. */
  predicate Less(a: Text, b: Text)
  {
    if b == [] then false
    else if a == [] then true
    else if a[0] != b[0] then a[0] < b[0]
    else Less(a[1..], b[1..])
  }

  /** `m_dict[key] = value`: a later value replaces an earlier one. */
  function Put(entries: seq<Entry>, key: Text, value: Value): seq<Entry>
  {
    if entries == [] then [Entry(key, value)]
    else if entries[0].key == key then [Entry(key, value)] + entries[1..]
    else if Less(entries[0].key, key) then [entries[0]] + Put(entries[1..], key, value)
    else [Entry(key, value)] + entries
  }

  /** The whole input must be one value. */
  function Decode(data: Text, limit: nat): Value
  {
    var r := ParseValue(data, 0, 0, limit);
    if r.Got? && r.pos >= |data| then r.value else Invalid
  }

  // ---------------------------------------------------------------- values that round-trip

  ghost predicate Sorted(entries: seq<Entry>)
  {
    forall i, j :: 0 <= i < j < |entries| ==> Less(entries[i].key, entries[j].key)
  }

  /** No Invalid inside, 64-bit integers, dictionaries in key order. */
  ghost predicate Proper(v: Value)
    decreases v
  {
    match v
    case Invalid => false
    case Int(n) => INT64_MIN <= n <= INT64_MAX
    case Str(_) => true
    case List(items) => forall i :: 0 <= i < |items| ==> Proper(items[i])
    case Dict(entries) => Sorted(entries) && forall i :: 0 <= i < |entries| ==> Proper(entries[i].value)
  }

  /** What reading the value is charged: all text lengths, and one per item or entry. */
  function Weight(v: Value): nat
    decreases v, 0
  {
    match v
    case Invalid => 0
    case Int(_) => 0
    case Str(s) => |s|
    case List(items) => ItemsWeight(items)
    case Dict(entries) => EntriesWeight(entries)
  }

  function ItemsWeight(items: seq<Value>): nat
    decreases items, 1
  {
    if items == [] then 0 else Weight(items[0]) + 1 + ItemsWeight(items[1..])
  }

  function EntriesWeight(entries: seq<Entry>): nat
    decreases entries, 1
  {
    if entries == [] then 0 else |entries[0].key| + Weight(entries[0].value) + 1 + EntriesWeight(entries[1..])
  }
}
