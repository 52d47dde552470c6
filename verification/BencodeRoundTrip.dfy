/** Decoding what was encoded gives the value back exactly when the decoder's limit affords it. */
module BencodeRoundTrip {
  import opened Bytes
  import opened Bencode

  /** `s` stands in `data` at `pos`. */
  predicate At(data: Text, pos: nat, s: Text)
  {
    pos + |s| <= |data| && data[pos..pos + |s|] == s
  }

  lemma AtSplit(data: Text, pos: nat, a: Text, b: Text)
    requires At(data, pos, a + b)
    ensures At(data, pos, a) && At(data, pos + |a|, b)
  {
    assert (a + b)[..|a|] == a && (a + b)[|a|..] == b;
    assert data[pos..pos + |a|] == data[pos..pos + |a + b|][..|a|];
    assert data[pos + |a|..pos + |a| + |b|] == data[pos..pos + |a + b|][|a|..];
  }

  lemma AtByte(data: Text, pos: nat, c: byte)
    requires At(data, pos, [c])
    ensures pos < |data| && data[pos] == c
  {
    assert data[pos..pos + 1][0] == data[pos];
  }

  lemma {:induction false} DigitRun(data: Text, pos: nat, e: nat)
    requires pos <= e < |data| && AllDigits(data[pos..e]) && !IsDigit(data[e])
    ensures DigitEnd(data, pos) == e
    decreases e - pos
  {
    if pos < e {
      assert data[pos..e][0] == data[pos];
      var run := data[pos + 1..e];
      forall i | 0 <= i < |run| ensures IsDigit(run[i]) { assert run[i] == data[pos..e][i + 1]; }
      DigitRun(data, pos + 1, e);
    }
  }

  /** Digits followed by something else are read as the number they spell. */
  lemma DigitsAt(data: Text, pos: nat, n: nat, c: byte)
    requires At(data, pos, Digits(n) + [c]) && !IsDigit(c)
    ensures DigitEnd(data, pos) == pos + |Digits(n)|
    ensures data[pos..pos + |Digits(n)|] == Digits(n) && Number(Digits(n)) == n
    ensures pos + |Digits(n)| < |data| && data[pos + |Digits(n)|] == c && data[pos] == Digits(n)[0]
  {
    hide Digits, DigitEnd;
    AtSplit(data, pos, Digits(n), [c]);
    AtByte(data, pos + |Digits(n)|, c);
    DigitRun(data, pos, pos + |Digits(n)|);
    NumberOfDigits(n);
    assert data[pos] == data[pos..pos + |Digits(n)|][0];
  }

  lemma IntAt(data: Text, pos: nat, n: int)
    requires At(data, pos, [CHAR_i] + Decimal(n) + [CHAR_e]) && INT64_MIN <= n <= INT64_MAX
    ensures ParseInt(data, pos) == Some((n, pos + |[CHAR_i] + Decimal(n) + [CHAR_e]|))
  {
    hide Digits, DigitEnd, Number, At, ParseInt;
    assert [CHAR_i] + Decimal(n) + [CHAR_e] == [CHAR_i] + (Decimal(n) + [CHAR_e]);
    AtSplit(data, pos, [CHAR_i], Decimal(n) + [CHAR_e]);
    AtByte(data, pos, CHAR_i);
    var m := if n < 0 then -n else n;
    var d := if n < 0 then pos + 2 else pos + 1;
    if n < 0 {
      assert Decimal(n) + [CHAR_e] == [MINUS] + (Digits(m) + [CHAR_e]);
      AtSplit(data, pos + 1, [MINUS], Digits(m) + [CHAR_e]);
      AtByte(data, pos + 1, MINUS);
    }
    DigitsAt(data, d, m, CHAR_e);
    NoLeadingZero(m);
    assert |Digits(m)| <= 19 by { Pow10Values(); FewDigits(m, 19); }
    IntRead(data, pos, n < 0, m);
  }

  /** An integer whose digits have been located. */
  lemma IntRead(data: Text, pos: nat, negative: bool, m: nat)
    requires pos < |data| && data[pos] == CHAR_i && |Digits(m)| <= 19 && Number(Digits(m)) == m
    requires (negative ==> m > 0 && pos + 1 < |data| && data[pos + 1] == MINUS) && INT64_MIN <= (if negative then -(m as int) else m) <= INT64_MAX
    requires (m > 0 ==> Digits(m)[0] != CHAR_0) && (m == 0 ==> Digits(m) == [CHAR_0])
    requires var d := if negative then pos + 2 else pos + 1;
      var e := d + |Digits(m)|;
      e < |data| && data[e] == CHAR_e && data[d..e] == Digits(m) && DigitEnd(data, d) == e && data[d] == Digits(m)[0]
    ensures var d := if negative then pos + 2 else pos + 1;
      ParseInt(data, pos) == Some((if negative then -(m as int) else m, d + |Digits(m)| + 1))
  {
    hide Digits, DigitEnd, Number;
    assert AllDigits(Digits(m));
    var d := if negative then pos + 2 else pos + 1;
    assert IsDigit(data[d]) && data[d] != MINUS;
  }

  lemma TextAt(data: Text, pos: nat, s: Text, used: nat, limit: nat)
    requires At(data, pos, WriteText(s)) && |data| < TWO_31
    ensures ParseText(data, pos, used, limit) ==
      if Affordable(used, |s|, limit) then Got(s, pos + |WriteText(s)|, used + |s|) else Fail
  {
    hide Digits, DigitEnd, Number;
    var e := pos + |Digits(|s|)|;
    AtSplit(data, pos, Digits(|s|) + [COLON], s);
    DigitsAt(data, pos, |s|, COLON);
    NoLeadingZero(|s|);
    assert |Digits(|s|)| <= 10 by { Pow10Values(); FewDigits(|s|, 10); }
    assert AllDigits(Digits(|s|));
    assert data[pos] == Digits(|s|)[0];
  }

  // ---------------------------------------------------------------- values

  /** A value read at `pos`, if its weight can be paid. */
  predicate ReadsAs<T(==)>(r: Parsed<T>, v: T, pos: nat, used: nat, limit: nat)
  {
    r == if used <= limit then Got(v, pos, used) else Fail
  }

  lemma {:induction false} ProperWrites(v: Value)
    requires Proper(v)
    ensures Write(v).ok
    decreases v, 0
  {
    match v
    case Int(_) =>
    case Str(_) =>
    case List(items) => ProperItemsWrite(items);
    case Dict(entries) => ProperEntriesWrite(entries);
  }

  lemma {:induction false} ProperItemsWrite(items: seq<Value>)
    requires forall i :: 0 <= i < |items| ==> Proper(items[i])
    ensures WriteItems(items).ok
    decreases items, 1
  {
    if items != [] {
      ProperWrites(items[0]);
      ProperItemsWrite(items[1..]);
    }
  }

  lemma {:induction false} ProperEntriesWrite(entries: seq<Entry>)
    requires forall i :: 0 <= i < |entries| ==> Proper(entries[i].value)
    ensures WriteEntries(entries).ok
    decreases entries, 1
  {
    if entries != [] {
      ProperWrites(entries[0].value);
      ProperEntriesWrite(entries[1..]);
    }
  }

  lemma FirstByte(v: Value)
    requires Write(v).ok
    ensures Encode(v) != []
    ensures var c := Encode(v)[0];
      match v
      case Invalid => false
      case Int(_) => c == CHAR_i
      case Str(_) => IsDigit(c)
      case List(_) => c == CHAR_l
      case Dict(_) => c == CHAR_d
  {
    hide Digits;
    if v.Str? { assert AllDigits(Digits(|v.text|)); }
  }

  // One step of each parser and of the writer, so that the inductions below need not unfold them.

  lemma ListStep(data: Text, pos: nat, used: nat, limit: nat)
    requires pos < |data|
    ensures data[pos] == CHAR_l ==>
      var items := ParseItems(data, pos + 1, used, limit, []);
      ParseValue(data, pos, used, limit) ==
        if items.Fail? then Fail else Got(List(items.value), items.pos, items.used)
    ensures data[pos] == CHAR_d ==>
      var entries := ParseEntries(data, pos + 1, used, limit, []);
      ParseValue(data, pos, used, limit) ==
        if entries.Fail? then Fail else Got(Dict(entries.value), entries.pos, entries.used)
  {
    hide ParseItems, ParseEntries, ParseText, ParseInt;
  }

  lemma ScalarStep(data: Text, pos: nat, used: nat, limit: nat)
    requires pos < |data|
    ensures data[pos] == CHAR_i ==>
      var i := ParseInt(data, pos);
      ParseValue(data, pos, used, limit) == if i.None? then Fail else Got(Int(i.value.0), i.value.1, used)
    ensures IsDigit(data[pos]) ==>
      var text := ParseText(data, pos, used, limit);
      ParseValue(data, pos, used, limit) == if text.Fail? then Fail else Got(Str(text.value), text.pos, text.used)
  {
    hide ParseItems, ParseEntries, ParseText, ParseInt;
  }

  lemma ItemsStep(data: Text, pos: nat, used: nat, limit: nat, acc: seq<Value>)
    requires pos < |data|
    ensures data[pos] == CHAR_e ==> ParseItems(data, pos, used, limit, acc) == Got(acc, pos + 1, used)
    ensures data[pos] != CHAR_e ==>
      var v := ParseValue(data, pos, used, limit);
      ParseItems(data, pos, used, limit, acc) ==
        if v.Fail? || !Affordable(v.used, 1, limit) then Fail
        else ParseItems(data, v.pos, v.used + 1, limit, acc + [v.value])
  {
    hide ParseValue;
  }

  lemma EntriesStep(data: Text, pos: nat, used: nat, limit: nat, acc: seq<Entry>)
    requires pos < |data|
    ensures data[pos] == CHAR_e ==> ParseEntries(data, pos, used, limit, acc) == Got(acc, pos + 1, used)
    ensures data[pos] != CHAR_e ==>
      var key := ParseText(data, pos, used, limit);
      ParseEntries(data, pos, used, limit, acc) ==
        if key.Fail? then Fail
        else
          var v := ParseValue(data, key.pos, key.used, limit);
          if v.Fail? || !Affordable(v.used, 1, limit) then Fail
          else ParseEntries(data, v.pos, v.used + 1, limit, Put(acc, key.value, v.value))
  {
    hide ParseValue, ParseText, Put;
  }

  lemma ItemsWritten(items: seq<Value>)
    requires items != [] && forall i :: 0 <= i < |items| ==> Proper(items[i])
    ensures WriteItems(items).bytes == Encode(items[0]) + WriteItems(items[1..]).bytes
    ensures ItemsWeight(items) == Weight(items[0]) + 1 + ItemsWeight(items[1..])
  {
    hide Write, Proper, Weight;
    ProperWrites(items[0]);
  }

  lemma EntriesWritten(entries: seq<Entry>)
    requires entries != [] && forall i :: 0 <= i < |entries| ==> Proper(entries[i].value)
    ensures WriteEntries(entries).bytes
         == WriteText(entries[0].key) + (Encode(entries[0].value) + WriteEntries(entries[1..]).bytes)
    ensures EntriesWeight(entries)
         == |entries[0].key| + Weight(entries[0].value) + 1 + EntriesWeight(entries[1..])
  {
    hide Write, Proper, Weight, WriteText;
    ProperWrites(entries[0].value);
  }

  lemma CompoundWritten(v: Value)
    requires Proper(v)
    ensures v.List? ==> Encode(v) == [CHAR_l] + (WriteItems(v.items).bytes + [CHAR_e]) && Weight(v) == ItemsWeight(v.items)
    ensures v.Dict? ==> Encode(v) == [CHAR_d] + (WriteEntries(v.entries).bytes + [CHAR_e]) && Weight(v) == EntriesWeight(v.entries)
  {
    hide WriteItems, WriteEntries, ItemsWeight, EntriesWeight;
    ProperWrites(v);
  }

  lemma {:induction false} ValueAt(v: Value, data: Text, pos: nat, used: nat, limit: nat)
    requires Proper(v) && At(data, pos, Encode(v)) && |data| < TWO_31 && used <= limit
    ensures ReadsAs(ParseValue(data, pos, used, limit), v, pos + |Encode(v)|, used + Weight(v), limit)
    decreases v, 0
  {
    hide Digits, ParseInt, ParseText, WriteText, Decimal, ParseValue, ParseItems, ParseEntries, WriteItems, WriteEntries,
         ItemsWeight, EntriesWeight;
    ProperWrites(v);
    FirstByte(v);
    assert data[pos] == data[pos..pos + |Encode(v)|][0];
    ListStep(data, pos, used, limit);
    ScalarStep(data, pos, used, limit);
    CompoundWritten(v);
    match v
    case Int(n) => IntAt(data, pos, n);
    case Str(s) => TextAt(data, pos, s, used, limit);
    case List(items) =>
      AtSplit(data, pos, [CHAR_l], WriteItems(items).bytes + [CHAR_e]);
      ItemsAt(items, data, pos + 1, used, limit, []);
      assert [] + items == items;
    case Dict(entries) =>
      AtSplit(data, pos, [CHAR_d], WriteEntries(entries).bytes + [CHAR_e]);
      assert [] + entries == entries;
      EntriesAt(entries, data, pos + 1, used, limit, []);
  }

  lemma {:induction false} ItemsAt(items: seq<Value>, data: Text, pos: nat, used: nat, limit: nat, acc: seq<Value>)
    requires forall i :: 0 <= i < |items| ==> Proper(items[i])
    requires At(data, pos, WriteItems(items).bytes + [CHAR_e]) && |data| < TWO_31 && used <= limit
    ensures ReadsAs(ParseItems(data, pos, used, limit, acc), acc + items,
                    pos + |WriteItems(items).bytes| + 1, used + ItemsWeight(items), limit)
    decreases items, 1
  {
    hide ParseValue, ParseItems, Write, Proper, Weight;
    if items == [] {
      assert WriteItems(items).bytes + [CHAR_e] == [CHAR_e];
      AtByte(data, pos, CHAR_e);
      ItemsStep(data, pos, used, limit, acc);
      assert acc + items == acc;
    } else {
      hide WriteItems, ItemsWeight;
      var first, rest := Encode(items[0]), WriteItems(items[1..]).bytes;
      ItemsWritten(items);
      StartsAnItem(items[0]);
      assert WriteItems(items).bytes + [CHAR_e] == first + (rest + [CHAR_e]);
      AtSplit(data, pos, first, rest + [CHAR_e]);
      assert data[pos] == data[pos..pos + |first|][0];
      ItemsStep(data, pos, used, limit, acc);
      ValueAt(items[0], data, pos, used, limit);
      var paid := used + Weight(items[0]) + 1;
      if paid <= limit {
        ItemsAt(items[1..], data, pos + |first|, paid, limit, acc + [items[0]]);
        assert (acc + [items[0]]) + items[1..] == acc + items;
      }
    }
  }

  lemma StartsAnItem(v: Value)
    requires Proper(v)
    ensures Encode(v) != [] && Encode(v)[0] != CHAR_e
  {
    ProperWrites(v);
    FirstByte(v);
  }

  lemma {:induction false} EntriesAt(entries: seq<Entry>, data: Text, pos: nat, used: nat, limit: nat, acc: seq<Entry>)
    requires forall i :: 0 <= i < |entries| ==> Proper(entries[i].value)
    requires Sorted(acc + entries)
    requires At(data, pos, WriteEntries(entries).bytes + [CHAR_e]) && |data| < TWO_31 && used <= limit
    ensures ReadsAs(ParseEntries(data, pos, used, limit, acc), acc + entries,
                    pos + |WriteEntries(entries).bytes| + 1, used + EntriesWeight(entries), limit)
    decreases entries, 1
  {
    hide At, ParseValue, ParseText, ParseEntries, WriteText, Sorted, Write, Proper, Weight, Put;
    if entries == [] {
      assert WriteEntries(entries).bytes + [CHAR_e] == [CHAR_e];
      AtByte(data, pos, CHAR_e);
      EntriesStep(data, pos, used, limit, acc);
      assert acc + entries == acc;
    } else {
      hide WriteEntries, EntriesWeight;
      var e := entries[0];
      var key, first, rest := WriteText(e.key), Encode(e.value), WriteEntries(entries[1..]).bytes;
      EntriesWritten(entries);
      FirstEntryAt(entries, data, pos);
      EntriesStep(data, pos, used, limit, acc);
      TextAt(data, pos, e.key, used, limit);
      if Affordable(used, |e.key|, limit) {
        ValueAt(e.value, data, pos + |key|, used + |e.key|, limit);
        var paid := used + |e.key| + Weight(e.value) + 1;
        if paid <= limit {
          PutLast(acc, entries);
          assert (acc + [e]) + entries[1..] == acc + entries;
          EntriesAt(entries[1..], data, pos + |key| + |first|, paid, limit, acc + [e]);
        }
      }
    }
  }

  lemma FirstEntryAt(entries: seq<Entry>, data: Text, pos: nat)
    requires entries != [] && forall i :: 0 <= i < |entries| ==> Proper(entries[i].value)
    requires At(data, pos, WriteEntries(entries).bytes + [CHAR_e])
    ensures var key, first := WriteText(entries[0].key), Encode(entries[0].value);
      && pos < |data| && data[pos] != CHAR_e && At(data, pos, key) && At(data, pos + |key|, first)
      && At(data, pos + |key| + |first|, WriteEntries(entries[1..]).bytes + [CHAR_e])
  {
    hide WriteText, Write, WriteEntries, Proper;
    var key, first, rest := WriteText(entries[0].key), Encode(entries[0].value), WriteEntries(entries[1..]).bytes;
    EntriesWritten(entries);
    TextStart(entries[0].key);
    assert WriteEntries(entries).bytes + [CHAR_e] == key + (first + (rest + [CHAR_e]));
    AtSplit(data, pos, key, first + (rest + [CHAR_e]));
    AtSplit(data, pos + |key|, first, rest + [CHAR_e]);
    assert data[pos] == data[pos..pos + |key|][0];
  }

  lemma TextStart(s: Text)
    ensures WriteText(s) != [] && IsDigit(WriteText(s)[0])
  {
    hide Digits;
    assert AllDigits(Digits(|s|));
  }

  /** Keys that come in order are put at the end. */
  lemma {:induction false} PutLast(acc: seq<Entry>, entries: seq<Entry>)
    requires entries != [] && Sorted(acc + entries)
    ensures Put(acc, entries[0].key, entries[0].value) == acc + [entries[0]]
    decreases acc
  {
    hide Less;
    if acc != [] {
      var all := acc + entries;
      assert all[|acc|] == entries[0] && all[0] == acc[0];
      LessIrreflexive(acc[0].key);
      assert acc[1..] + entries == all[1..];
      PutLast(acc[1..], entries);
    }
  }

  lemma {:induction false} LessIrreflexive(a: Text)
    ensures !Less(a, a)
  {
    if a != [] { LessIrreflexive(a[1..]); }
  }

  /** The round trip, for every value and every limit. */
  lemma RoundTrip(v: Value, limit: nat)
    requires Proper(v) && |Encode(v)| < TWO_31
    ensures Decode(Encode(v), limit) == if Weight(v) <= limit then v else Invalid
  {
    hide Encode, ParseValue, Weight;
    var data := Encode(v);
    assert data[0..0 + |data|] == data;
    ValueAt(v, data, 0, 0, limit);
  }

  // ---------------------------------------------------------------- examples

  lemma ShortText(s: string)
    requires |s| < 10
    ensures WriteText(Ascii(s)) == [48 + |s|, 58] + Ascii(s)
  {
  }

  lemma TextExamples()
    ensures WriteText(Ascii("spam")) == Ascii("4:spam") && WriteText(Ascii("eggs")) == Ascii("4:eggs")
    ensures WriteText(Ascii("cow")) == Ascii("3:cow") && WriteText(Ascii("moo")) == Ascii("3:moo")
  {
    hide WriteText;
    ShortText("spam");
    ShortText("eggs");
    ShortText("cow");
    ShortText("moo");
  }

  lemma IntExamples()
    ensures Encode(Int(3)) == Ascii("i3e") && Encode(Int(-3)) == Ascii("i-3e") && Encode(Int(10)) == Ascii("i10e")
  {
    assert Digits(3) == [51] && Digits(10) == [49, 48];
  }

  /** The examples of BEP-3. */
  lemma Bep3Examples()
    ensures Encode(Str(Ascii("spam"))) == Ascii("4:spam")
    ensures Encode(Int(3)) == Ascii("i3e") && Encode(Int(-3)) == Ascii("i-3e") && Encode(Int(10)) == Ascii("i10e")
    ensures Encode(List([Str(Ascii("spam")), Str(Ascii("eggs"))])) == Ascii("l4:spam4:eggse")
    ensures Encode(Dict([Entry(Ascii("cow"), Str(Ascii("moo"))), Entry(Ascii("spam"), Str(Ascii("eggs")))]))
         == Ascii("d3:cow3:moo4:spam4:eggse")
  {
    IntExamples();
    TextExamples();
    hide WriteText, Digits;
    ListExample();
    DictExample();
  }

  lemma ListExample()
    ensures Encode(List([Str(Ascii("spam")), Str(Ascii("eggs"))])) == Ascii("l4:spam4:eggse")
  {
    hide WriteText;
    TextExamples();
    var spam, eggs := Str(Ascii("spam")), Str(Ascii("eggs"));
    assert [spam, eggs][1..] == [eggs] && [eggs][1..] == [];
    assert WriteItems([]) == Written([], true);
    assert WriteItems([eggs]) == Written(Ascii("4:eggs") + [], true);
    assert WriteItems([spam, eggs]) == Written(Ascii("4:spam") + Ascii("4:eggs"), true);
  }

  lemma DictExample()
    ensures Encode(Dict([Entry(Ascii("cow"), Str(Ascii("moo"))), Entry(Ascii("spam"), Str(Ascii("eggs")))]))
         == Ascii("d3:cow3:moo4:spam4:eggse")
  {
    hide WriteText;
    TextExamples();
    var cow, spam := Entry(Ascii("cow"), Str(Ascii("moo"))), Entry(Ascii("spam"), Str(Ascii("eggs")));
    assert WriteEntries([]) == Written([], true) && [cow, spam] + [] == [cow, spam];
    hide WriteEntries;
    EncodedPair(cow, spam, []);
  }

  /** A dictionary is its entries one behind the other, each a key and a value. */
  lemma EncodedPair(a: Entry, b: Entry, rest: seq<Entry>)
    requires (a.value.Int? || a.value.Str?) && (b.value.Int? || b.value.Str?) && WriteEntries(rest).ok
    ensures Encode(Dict([a, b] + rest))
         == [CHAR_d] + WriteText(a.key) + Encode(a.value) + WriteText(b.key) + Encode(b.value)
            + WriteEntries(rest).bytes + [CHAR_e]
  {
    hide WriteText, Decimal;
    var all := [a, b] + rest;
    assert all[1..] == [b] + rest && all[1..][1..] == rest;
    var tail := WriteText(b.key) + Encode(b.value) + WriteEntries(rest).bytes;
    assert WriteEntries(all[1..]) == Written(tail, true);
    assert WriteEntries(all) == Written(WriteText(a.key) + Encode(a.value) + tail, true);
  }

  lemma EncodedLast(e: Entry)
    requires e.value.Int? || e.value.Str?
    ensures WriteEntries([e]) == Written(WriteText(e.key) + Encode(e.value), true)
  {
    hide WriteText, Decimal;
    assert [e][1..] == [] && WriteEntries([]) == Written([], true);
  }
}
