/**
 The language the decoder accepts.  A form is a value the way it was spelled: an integer by its sign and
 digits, a dictionary by its entries in the order they stand.  The decoder takes exactly the spellings of
 acceptable forms that its limit affords, and gives exactly what they mean.
 */
module BencodeForms {
  import opened Bytes
  import opened Bencode
  import opened BencodeRoundTrip
  import opened BencodeNormal

  datatype Form =
    | FormInt(negative: bool, digits: Text)
    | FormText(text: Text)
    | FormList(items: seq<Form>)
    | FormDict(entries: seq<FormEntry>)

  datatype FormEntry = FormEntry(key: Text, value: Form)

  // ---------------------------------------------------------------- spelling, meaning and charge

  function Spell(f: Form): (s: Text)
    ensures s != []
    decreases f, 0
  {
    match f
    case FormInt(negative, digits) => [CHAR_i] + (if negative then [MINUS] else []) + digits + [CHAR_e]
    case FormText(text) => WriteText(text)
    case FormList(items) => [CHAR_l] + (SpellItems(items) + [CHAR_e])
    case FormDict(entries) => [CHAR_d] + (SpellEntries(entries) + [CHAR_e])
  }

  function SpellItems(items: seq<Form>): Text
    decreases items, 1
  {
    if items == [] then [] else Spell(items[0]) + SpellItems(items[1..])
  }

  function SpellEntries(entries: seq<FormEntry>): Text
    decreases entries, 1
  {
    if entries == [] then []
    else WriteText(entries[0].key) + (Spell(entries[0].value) + SpellEntries(entries[1..]))
  }

  /** Digits without a leading zero, at most twenty characters with the sign. */
  predicate GoodDigits(negative: bool, digits: Text)
  {
    && digits != [] && AllDigits(digits) && (digits[0] == CHAR_0 ==> |digits| == 1)
    && |digits| + (if negative then 1 else 0) <= 20
  }

  predicate Acceptable(f: Form)
    decreases f, 0
  {
    match f
    case FormInt(negative, digits) => GoodDigits(negative, digits)
    case FormText(text) => |Digits(|text|)| <= 10
    case FormList(items) => AcceptableItems(items)
    case FormDict(entries) => AcceptableEntries(entries)
  }

  predicate AcceptableItems(items: seq<Form>)
    decreases items, 1
  {
    items == [] || (Acceptable(items[0]) && AcceptableItems(items[1..]))
  }

  predicate AcceptableEntries(entries: seq<FormEntry>)
    decreases entries, 1
  {
    entries == [] ||
    (|Digits(|entries[0].key|)| <= 10 && Acceptable(entries[0].value) && AcceptableEntries(entries[1..]))
  }

  /** Integers are cut off at 64 bits; a later entry of a dictionary replaces an earlier one with its key. */
  function Meaning(f: Form): Value
    requires Acceptable(f)
    decreases f, 0
  {
    match f
    case FormInt(negative, digits) => Int(Clamp(Signed(negative, Number(digits))))
    case FormText(text) => Str(text)
    case FormList(items) => List(ItemsMean(items))
    case FormDict(entries) => Dict(EntriesMean(entries, []))
  }

  function ItemsMean(items: seq<Form>): seq<Value>
    requires AcceptableItems(items)
    decreases items, 1
  {
    if items == [] then [] else [Meaning(items[0])] + ItemsMean(items[1..])
  }

  function EntriesMean(entries: seq<FormEntry>, before: seq<Entry>): seq<Entry>
    requires AcceptableEntries(entries)
    decreases entries, 1
  {
    if entries == [] then before
    else EntriesMean(entries[1..], Put(before, entries[0].key, Meaning(entries[0].value)))
  }

  /** All text lengths, replaced entries included, and one for every item and entry. */
  function Charge(f: Form): nat
    decreases f, 0
  {
    match f
    case FormInt(_, _) => 0
    case FormText(text) => |text|
    case FormList(items) => ItemsCharge(items)
    case FormDict(entries) => EntriesCharge(entries)
  }

  function ItemsCharge(items: seq<Form>): nat
    decreases items, 1
  {
    if items == [] then 0 else Charge(items[0]) + 1 + ItemsCharge(items[1..])
  }

  function EntriesCharge(entries: seq<FormEntry>): nat
    decreases entries, 1
  {
    if entries == [] then 0 else |entries[0].key| + Charge(entries[0].value) + 1 + EntriesCharge(entries[1..])
  }

  // ---------------------------------------------------------------- every affordable spelling is accepted

  lemma RunNumber(data: Text, d: nat, digits: Text, c: byte)
    requires digits != [] && AllDigits(digits) && !IsDigit(c) && At(data, d, digits + [c])
    ensures var e := d + |digits|;
      DigitEnd(data, d) == e < |data| && data[d..e] == digits && data[e] == c && data[d] == digits[0]
  {
    hide DigitEnd;
    AtSplit(data, d, digits, [c]);
    AtByte(data, d + |digits|, c);
    DigitRun(data, d, d + |digits|);
    assert data[d] == data[d..d + |digits|][0];
  }

  lemma IntTaken(negative: bool, digits: Text, data: Text, pos: nat)
    requires GoodDigits(negative, digits) && At(data, pos, Spell(FormInt(negative, digits)))
    ensures pos < |data| && data[pos] == CHAR_i
    ensures ParseInt(data, pos)
         == Some((Clamp(Signed(negative, Number(digits))), pos + |Spell(FormInt(negative, digits))|))
  {
    hide DigitEnd, Number, At;
    var sign := if negative then [MINUS] else [];
    assert Spell(FormInt(negative, digits)) == [CHAR_i] + (sign + (digits + [CHAR_e]));
    AtSplit(data, pos, [CHAR_i], sign + (digits + [CHAR_e]));
    AtByte(data, pos, CHAR_i);
    AtSplit(data, pos + 1, sign, digits + [CHAR_e]);
    if negative { AtByte(data, pos + 1, MINUS); }
    RunNumber(data, pos + 1 + |sign|, digits, CHAR_e);
    if digits[0] == CHAR_0 { ZeroIsZero(digits); }
  }

  lemma TextTaken(s: Text, data: Text, pos: nat, used: nat, limit: nat)
    requires At(data, pos, WriteText(s)) && |Digits(|s|)| <= 10
    ensures pos < |data| && IsDigit(data[pos])
    ensures ParseText(data, pos, used, limit) ==
      if Affordable(used, |s|, limit) then Got(s, pos + |WriteText(s)|, used + |s|) else Fail
  {
    hide Digits, DigitEnd, Number;
    AtSplit(data, pos, Digits(|s|) + [COLON], s);
    DigitsAt(data, pos, |s|, COLON);
    NoLeadingZero(|s|);
    assert AllDigits(Digits(|s|));
  }

  lemma {:induction false} FormTaken(f: Form, data: Text, pos: nat, used: nat, limit: nat)
    requires Acceptable(f) && At(data, pos, Spell(f)) && used <= limit
    ensures pos < |data| && data[pos] != CHAR_e
    ensures ReadsAs(ParseValue(data, pos, used, limit), Meaning(f), pos + |Spell(f)|, used + Charge(f), limit)
    decreases f, 0
  {
    hide Digits, DigitEnd, Number, ParseInt, ParseText, WriteText, ParseValue, ParseItems, ParseEntries,
         SpellItems, SpellEntries, ItemsCharge, EntriesCharge, ItemsMean, EntriesMean, GoodDigits,
         AcceptableItems, AcceptableEntries;
    match f
    case FormInt(negative, digits) =>
      IntTaken(negative, digits, data, pos);
      ScalarStep(data, pos, used, limit);
    case FormText(text) =>
      TextTaken(text, data, pos, used, limit);
      ScalarStep(data, pos, used, limit);
    case FormList(items) =>
      AtSplit(data, pos, [CHAR_l], SpellItems(items) + [CHAR_e]);
      AtByte(data, pos, CHAR_l);
      ListStep(data, pos, used, limit);
      ItemsTaken(items, data, pos + 1, used, limit, []);
      assert [] + ItemsMean(items) == ItemsMean(items);
    case FormDict(entries) =>
      AtSplit(data, pos, [CHAR_d], SpellEntries(entries) + [CHAR_e]);
      AtByte(data, pos, CHAR_d);
      ListStep(data, pos, used, limit);
      EntriesTaken(entries, data, pos + 1, used, limit, []);
  }

  lemma {:induction false} ItemsTaken(items: seq<Form>, data: Text, pos: nat, used: nat, limit: nat, before: seq<Value>)
    requires AcceptableItems(items) && At(data, pos, SpellItems(items) + [CHAR_e]) && used <= limit
    ensures ReadsAs(ParseItems(data, pos, used, limit, before), before + ItemsMean(items),
                    pos + |SpellItems(items)| + 1, used + ItemsCharge(items), limit)
    decreases items, 1
  {
    hide At, ParseValue, ParseItems, Spell, Acceptable, Meaning, Charge;
    if items == [] {
      assert SpellItems(items) + [CHAR_e] == [CHAR_e];
      AtByte(data, pos, CHAR_e);
      ItemsStep(data, pos, used, limit, before);
      assert before + ItemsMean(items) == before;
    } else {
      var first, rest := Spell(items[0]), SpellItems(items[1..]);
      assert SpellItems(items) + [CHAR_e] == first + (rest + [CHAR_e]);
      AtSplit(data, pos, first, rest + [CHAR_e]);
      FormTaken(items[0], data, pos, used, limit);
      ItemsStep(data, pos, used, limit, before);
      var paid := used + Charge(items[0]) + 1;
      if paid <= limit {
        ItemsTaken(items[1..], data, pos + |first|, paid, limit, before + [Meaning(items[0])]);
        assert (before + [Meaning(items[0])]) + ItemsMean(items[1..]) == before + ItemsMean(items);
      }
    }
  }

  lemma {:induction false} EntriesTaken(entries: seq<FormEntry>, data: Text, pos: nat, used: nat, limit: nat, before: seq<Entry>)
    requires AcceptableEntries(entries) && At(data, pos, SpellEntries(entries) + [CHAR_e]) && used <= limit
    ensures ReadsAs(ParseEntries(data, pos, used, limit, before), EntriesMean(entries, before),
                    pos + |SpellEntries(entries)| + 1, used + EntriesCharge(entries), limit)
    decreases entries, 1
  {
    hide At, ParseValue, ParseText, ParseEntries, WriteText, Spell, Acceptable, Meaning, Charge, Put, Digits;
    if entries == [] {
      assert SpellEntries(entries) + [CHAR_e] == [CHAR_e];
      AtByte(data, pos, CHAR_e);
      EntriesStep(data, pos, used, limit, before);
    } else {
      var e := entries[0];
      var key, first, rest := WriteText(e.key), Spell(e.value), SpellEntries(entries[1..]);
      assert SpellEntries(entries) + [CHAR_e] == key + (first + (rest + [CHAR_e]));
      AtSplit(data, pos, key, first + (rest + [CHAR_e]));
      AtSplit(data, pos + |key|, first, rest + [CHAR_e]);
      TextTaken(e.key, data, pos, used, limit);
      EntriesStep(data, pos, used, limit, before);
      if Affordable(used, |e.key|, limit) {
        FormTaken(e.value, data, pos + |key|, used + |e.key|, limit);
        var paid := used + |e.key| + Charge(e.value) + 1;
        if paid <= limit {
          EntriesTaken(entries[1..], data, pos + |key| + |first|, paid, limit, Put(before, e.key, Meaning(e.value)));
        }
      }
    }
  }

  // ---------------------------------------------------------------- nothing else is

  /** What was read from `pos` was the spelling of this form. */
  ghost predicate WasSpelled(f: Form, data: Text, pos: nat, used: nat, limit: nat)
  {
    var r := ParseValue(data, pos, used, limit);
    && r.Got? && Acceptable(f) && data[pos..r.pos] == Spell(f) && r.value == Meaning(f)
    && r.used == used + Charge(f) <= limit
  }

  lemma IntForm(data: Text, pos: nat) returns (negative: bool, digits: Text)
    requires ParseInt(data, pos).Some?
    ensures GoodDigits(negative, digits)
    ensures var (n, e) := ParseInt(data, pos).value;
      data[pos..e] == Spell(FormInt(negative, digits)) && n == Clamp(Signed(negative, Number(digits)))
  {
    hide Number, DigitEnd, ParseInt;
    IntRunIs(data, pos);
    IntRunShort(data, pos);
    var (n, e) := ParseInt(data, pos).value;
    negative := data[pos + 1] == MINUS;
    var d := if negative then pos + 2 else pos + 1;
    RunNotEmpty(data, d);
    digits := data[d..e - 1];
    assert digits[0] == data[d];
    var sign := if negative then [MINUS] else [];
    assert data[pos..e] == [CHAR_i] + sign + digits + [CHAR_e];
  }

  lemma IntRunShort(data: Text, pos: nat)
    requires ParseInt(data, pos).Some?
    ensures ParseInt(data, pos).value.1 - pos <= 22
  {
    hide Number, DigitEnd;
  }

  lemma TextLengthShort(data: Text, pos: nat, used: nat, limit: nat)
    requires ParseText(data, pos, used, limit).Got?
    ensures |Digits(|ParseText(data, pos, used, limit).value|)| <= 10
  {
    hide Digits, Number, DigitEnd;
    var e := DigitEnd(data, pos);
    RunNotEmpty(data, pos);
    assert data[pos..e][0] == data[pos];
    DigitsOfNumber(data[pos..e]);
  }

  lemma {:induction false} FormOf(data: Text, pos: nat, used: nat, limit: nat) returns (f: Form)
    requires ParseValue(data, pos, used, limit).Got? && used <= limit
    ensures WasSpelled(f, data, pos, used, limit)
    decreases |data| - pos, 0
  {
    hide Digits, Number, ParseInt, ParseText, ParseValue, ParseItems, ParseEntries, WriteText, GoodDigits,
         SpellItems, SpellEntries, ItemsCharge, EntriesCharge, ItemsMean, EntriesMean, AcceptableItems, AcceptableEntries;
    ValueRange(data, pos, used, limit);
    ScalarStep(data, pos, used, limit);
    ListStep(data, pos, used, limit);
    if data[pos] == CHAR_i {
      var negative, digits := IntForm(data, pos);
      f := FormInt(negative, digits);
    } else if data[pos] == CHAR_l {
      var items := FormsOf(data, pos + 1, used, limit, []);
      f := FormList(items);
      var e := ParseValue(data, pos, used, limit).pos;
      assert data[pos..e] == [data[pos]] + data[pos + 1..e];
      assert [] + ItemsMean(items) == ItemsMean(items);
    } else if data[pos] == CHAR_d {
      var entries := EntryFormsOf(data, pos + 1, used, limit, []);
      f := FormDict(entries);
      var e := ParseValue(data, pos, used, limit).pos;
      assert data[pos..e] == [data[pos]] + data[pos + 1..e];
    } else {
      TextIsCanonical(data, pos, used, limit);
      TextLengthShort(data, pos, used, limit);
      f := FormText(ParseText(data, pos, used, limit).value);
    }
  }

  lemma {:induction false} FormsOf(data: Text, pos: nat, used: nat, limit: nat, before: seq<Value>) returns (items: seq<Form>)
    requires ParseItems(data, pos, used, limit, before).Got? && used <= limit
    ensures AcceptableItems(items)
    ensures var r := ParseItems(data, pos, used, limit, before);
      && data[pos..r.pos] == SpellItems(items) + [CHAR_e] && r.value == before + ItemsMean(items)
      && r.used == used + ItemsCharge(items) <= limit
    decreases |data| - pos, 1
  {
    hide ParseValue, ParseItems, Acceptable, Spell, Charge, Meaning;
    ItemsRange(data, pos, used, limit, before);
    ItemsStep(data, pos, used, limit, before);
    var r := ParseItems(data, pos, used, limit, before);
    if data[pos] == CHAR_e {
      items := [];
      assert before + ItemsMean(items) == before && data[pos..r.pos] == [CHAR_e];
    } else {
      var v := ParseValue(data, pos, used, limit);
      var first := FormOf(data, pos, used, limit);
      var rest := FormsOf(data, v.pos, v.used + 1, limit, before + [v.value]);
      items := [first] + rest;
      assert items[1..] == rest;
      assert data[pos..r.pos] == data[pos..v.pos] + data[v.pos..r.pos];
      assert (before + [v.value]) + ItemsMean(rest) == before + ItemsMean(items);
    }
  }

  lemma {:induction false} EntryFormsOf(data: Text, pos: nat, used: nat, limit: nat, before: seq<Entry>)
    returns (entries: seq<FormEntry>)
    requires ParseEntries(data, pos, used, limit, before).Got? && used <= limit
    ensures AcceptableEntries(entries)
    ensures var r := ParseEntries(data, pos, used, limit, before);
      && data[pos..r.pos] == SpellEntries(entries) + [CHAR_e] && r.value == EntriesMean(entries, before)
      && r.used == used + EntriesCharge(entries) <= limit
    decreases |data| - pos, 1
  {
    hide ParseValue, ParseText, ParseEntries, Acceptable, Spell, Charge, Meaning, Put, WriteText, Digits;
    EntriesRange(data, pos, used, limit, before);
    EntriesStep(data, pos, used, limit, before);
    var r := ParseEntries(data, pos, used, limit, before);
    if data[pos] == CHAR_e {
      entries := [];
      assert data[pos..r.pos] == [CHAR_e];
    } else {
      var key := ParseText(data, pos, used, limit);
      TextIsCanonical(data, pos, used, limit);
      TextLengthShort(data, pos, used, limit);
      var v := ParseValue(data, key.pos, key.used, limit);
      var value := FormOf(data, key.pos, key.used, limit);
      var rest := EntryFormsOf(data, v.pos, v.used + 1, limit, Put(before, key.value, v.value));
      entries := [FormEntry(key.value, value)] + rest;
      assert entries[1..] == rest;
      assert data[pos..r.pos] == data[pos..key.pos] + (data[key.pos..v.pos] + data[v.pos..r.pos]);
    }
  }

  // ---------------------------------------------------------------- the whole input

  /** An acceptable form is decoded to what it means, exactly when its charge is within the limit. */
  lemma SpelledIsDecoded(f: Form, limit: nat)
    requires Acceptable(f)
    ensures Decode(Spell(f), limit) == if Charge(f) <= limit then Meaning(f) else Invalid
  {
    hide ParseValue, Acceptable, Spell, Charge, Meaning;
    assert Spell(f)[0..0 + |Spell(f)|] == Spell(f);
    FormTaken(f, Spell(f), 0, 0, limit);
  }

  /** The decoder accepts an input exactly when it spells an acceptable form, and gives its meaning. */
  lemma LanguageExactly(data: Text, limit: nat, v: Value)
    requires v != Invalid
    ensures Decode(data, limit) == v <==>
      exists f :: Acceptable(f) && Spell(f) == data && Charge(f) <= limit && Meaning(f) == v
  {
    hide ParseValue, Acceptable, Spell, Charge, Meaning;
    if Decode(data, limit) == v {
      var f := FormOf(data, 0, 0, limit);
      assert data[0..|data|] == data;
      assert Acceptable(f) && Spell(f) == data && Charge(f) <= limit && Meaning(f) == v;
    }
    forall f | Acceptable(f) && Spell(f) == data && Charge(f) <= limit ensures Decode(data, limit) == Meaning(f) {
      SpelledIsDecoded(f, limit);
    }
  }

  // ---------------------------------------------------------------- what cannot be written whole

  /** No Invalid anywhere inside. */
  predicate Whole(v: Value)
    decreases v
  {
    match v
    case Invalid => false
    case Int(_) => true
    case Str(_) => true
    case List(items) => forall i :: 0 <= i < |items| ==> Whole(items[i])
    case Dict(entries) => forall i :: 0 <= i < |entries| ==> Whole(entries[i].value)
  }

  /** A value is written to its end exactly when nothing inside it is Invalid. */
  lemma {:induction false} WrittenExactly(v: Value)
    ensures Write(v).ok <==> Whole(v)
    decreases v, 0
  {
    match v
    case Invalid =>
    case Int(_) =>
    case Str(_) =>
    case List(items) => ItemsWrittenExactly(items);
    case Dict(entries) => EntriesWrittenExactly(entries);
  }

  lemma {:induction false} ItemsWrittenExactly(items: seq<Value>)
    ensures WriteItems(items).ok <==> forall i :: 0 <= i < |items| ==> Whole(items[i])
    decreases items, 1
  {
    hide Whole;
    if items != [] {
      WrittenExactly(items[0]);
      ItemsWrittenExactly(items[1..]);
      assert forall i :: 0 < i < |items| ==> items[i] == items[1..][i - 1];
      assert forall i :: 0 <= i < |items[1..]| ==> items[1..][i] == items[i + 1];
    }
  }

  lemma {:induction false} EntriesWrittenExactly(entries: seq<Entry>)
    ensures WriteEntries(entries).ok <==> forall i :: 0 <= i < |entries| ==> Whole(entries[i].value)
    decreases entries, 1
  {
    hide Whole;
    if entries != [] {
      WrittenExactly(entries[0].value);
      EntriesWrittenExactly(entries[1..]);
      assert forall i :: 0 < i < |entries| ==> entries[i] == entries[1..][i - 1];
      assert forall i :: 0 <= i < |entries[1..]| ==> entries[1..][i] == entries[i + 1];
    }
  }

  /** At an Invalid item the writing stops: the output ends behind the items before it. */
  lemma {:induction false} ItemsStop(items: seq<Value>, k: nat)
    requires k < |items| && items[k] == Invalid && forall i :: 0 <= i < k ==> Whole(items[i])
    ensures WriteItems(items) == Written(WriteItems(items[..k]).bytes, false)
    decreases k
  {
    hide Whole;
    if k > 0 {
      WrittenExactly(items[0]);
      ItemsStop(items[1..], k - 1);
      assert items[1..][..k - 1] == items[..k][1..];
    }
  }

  /** At an Invalid entry the output ends behind its key. */
  lemma {:induction false} EntriesStop(entries: seq<Entry>, k: nat)
    requires k < |entries| && entries[k].value == Invalid && forall i :: 0 <= i < k ==> Whole(entries[i].value)
    ensures WriteEntries(entries) == Written(WriteEntries(entries[..k]).bytes + WriteText(entries[k].key), false)
    decreases k
  {
    hide Whole, WriteText;
    if k > 0 {
      WrittenExactly(entries[0].value);
      EntriesStop(entries[1..], k - 1);
      assert entries[1..][..k - 1] == entries[..k][1..];
    }
  }
}
