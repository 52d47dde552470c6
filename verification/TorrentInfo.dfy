/** Cutting the raw "info" dictionary out of a torrent file, against what the decoder finds under that key. */
module TorrentInfo {
  import opened Bytes
  import opened Bencode
  import opened BencodeRoundTrip
  import opened BencodeNormal
  import opened BencodeExcerpt
  import BencodeCanonical
  import opened BencodeSkip
  import opened BencodeScan

  const INFO: Text := [105, 110, 102, 111]

  /** The key as it stands in a torrent file. */
  lemma InfoKey()
    ensures WriteText(INFO) == Ascii("4:info")
  {
    assert INFO == Ascii("info");
    ShortText("info");
  }

  /** What was cut out, once the loop has ended. */
  datatype Extracted = Running | Cut(bytes: Text)

  /** What follows the first colon. */
  function KeyText(key: Text): Text
  {
    var colon := Find(key, COLON, 0);
    if colon < |key| then key[colon + 1..] else []
  }

  /** `substr(from, to - from)`: the count of a range that runs backwards wraps, and takes the rest. */
  function Range(data: Text, from: nat, to: nat): Text
    requires from <= |data| && to <= |data|
  {
    if from <= to then data[from..to] else data[from..]
  }

  function ExtractFrom(data: Text, pos: nat, fuel: nat): Extracted
    decreases fuel
  {
    if fuel == 0 then Running
    else if pos >= |data| || data[pos] == CHAR_e then Cut([])
    else
      var key := ScanValue(data, pos, fuel - 1);
      if !key.End? then Stopped(key)
      else
        var value := ScanValue(data, key.pos, fuel - 1);
        if !value.End? then Stopped(value)
        else if KeyText(Range(data, pos, key.pos)) == INFO then Cut(Range(data, key.pos, value.pos))
        else ExtractFrom(data, value.pos, fuel - 1)
  }

  function Stopped(r: Scan): Extracted { if r == Unfinished then Running else Cut([]) }

  /** `btExtractInfoDict` on whole torrent bytes. */
  function ExtractInfo(data: Text, fuel: nat): Extracted
  {
    if data == [] || data[0] != CHAR_d then Cut([]) else ExtractFrom(data, 1, fuel)
  }

  method ExtractInfoDict(data: Text, fuel: nat) returns (info: Extracted)
    ensures info == ExtractInfo(data, fuel)
  {
    hide ScanValue, Find, INFO, Range;
    if data == [] || data[0] != CHAR_d {
      return Cut([]);
    }
    var pos: nat, left: nat := 1, fuel;
    while left > 0 && pos < |data| && data[pos] != CHAR_e
      invariant left <= fuel && ExtractFrom(data, 1, fuel) == ExtractFrom(data, pos, left)
      decreases left
    {
      left := left - 1;
      var r := SkipBencodeValue(data, pos, left);
      if !r.End? {
        return Stopped(r);
      }
      var key := Range(data, pos, r.pos);
      var keyText: Text := [];
      var colon := FindByte(key, COLON, 0);
      if colon < |key| {
        keyText := key[colon + 1..];
      }
      var valueStart := r.pos;
      r := SkipBencodeValue(data, valueStart, left);
      if !r.End? {
        return Stopped(r);
      }
      if keyText == INFO {
        return Cut(Range(data, valueStart, r.pos));
      }
      pos := r.pos;
    }
    return if left == 0 then Running else Cut([]);
  }

  /** The range is what a substring with a 64-bit count takes: the count wraps, and stops at the end. */
  lemma RangeIsSubstring(data: Text, from: nat, to: nat)
    requires from <= |data| < TWO_64 && to <= |data|
    ensures var count := (to - from) % TWO_64; Range(data, from, to) == data[from..from + Min(count, |data| - from)]
  {
  }

  /** What was cut out, or that there is nothing, does not depend on the number of steps allowed. */
  lemma {:induction false} MoreExtracted(data: Text, pos: nat, fuel: nat, more: nat)
    requires fuel <= more && ExtractFrom(data, pos, fuel) != Running
    ensures ExtractFrom(data, pos, more) == ExtractFrom(data, pos, fuel)
    decreases fuel
  {
    hide ScanValue, KeyText, Range, INFO;
    if pos < |data| && data[pos] != CHAR_e {
      var key := ScanValue(data, pos, fuel - 1);
      MoreFuel(data, pos, fuel - 1, more - 1);
      if key.End? {
        var value := ScanValue(data, key.pos, fuel - 1);
        MoreFuel(data, key.pos, fuel - 1, more - 1);
        if value.End? && KeyText(Range(data, pos, key.pos)) != INFO {
          MoreExtracted(data, value.pos, fuel - 1, more - 1);
        }
      }
    }
  }

  /** A torrent whose first key or value the scan refuses has nothing cut out. */
  lemma RefusedCutsNothing(data: Text, fuel: nat)
    requires |data| > 1 && data[0] == CHAR_d && data[1] != CHAR_e
    requires var key := ScanValue(data, 1, fuel); key == Refused || (key.End? && ScanValue(data, key.pos, fuel) == Refused)
    ensures ExtractInfo(data, fuel + 1) == Cut([])
  {
    hide ScanValue, KeyText, Range, INFO;
    assert ExtractInfo(data, fuel + 1) == ExtractFrom(data, 1, fuel + 1);
  }

  /** The value stored under a key. */
  function Lookup(entries: seq<Entry>, key: Text): Option<Value>
  {
    if entries == [] then None
    else if entries[0].key == key then Some(entries[0].value)
    else Lookup(entries[1..], key)
  }

  // ---------------------------------------------------------------- the members as they stand in the bytes

  /** A key, the range of its value's bytes, and that value. */
  datatype Member = Member(key: Text, from: nat, to: nat, value: Value)

  /** The members the decoder reads from `pos` on, repeated keys and all. */
  function Members(data: Text, pos: nat, used: nat, limit: nat): seq<Member>
    decreases |data| - pos
  {
    if pos >= |data| || data[pos] == CHAR_e then []
    else
      var key := ParseText(data, pos, used, limit);
      if key.Fail? then []
      else
        var v := ParseValue(data, key.pos, key.used, limit);
        if v.Fail? || !Affordable(v.used, 1, limit) then []
        else [Member(key.value, key.pos, v.pos, v.value)] + Members(data, v.pos, v.used + 1, limit)
  }

  function First(ms: seq<Member>, key: Text): (r: Option<Member>)
    ensures r.Some? ==> r.value in ms && r.value.key == key
  {
    if ms == [] then None else if ms[0].key == key then Some(ms[0]) else First(ms[1..], key)
  }

  function Last(ms: seq<Member>, key: Text): (r: Option<Member>)
    ensures r.Some? ==> r.value in ms && r.value.key == key
  {
    if ms == [] then None
    else
      var later := Last(ms[1..], key);
      if later.Some? then later else if ms[0].key == key then Some(ms[0]) else None
  }

  /** One step of the member list. */
  lemma MembersStep(data: Text, pos: nat, used: nat, limit: nat, entries: seq<Entry>)
    requires ParseEntries(data, pos, used, limit, entries).Got? && used <= limit
    ensures pos < |data|
    ensures data[pos] == CHAR_e ==> Members(data, pos, used, limit) == []
    ensures data[pos] != CHAR_e ==>
      var key := ParseText(data, pos, used, limit);
      key.Got? &&
      var v := ParseValue(data, key.pos, key.used, limit);
      && v.Got? && Affordable(v.used, 1, limit) && key.used <= limit
      && ParseEntries(data, pos, used, limit, entries)
      == ParseEntries(data, v.pos, v.used + 1, limit, Put(entries, key.value, v.value))
      && Members(data, pos, used, limit)
      == [Member(key.value, key.pos, v.pos, v.value)] + Members(data, v.pos, v.used + 1, limit)
  {
    hide ParseValue, Put;
    EntriesRange(data, pos, used, limit, entries);
  }

  lemma {:induction false} LookupPut(entries: seq<Entry>, key: Text, value: Value, k: Text)
    ensures Lookup(Put(entries, key, value), k) == if k == key then Some(value) else Lookup(entries, k)
  {
    hide Less;
    var put := Put(entries, key, value);
    if entries != [] {
      assert put[1..] == entries[1..] || put[1..] == entries || put[1..] == Put(entries[1..], key, value);
      LookupPut(entries[1..], key, value, k);
    } else {
      assert put[1..] == [];
    }
  }

  /** The decoder keeps the last member of a key. */
  lemma {:induction false} LastIsKept(data: Text, pos: nat, used: nat, limit: nat, entries: seq<Entry>, k: Text)
    requires ParseEntries(data, pos, used, limit, entries).Got? && used <= limit
    ensures var last := Last(Members(data, pos, used, limit), k);
      Lookup(ParseEntries(data, pos, used, limit, entries).value, k)
      == if last.Some? then Some(last.value.value) else Lookup(entries, k)
    decreases |data| - pos
  {
    hide ParseEntries, ParseText, ParseValue, Members, Put, Lookup;
    MembersStep(data, pos, used, limit, entries);
    if data[pos] == CHAR_e {
      EntriesStep(data, pos, used, limit, entries);
    } else {
      var key := ParseText(data, pos, used, limit);
      var v := ParseValue(data, key.pos, key.used, limit);
      LastIsKept(data, v.pos, v.used + 1, limit, Put(entries, key.value, v.value), k);
      LookupPut(entries, key.value, v.value, k);
      var ms := Members(data, pos, used, limit);
      assert ms[1..] == Members(data, v.pos, v.used + 1, limit);
    }
  }

  lemma KeyTextOfText(s: Text)
    ensures KeyText(WriteText(s)) == s
  {
    hide Digits, Find;
    var n := |Digits(|s|)|;
    assert AllDigits(Digits(|s|));
    assert forall j :: 0 <= j < n ==> WriteText(s)[j] == Digits(|s|)[j];
    assert WriteText(s)[n] == COLON;
    FindFirst(WriteText(s), COLON, 0, n);
  }

  /** A key is scanned whole, and its text is what the decoder reads. */
  lemma KeyScanned(data: Text, pos: nat, used: nat, limit: nat, fuel: nat)
    requires ParseText(data, pos, used, limit).Got? && |data| < TWO_31 && Enough(data, pos, fuel)
    ensures var r := ParseText(data, pos, used, limit);
      ScanValue(data, pos, fuel) == End(r.pos) && KeyText(Range(data, pos, r.pos)) == r.value
  {
    hide SkipValue, ScanValue, WriteText, KeyText;
    TextAgrees(data, pos, used, limit);
    ScanMeetsSkip(data, pos, fuel);
    TextIsCanonical(data, pos, used, limit);
    KeyTextOfText(ParseText(data, pos, used, limit).value);
  }

  /** The scanner cuts out the first member of the key. */
  lemma {:induction false} FirstIsCut(data: Text, pos: nat, used: nat, limit: nat, entries: seq<Entry>, fuel: nat)
    requires ParseEntries(data, pos, used, limit, entries).Got? && used <= limit
    requires |data| < TWO_31 && fuel + 2 * pos > 2 * |data| + 1
    ensures var first := First(Members(data, pos, used, limit), INFO);
      && (first.Some? ==> first.value.from <= first.value.to <= |data|)
      && ExtractFrom(data, pos, fuel)
      == if first.Some? then Cut(data[first.value.from..first.value.to]) else Cut([])
    decreases |data| - pos
  {
    hide ParseEntries, ParseText, ParseValue, Members, Put, ScanValue, KeyText, INFO;
    MembersStep(data, pos, used, limit, entries);
    if data[pos] != CHAR_e {
      var key := ParseText(data, pos, used, limit);
      var v := ParseValue(data, key.pos, key.used, limit);
      KeyScanned(data, pos, used, limit, fuel - 1);
      ScanAgrees(data, key.pos, key.used, limit, fuel - 1);
      FirstIsCut(data, v.pos, v.used + 1, limit, Put(entries, key.value, v.value), fuel - 1);
      var ms := Members(data, pos, used, limit);
      assert ms[1..] == Members(data, v.pos, v.used + 1, limit);
    }
  }

  /** Every member's bytes alone decode to its value. */
  lemma {:induction false} MembersDecode(data: Text, pos: nat, used: nat, limit: nat, entries: seq<Entry>, m: Member)
    requires ParseEntries(data, pos, used, limit, entries).Got? && used <= limit
    requires m in Members(data, pos, used, limit)
    ensures m.from <= m.to <= |data| && Decode(data[m.from..m.to], limit) == m.value
    decreases |data| - pos
  {
    hide ParseEntries, ParseText, ParseValue, Members, Put, Decode;
    MembersStep(data, pos, used, limit, entries);
    if data[pos] != CHAR_e {
      var key := ParseText(data, pos, used, limit);
      var v := ParseValue(data, key.pos, key.used, limit);
      ExcerptDecodes(data, key.pos, key.used, limit);
      if m != Member(key.value, key.pos, v.pos, v.value) {
        MembersDecode(data, v.pos, v.used + 1, limit, Put(entries, key.value, v.value), m);
      }
    }
  }

  lemma {:induction false} FirstAndLast(ms: seq<Member>, key: Text)
    ensures First(ms, key).Some? <==> Last(ms, key).Some?
    ensures |Under(ms, key)| <= 1 ==> First(ms, key) == Last(ms, key)
    ensures First(ms, key).Some? <==> Under(ms, key) != []
  {
    if ms != [] { FirstAndLast(ms[1..], key); }
  }

  /** The members with this key. */
  function Under(ms: seq<Member>, key: Text): seq<Member>
  {
    if ms == [] then []
    else if ms[0].key == key then [ms[0]] + Under(ms[1..], key)
    else Under(ms[1..], key)
  }

  /** A decoded dictionary was read as entries from its second byte on. */
  lemma DictRead(data: Text, limit: nat)
    requires Decode(data, limit).Dict?
    ensures data != [] && data[0] == CHAR_d
    ensures ParseEntries(data, 1, 0, limit, []).Got?
    ensures Decode(data, limit).entries == ParseEntries(data, 1, 0, limit, []).value
  {
    hide ParseEntries, ParseItems, ParseText, ParseInt;
  }

  /**
   On every torrent the decoder accepts, the bytes cut out are those of the first "info" member and the decoder's
   info dictionary is the value of the last. The bytes decode to that dictionary exactly if the two members have the
   same value; one "info" key is enough for that.
   */
  lemma InfoExactly(data: Text, limit: nat, fuel: nat)
    requires Decode(data, limit).Dict? && |data| < TWO_31 && fuel >= 2 * |data|
    ensures var ms := Members(data, 1, 0, limit);
      var first, last := First(ms, INFO), Last(ms, INFO);
      var info := Lookup(Decode(data, limit).entries, INFO);
      && (info.Some? <==> first.Some?) && (info.Some? <==> last.Some?)
      && (info.None? ==> ExtractInfo(data, fuel) == Cut([]))
      && (info.Some? ==>
            && first.value.from <= first.value.to <= |data| && info.value == last.value.value
            && ExtractInfo(data, fuel) == Cut(data[first.value.from..first.value.to])
            && (Decode(ExtractInfo(data, fuel).bytes, limit) == info.value <==> first.value.value == last.value.value))
      && (|Under(ms, INFO)| == 1 ==> info.Some? && Decode(ExtractInfo(data, fuel).bytes, limit) == info.value)
  {
    DictRead(data, limit);
    hide Decode, ParseEntries, Members, First, Last, Under, Lookup, ExtractFrom;
    var ms := Members(data, 1, 0, limit);
    LastIsKept(data, 1, 0, limit, [], INFO);
    FirstIsCut(data, 1, 0, limit, [], fuel);
    FirstAndLast(ms, INFO);
    assert Lookup([], INFO) == None by { NothingFound(); }
    var first := First(ms, INFO);
    if first.Some? { MembersDecode(data, 1, 0, limit, [], first.value); }
  }

  lemma NothingFound()
    ensures Lookup([], INFO) == None
  {
  }

  // ---------------------------------------------------------------- canonical torrents, and one that is not

  /** One round of the loop, once its two scans are known. */
  lemma ExtractStep(data: Text, pos: nat, mid: nat, end: nat, fuel: nat)
    requires pos < |data| && data[pos] != CHAR_e && fuel > 0
    requires ScanValue(data, pos, fuel - 1) == End(mid) && ScanValue(data, mid, fuel - 1) == End(end)
    ensures ExtractFrom(data, pos, fuel) ==
      if KeyText(Range(data, pos, mid)) == INFO then Cut(Range(data, mid, end)) else ExtractFrom(data, end, fuel - 1)
  {
    hide ScanValue, KeyText, Range, INFO;
  }

  lemma ExtractEnd(data: Text, pos: nat, fuel: nat)
    requires pos < |data| && data[pos] == CHAR_e && fuel > 0
    ensures ExtractFrom(data, pos, fuel) == Cut([])
  {
  }

  /** An encoded entry is cut out, or passed. */
  lemma EntryExtracted(e: Entry, data: Text, pos: nat, fuel: nat)
    requires Proper(e.value) && |data| < TWO_31 && fuel + 2 * pos > 2 * |data| + 1
    requires At(data, pos, WriteText(e.key)) && At(data, pos + |WriteText(e.key)|, Encode(e.value))
    ensures var end := pos + |WriteText(e.key)| + |Encode(e.value)|;
      pos < end && ExtractFrom(data, pos, fuel) == if e.key == INFO then Cut(Encode(e.value)) else ExtractFrom(data, end, fuel - 1)
  {
    hide ScanValue, SkipValue, KeyText, Encode, WriteText, Proper, ExtractFrom, INFO;
    var mid := pos + |WriteText(e.key)|;
    var end := mid + |Encode(e.value)|;
    TextIsValue(e.key);
    SkipEncoded(Str(e.key), data, pos);
    SkipEncoded(e.value, data, mid);
    ScanMeetsSkip(data, pos, fuel - 1);
    ScanMeetsSkip(data, mid, fuel - 1);
    TextStart(e.key);
    assert data[pos] == data[pos..mid][0];
    ExtractStep(data, pos, mid, end, fuel);
    KeyTextOfText(e.key);
  }

  lemma {:induction false} EntriesExtract(entries: seq<Entry>, data: Text, pos: nat, fuel: nat)
    requires forall i :: 0 <= i < |entries| ==> Proper(entries[i].value)
    requires At(data, pos, WriteEntries(entries).bytes + [CHAR_e]) && |data| < TWO_31
    requires fuel + 2 * pos > 2 * |data| + 1
    ensures ExtractFrom(data, pos, fuel) ==
      var info := Lookup(entries, INFO); Cut(if info.Some? then Encode(info.value) else [])
    decreases |entries|
  {
    hide ExtractFrom, Encode, WriteText, Proper, At, INFO;
    if entries == [] {
      assert WriteEntries(entries).bytes + [CHAR_e] == [CHAR_e];
      AtByte(data, pos, CHAR_e);
      ExtractEnd(data, pos, fuel);
    } else {
      hide WriteEntries;
      var e := entries[0];
      FirstEntryAt(entries, data, pos);
      EntryExtracted(e, data, pos, fuel);
      EntriesExtract(entries[1..], data, pos + |WriteText(e.key)| + |Encode(e.value)|, fuel - 1);
    }
  }

  lemma TextIsValue(s: Text)
    ensures Proper(Str(s)) && Encode(Str(s)) == WriteText(s)
  {
  }

  /** From an encoded torrent exactly the encoding of its info dictionary is cut out. */
  lemma ExtractsInfo(root: Value, fuel: nat)
    requires Proper(root) && root.Dict? && |Encode(root)| < TWO_31 && fuel >= 2 * |Encode(root)|
    ensures ExtractInfo(Encode(root), fuel) ==
      var info := Lookup(root.entries, INFO); Cut(if info.Some? then Encode(info.value) else [])
  {
    hide ExtractFrom, WriteEntries, Lookup;
    var data := Encode(root);
    CompoundWritten(root);
    assert data[0..0 + |data|] == data;
    AtSplit(data, 0, [CHAR_d], WriteEntries(root.entries).bytes + [CHAR_e]);
    EntriesExtract(root.entries, data, 1, fuel);
  }

  /** With two "info" members the bytes of the first are cut out and the decoder keeps the value of the second. */
  lemma RepeatedInfo(v1: Value, v2: Value, data: Text, limit: nat, fuel: nat)
    requires Proper(v1) && Proper(v2) && |INFO| + Weight(v1) + |INFO| + Weight(v2) + 2 <= limit
    requires data == [CHAR_d] + (WriteText(INFO) + Encode(v1)) + (WriteText(INFO) + Encode(v2)) + [CHAR_e]
    requires |data| < TWO_31 && fuel >= 2 * |data|
    ensures Decode(data, limit).Dict? && Lookup(Decode(data, limit).entries, INFO) == Some(v2)
    ensures ExtractInfo(data, fuel) == Cut(Encode(v1))
  {
    hide *;
    BencodeCanonical.TwoEntries(INFO, v1, INFO, v2, data, limit);
    LookupPut(Put([], INFO, v1), INFO, v2, INFO);
    var first, second := WriteText(INFO) + Encode(v1), WriteText(INFO) + Encode(v2);
    BencodeCanonical.TwoParts(data, first, second);
    AtSplit(data, 1, WriteText(INFO), Encode(v1));
    EntryExtracted(Entry(INFO, v1), data, 1, fuel);
    OpensDictionary(data, fuel);
  }

  lemma OpensDictionary(data: Text, fuel: nat)
    requires data != [] && data[0] == CHAR_d
    ensures ExtractInfo(data, fuel) == ExtractFrom(data, 1, fuel)
  {
  }
}
