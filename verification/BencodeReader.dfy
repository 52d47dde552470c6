/** The stream reader and writer: a device position, a one-byte look-ahead cache and an allocation account. */
module BencodeReader {
  import opened Bytes
  import opened Bencode
  import opened BencodeRoundTrip

  // ---------------------------------------------------------------- facts about runs of digits

  lemma {:induction false} RunReaches(data: Text, pos: nat, e: nat)
    requires pos <= e <= |data| && AllDigits(data[pos..e])
    ensures DigitEnd(data, pos) >= e
    decreases e - pos
  {
    if pos < e {
      var run := data[pos + 1..e];
      assert data[pos..e][0] == data[pos];
      forall i | 0 <= i < |run| ensures IsDigit(run[i]) { assert run[i] == data[pos..e][i + 1]; }
      RunReaches(data, pos + 1, e);
    }
  }

  lemma RunGrows(data: Text, pos: nat, e: nat)
    requires pos <= e < |data| && AllDigits(data[pos..e]) && IsDigit(data[e])
    ensures AllDigits(data[pos..e + 1]) && data[pos..e + 1] == data[pos..e] + [data[e]]
  {
    assert data[pos..e + 1] == data[pos..e] + [data[e]];
  }

  /** All that the reader needs to know about an integer whose digits start at `d` and run to `e`. */
  lemma IntRun(data: Text, pos: nat, negative: bool, d: nat, e: nat)
    requires pos < |data| && data[pos] == CHAR_i && negative == (pos + 1 < |data| && data[pos + 1] == MINUS)
    requires d == (if negative then pos + 2 else pos + 1) && d < e <= |data| && AllDigits(data[d..e]) && data[d] != CHAR_0
    ensures e - d + (if negative then 1 else 0) > 20 ==> ParseInt(data, pos).None?
    ensures e == |data| ==> ParseInt(data, pos).None?
    ensures e < |data| && !IsDigit(data[e]) && data[e] != CHAR_e ==> ParseInt(data, pos).None?
    ensures e < |data| && data[e] == CHAR_e && e - d + (if negative then 1 else 0) <= 20 ==>
      ParseInt(data, pos) == Some((Clamp(if negative then -(Number(data[d..e]) as int) else Number(data[d..e])), e + 1))
  {
    hide DigitEnd, Number, Clamp;
    assert data[d] == data[d..e][0];
    RunReaches(data, d, e);
    if e < |data| && !IsDigit(data[e]) { DigitRun(data, d, e); }
  }

  class BencodeReader {
    const data: Text
    const allocLimit: nat
    var devPos: nat
    var pos: nat
    var hasPeekByte: bool
    var peekByteCache: byte
    var ok: bool
    var bytesAllocated: nat

    /** The device is ahead of the logical position by exactly the cached byte. */
    ghost predicate Valid()
      reads this
    {
      && |data| < TWO_31 && devPos <= |data|
      && devPos == pos + (if hasPeekByte then 1 else 0)
      && (hasPeekByte ==> peekByteCache == data[pos])
      && bytesAllocated <= allocLimit
    }

    constructor (data: Text, allocLimit: nat)
      requires |data| < TWO_31
      ensures Valid() && ok && pos == 0 && bytesAllocated == 0 && this.data == data && this.allocLimit == allocLimit
    {
      this.data, this.allocLimit := data, allocLimit;
      devPos, pos, hasPeekByte, peekByteCache, ok, bytesAllocated := 0, 0, false, 0, true, 0;
    }

    /** Reads `len` bytes; the device may hand them over in any pieces. */
    method ReadBytes(len: nat) returns (success: bool, bytes: Text)
      requires Valid() && ok
      modifies this`devPos, this`pos, this`hasPeekByte, this`ok
      ensures Valid() && success == ok == (old(pos) + len <= |data|)
      ensures success ==> pos == old(pos) + len && bytes == data[old(pos)..pos]
      ensures !success ==> pos == old(pos)
    {
      bytes := [];
      if pos + len > |data| {
        ok := false;
        return false, bytes;
      }
      var total := 0;
      if hasPeekByte && len > 0 {
        assert data[pos..pos + 1] == [data[pos]];
        bytes := [peekByteCache];
        hasPeekByte := false;
        total := 1;
      } else {
        assert data[pos..pos] == [];
      }
      assert bytes == data[pos..pos + total];
      while total < len
        invariant total <= len && pos == old(pos) && pos + len <= |data|
        invariant bytes == data[pos..pos + total] && ok
        invariant devPos == pos + total + (if hasPeekByte then 1 else 0)
        invariant hasPeekByte ==> len == 0 && devPos <= |data| && peekByteCache == data[pos]
      {
        var n :| 0 < n <= len - total;
        assert data[pos..pos + total] + data[pos + total..pos + total + n] == data[pos..pos + total + n];
        bytes := bytes + data[devPos..devPos + n];
        devPos := devPos + n;
        total := total + n;
      }
      pos := pos + len;
      return true, bytes;
    }

    method ReadByte() returns (success: bool, c: byte)
      requires Valid() && ok
      modifies this`devPos, this`pos, this`hasPeekByte, this`ok
      ensures Valid() && success == ok == (old(pos) < |data|)
      ensures success ==> pos == old(pos) + 1 && c == data[old(pos)]
      ensures !success ==> pos == old(pos)
    {
      var bytes: Text;
      c := 0;
      success, bytes := ReadBytes(1);
      if success {
        c := bytes[0];
      }
    }

    method PeekByte() returns (success: bool, c: byte)
      requires Valid() && ok
      modifies this`devPos, this`hasPeekByte, this`peekByteCache
      ensures Valid() && success == (pos < |data|) && (success ==> c == data[pos])
    {
      c := 0;
      if hasPeekByte {
        return true, peekByteCache;
      }
      if pos >= |data| {
        return false, c;
      }
      peekByteCache := data[devPos];
      devPos := devPos + 1;
      hasPeekByte := true;
      return true, peekByteCache;
    }

    method ConsumeByte(expected: byte) returns (success: bool)
      requires Valid() && ok
      modifies this`devPos, this`pos, this`hasPeekByte, this`ok
      ensures Valid() && success == ok == (old(pos) < |data| && data[old(pos)] == expected)
      ensures success ==> pos == old(pos) + 1
    {
      var got, c := ReadByte();
      if !got {
        return false;
      }
      if c != expected {
        ok := false;
        return false;
      }
      return true;
    }

    method Account(n: nat) returns (success: bool)
      requires Valid() && ok
      modifies this`ok, this`bytesAllocated
      ensures Valid() && success == ok == Affordable(old(bytesAllocated), n, allocLimit)
      ensures bytesAllocated == old(bytesAllocated) + (if success then n else 0)
    {
      if bytesAllocated > allocLimit || n > allocLimit - bytesAllocated {
        ok := false;
        return false;
      }
      bytesAllocated := bytesAllocated + n;
      return true;
    }

    method ReadInteger() returns (success: bool, i: int)
      requires Valid() && ok
      modifies this`devPos, this`pos, this`hasPeekByte, this`ok
      ensures Valid() && success == ok == ParseInt(data, old(pos)).Some?
      ensures success ==> (i, pos) == ParseInt(data, old(pos)).value
    {
      hide Number, Clamp, DigitEnd;
      i := 0;
      ghost var start := pos;
      success := ConsumeByte(CHAR_i);
      if !success { return; }
      var c: byte;
      success, c := ReadByte();
      if !success { return; }
      var negative := c == MINUS;
      if negative {
        success, c := ReadByte();
        if !success { return; }
      }
      if !IsDigit(c) {
        ok := false;
        return false, i;
      }
      if c == CHAR_0 {
        success, c := ReadByte();
        if !success { return; }
        if c != CHAR_e {
          ok := false;
          return false, i;
        }
        return true, 0;
      }
      success, i := ReadDigits(start, negative, c);
    }

    /** The rest of an integer whose first digit has been read. */
    method ReadDigits(ghost start: nat, negative: bool, first: byte) returns (success: bool, i: int)
      requires Valid() && ok && start < |data| && data[start] == CHAR_i
      requires negative == (start + 1 < |data| && data[start + 1] == MINUS)
      requires pos == (if negative then start + 3 else start + 2)
      requires first == data[pos - 1] && IsDigit(first) && first != CHAR_0
      modifies this`devPos, this`pos, this`hasPeekByte, this`ok
      ensures Valid() && success == ok == ParseInt(data, start).Some?
      ensures success ==> (i, pos) == ParseInt(data, start).value
    {
      hide ParseInt, Number, Clamp, DigitEnd;
      i := 0;
      ghost var d := pos - 1;
      var digits := [first];
      assert data[d..pos] == [first];
      while true
        invariant Valid() && ok && d < pos <= |data| && digits == data[d..pos] && AllDigits(digits)
        invariant data[d] != CHAR_0 && |digits| + (if negative then 1 else 0) <= 20
        decreases |data| - pos
      {
        IntRun(data, start, negative, d, pos);
        var c: byte;
        success, c := ReadByte();
        if !success { return; }
        if c == CHAR_e {
          break;
        }
        if !IsDigit(c) {
          ok := false;
          return false, i;
        }
        RunGrows(data, d, pos - 1);
        digits := digits + [c];
        IntRun(data, start, negative, d, pos);
        if |digits| + (if negative then 1 else 0) > 20 {
          ok := false;
          return false, i;
        }
      }
      return true, Clamp(if negative then -(Number(digits) as int) else Number(digits));
    }

    /** The decimal digits in front of a text, at most ten of them. */
    method ReadLength() returns (success: bool, lenDigits: Text)
      requires Valid() && ok
      modifies this`devPos, this`pos, this`hasPeekByte, this`peekByteCache, this`ok
      ensures Valid() && success == ok
      ensures success ==> old(pos) <= pos == DigitEnd(data, old(pos)) <= old(pos) + 10 && lenDigits == data[old(pos)..pos]
      ensures !success ==> old(pos) < |data| && DigitEnd(data, old(pos)) > old(pos) + 10
    {
      hide DigitEnd;
      ghost var start := pos;
      lenDigits := [];
      while true
        invariant Valid() && ok && start <= pos <= |data| && lenDigits == data[start..pos] && AllDigits(lenDigits)
        invariant |lenDigits| <= 10
        decreases |data| - pos
      {
        var more, c := PeekByte();
        if !more || !IsDigit(c) {
          break;
        }
        RunGrows(data, start, pos);
        var got, digit := ReadByte();
        lenDigits := lenDigits + [digit];
        if |lenDigits| > 10 {
          RunReaches(data, start, pos);
          ok := false;
          return false, lenDigits;
        }
      }
      RunReaches(data, start, pos);
      if pos < |data| { DigitRun(data, start, pos); }
      return true, lenDigits;
    }

    method ReadText() returns (success: bool, s: Text)
      requires Valid() && ok
      modifies this
      ensures Valid() && success == ok == ParseText(data, old(pos), old(bytesAllocated), allocLimit).Got?
      ensures success ==> Got(s, pos, bytesAllocated) == ParseText(data, old(pos), old(bytesAllocated), allocLimit)
    {
      hide Number, DigitEnd;
      s := [];
      var c: byte;
      success, c := PeekByte();
      if !success {
        ok := false;
        return;
      }
      if !IsDigit(c) {
        ok := false;
        return false, s;
      }
      var lenDigits: Text;
      success, lenDigits := ReadLength();
      if !success { return; }
      if lenDigits == [] || (|lenDigits| > 1 && lenDigits[0] == CHAR_0) {
        ok := false;
        assert DigitEnd(data, old(pos)) > old(pos) by { RunReaches(data, old(pos), old(pos) + 1); }
        return false, s;
      }
      success := ConsumeByte(COLON);
      if !success { return; }
      var len := Number(lenDigits);
      if len > allocLimit {
        ok := false;
        return false, s;
      }
      success := Account(len);
      if !success { return; }
      success, s := ReadBytes(len);
    }

    method ReadValue() returns (success: bool, v: Value)
      requires Valid() && ok
      modifies this
      ensures Valid() && success == ok == ParseValue(data, old(pos), old(bytesAllocated), allocLimit).Got?
      ensures success ==> Got(v, pos, bytesAllocated) == ParseValue(data, old(pos), old(bytesAllocated), allocLimit)
      decreases |data| - pos, 0
    {
      hide ParseInt, ParseText, ParseItems, ParseEntries, ParseValue;
      v := Invalid;
      var c: byte;
      success, c := PeekByte();
      if !success {
        PastEnd(data, pos, bytesAllocated, allocLimit);
        ok := false;
        return;
      }
      ListStep(data, pos, bytesAllocated, allocLimit);
      ScalarStep(data, pos, bytesAllocated, allocLimit);
      if c == CHAR_i {
        var i: int;
        success, i := ReadInteger();
        v := Int(i);
        return;
      }
      if c == CHAR_l {
        success := ConsumeByte(CHAR_l);
        var items: seq<Value>;
        success, items := ReadItems();
        v := List(items);
        return;
      }
      if c == CHAR_d {
        success := ConsumeByte(CHAR_d);
        var entries: seq<Entry>;
        success, entries := ReadEntries();
        v := Dict(entries);
        return;
      }
      if IsDigit(c) {
        var s: Text;
        success, s := ReadText();
        v := Str(s);
        return;
      }
      OtherByte(data, pos, bytesAllocated, allocLimit);
      ok := false;
      return false, v;
    }

    /** The items of a list, up to its closing byte. */
    method ReadItems() returns (success: bool, items: seq<Value>)
      requires Valid() && ok
      modifies this
      ensures Valid() && success == ok == ParseItems(data, old(pos), old(bytesAllocated), allocLimit, []).Got?
      ensures success ==> Got(items, pos, bytesAllocated) == ParseItems(data, old(pos), old(bytesAllocated), allocLimit, [])
      decreases |data| - pos, 1
    {
      hide ParseItems, ParseValue;
      items := [];
      while true
        invariant Valid() && ok && old(pos) <= pos
        invariant ParseItems(data, old(pos), old(bytesAllocated), allocLimit, [])
               == ParseItems(data, pos, bytesAllocated, allocLimit, items)
        decreases |data| - pos
      {
        var c: byte;
        success, c := PeekByte();
        if !success {
          ItemsPastEnd(data, pos, bytesAllocated, allocLimit, items);
          ok := false;
          return;
        }
        ItemsStep(data, pos, bytesAllocated, allocLimit, items);
        if c == CHAR_e {
          success := ConsumeByte(CHAR_e);
          return;
        }
        var item: Value;
        success, item := ReadValue();
        if !success { return; }
        success := Account(1);
        if !success { return; }
        items := items + [item];
      }
    }

    /** The entries of a dictionary, up to its closing byte. */
    method ReadEntries() returns (success: bool, entries: seq<Entry>)
      requires Valid() && ok
      modifies this
      ensures Valid() && success == ok == ParseEntries(data, old(pos), old(bytesAllocated), allocLimit, []).Got?
      ensures success ==>
        Got(entries, pos, bytesAllocated) == ParseEntries(data, old(pos), old(bytesAllocated), allocLimit, [])
      decreases |data| - pos, 1
    {
      hide ParseEntries, ParseValue, ParseText, Put;
      entries := [];
      while true
        invariant Valid() && ok && old(pos) <= pos
        invariant ParseEntries(data, old(pos), old(bytesAllocated), allocLimit, [])
               == ParseEntries(data, pos, bytesAllocated, allocLimit, entries)
        decreases |data| - pos
      {
        var c: byte;
        success, c := PeekByte();
        if !success {
          EntriesPastEnd(data, pos, bytesAllocated, allocLimit, entries);
          ok := false;
          return;
        }
        EntriesStep(data, pos, bytesAllocated, allocLimit, entries);
        if c == CHAR_e {
          success := ConsumeByte(CHAR_e);
          return;
        }
        var key: Text;
        success, key := ReadText();
        if !success { return; }
        var value: Value;
        success, value := ReadValue();
        if !success { return; }
        success := Account(1);
        if !success { return; }
        entries := Put(entries, key, value);
      }
    }
  }

  lemma PastEnd(data: Text, pos: nat, used: nat, limit: nat)
    requires pos >= |data|
    ensures ParseValue(data, pos, used, limit).Fail?
  {
  }

  lemma OtherByte(data: Text, pos: nat, used: nat, limit: nat)
    requires pos < |data| && data[pos] != CHAR_i && data[pos] != CHAR_l && data[pos] != CHAR_d && !IsDigit(data[pos])
    ensures ParseValue(data, pos, used, limit).Fail?
  {
  }

  lemma ItemsPastEnd(data: Text, pos: nat, used: nat, limit: nat, items: seq<Value>)
    requires pos >= |data|
    ensures ParseItems(data, pos, used, limit, items).Fail?
  {
  }

  lemma EntriesPastEnd(data: Text, pos: nat, used: nat, limit: nat, entries: seq<Entry>)
    requires pos >= |data|
    ensures ParseEntries(data, pos, used, limit, entries).Fail?
  {
  }

  method DecodeAll(data: Text, limit: nat) returns (v: Value)
    requires |data| < TWO_31
    ensures v == Decode(data, limit)
  {
    hide ParseValue;
    var stream := new BencodeReader(data, limit);
    var success, value := stream.ReadValue();
    if !success || stream.pos < |data| {
      return Invalid;
    }
    return value;
  }

  // ---------------------------------------------------------------- the writer

  method WriteValue(v: Value) returns (out: Text, success: bool)
    ensures Written(out, success) == Write(v)
    decreases v, 0
  {
    hide WriteItems, WriteEntries, Decimal, WriteText;
    match v
    case Invalid => return [], false;
    case Int(n) => return [CHAR_i] + Decimal(n) + [CHAR_e], true;
    case Str(s) => return WriteText(s), true;
    case List(items) =>
      var body, fine := WriteList(items);
      if !fine { return [CHAR_l] + body, false; }
      return [CHAR_l] + body + [CHAR_e], true;
    case Dict(entries) =>
      var body, fine := WriteDict(entries);
      if !fine { return [CHAR_d] + body, false; }
      return [CHAR_d] + body + [CHAR_e], true;
  }

  method WriteList(items: seq<Value>) returns (out: Text, success: bool)
    ensures Written(out, success) == WriteItems(items)
    decreases items, 1
  {
    hide Write;
    out := [];
    assert items[0..] == items;
    for i := 0 to |items|
      invariant WriteItems(items).bytes == out + WriteItems(items[i..]).bytes
      invariant WriteItems(items).ok == WriteItems(items[i..]).ok
    {
      assert items[i..][1..] == items[i + 1..];
      var bytes, fine := WriteValue(items[i]);
      if !fine { return out + bytes, false; }
      out := out + bytes;
    }
    return out, true;
  }

  method WriteDict(entries: seq<Entry>) returns (out: Text, success: bool)
    ensures Written(out, success) == WriteEntries(entries)
    decreases entries, 1
  {
    hide Write, WriteText;
    out := [];
    assert entries[0..] == entries;
    for i := 0 to |entries|
      invariant WriteEntries(entries).bytes == out + WriteEntries(entries[i..]).bytes
      invariant WriteEntries(entries).ok == WriteEntries(entries[i..]).ok
    {
      assert entries[i..][1..] == entries[i + 1..];
      var key := WriteText(entries[i].key);
      var bytes, fine := WriteValue(entries[i].value);
      if !fine { return out + (key + bytes), false; }
      assert out + (key + bytes + WriteEntries(entries[i + 1..]).bytes)
          == out + (key + bytes) + WriteEntries(entries[i + 1..]).bytes;
      out := out + (key + bytes);
    }
    return out, true;
  }
}
