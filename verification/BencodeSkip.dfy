/** Skipping a bencoded value without building it, with lengths of any size: the reference for the torrent code's scanner. */
module BencodeSkip {
  import opened Bytes
  import opened Bencode
  import opened BencodeRoundTrip

  // ---------------------------------------------------------------- skipping

  /** The first `c` at or after `from`, or the end. */
  function Find(data: Text, c: byte, from: nat): (i: nat)
    requires from <= |data|
    ensures from <= i <= |data| && (i < |data| ==> data[i] == c)
    ensures forall j :: from <= j < i ==> data[j] != c
    decreases |data| - from
  {
    if from == |data| || data[from] == c then from else Find(data, c, from + 1)
  }

  function SkipValue(data: Text, pos: nat): (r: Option<nat>)
    ensures r.Some? ==> pos < r.value <= |data|
    decreases |data| - pos, 0
  {
    if pos >= |data| then None
    else if data[pos] == CHAR_i then
      var e := Find(data, CHAR_e, pos + 1);
      if e == |data| then None else Some(e + 1)
    else if IsDigit(data[pos]) then
      var colon := Find(data, COLON, pos);
      if colon == |data| || !AllDigits(data[pos..colon]) then None
      else
        var end := colon + 1 + Number(data[pos..colon]);
        if end <= |data| then Some(end) else None
    else if data[pos] == CHAR_l then SkipBody(data, pos + 1, false)
    else if data[pos] == CHAR_d then SkipBody(data, pos + 1, true)
    else None
  }

  /** The inside of a list or dictionary, with its closing byte. */
  function SkipBody(data: Text, pos: nat, dict: bool): (r: Option<nat>)
    ensures r.Some? ==> pos < r.value <= |data|
    decreases |data| - pos, 1
  {
    if pos >= |data| then None
    else if data[pos] == CHAR_e then Some(pos + 1)
    else
      var key := if dict then SkipValue(data, pos) else Some(pos);
      if key.None? then None
      else
        var value := SkipValue(data, key.value);
        if value.None? then None else SkipBody(data, value.value, dict)
  }

  // ---------------------------------------------------------------- both parsers agree

  lemma {:induction false} FindFirst(data: Text, c: byte, from: nat, i: nat)
    requires from <= i < |data| && data[i] == c && forall j :: from <= j < i ==> data[j] != c
    ensures Find(data, c, from) == i
    decreases i - from
  {
    if from < i { FindFirst(data, c, from + 1, i); }
  }

  lemma InRun(data: Text, from: nat, to: nat)
    requires from <= to <= |data| && AllDigits(data[from..to])
    ensures forall j :: from <= j < to ==> IsDigit(data[j])
  {
    forall j | from <= j < to ensures IsDigit(data[j]) { assert data[from..to][j - from] == data[j]; }
  }

  lemma IntAgrees(data: Text, pos: nat)
    requires ParseInt(data, pos).Some?
    ensures SkipValue(data, pos) == Some(ParseInt(data, pos).value.1)
  {
    hide Find, Clamp, Number, DigitEnd;
    var d := if data[pos + 1] == MINUS then pos + 2 else pos + 1;
    if data[d] == CHAR_0 {
      FindFirst(data, CHAR_e, pos + 1, d + 1);
    } else {
      var e := DigitEnd(data, d);
      InRun(data, d, e);
      FindFirst(data, CHAR_e, pos + 1, e);
    }
  }

  lemma TextAgrees(data: Text, pos: nat, used: nat, limit: nat)
    requires ParseText(data, pos, used, limit).Got?
    ensures SkipValue(data, pos) == Some(ParseText(data, pos, used, limit).pos)
  {
    hide Find, Number, DigitEnd;
    var e := DigitEnd(data, pos);
    InRun(data, pos, e);
    FindFirst(data, COLON, pos, e);
  }

  /** Wherever the decoder accepts a value, the scanner stops at the same byte. */
  lemma {:induction false} ParsersAgree(data: Text, pos: nat, used: nat, limit: nat)
    requires ParseValue(data, pos, used, limit).Got?
    ensures SkipValue(data, pos) == Some(ParseValue(data, pos, used, limit).pos)
    decreases |data| - pos, 0
  {
    hide ParseInt, ParseText, ParseItems, ParseEntries, SkipBody, Find, Number;
    if data[pos] == CHAR_i {
      IntAgrees(data, pos);
    } else if data[pos] == CHAR_l {
      ItemsAgree(data, pos + 1, used, limit, []);
    } else if data[pos] == CHAR_d {
      EntriesAgree(data, pos + 1, used, limit, []);
    } else {
      TextAgrees(data, pos, used, limit);
    }
  }

  lemma {:induction false} ItemsAgree(data: Text, pos: nat, used: nat, limit: nat, items: seq<Value>)
    requires ParseItems(data, pos, used, limit, items).Got?
    ensures SkipBody(data, pos, false) == Some(ParseItems(data, pos, used, limit, items).pos)
    decreases |data| - pos, 1
  {
    hide ParseValue, SkipValue;
    if data[pos] != CHAR_e {
      var v := ParseValue(data, pos, used, limit);
      ParsersAgree(data, pos, used, limit);
      ItemsAgree(data, v.pos, v.used + 1, limit, items + [v.value]);
    }
  }

  lemma {:induction false} EntriesAgree(data: Text, pos: nat, used: nat, limit: nat, entries: seq<Entry>)
    requires ParseEntries(data, pos, used, limit, entries).Got?
    ensures SkipBody(data, pos, true) == Some(ParseEntries(data, pos, used, limit, entries).pos)
    decreases |data| - pos, 1
  {
    hide ParseValue, ParseText, SkipValue, Put;
    if data[pos] != CHAR_e {
      var key := ParseText(data, pos, used, limit);
      TextAgrees(data, pos, used, limit);
      var v := ParseValue(data, key.pos, key.used, limit);
      ParsersAgree(data, key.pos, key.used, limit);
      EntriesAgree(data, v.pos, v.used + 1, limit, Put(entries, key.value, v.value));
    }
  }

  /** An encoded value is skipped whole, whatever stands around it. */
  lemma SkipEncoded(v: Value, data: Text, pos: nat)
    requires Proper(v) && At(data, pos, Encode(v)) && |data| < TWO_31
    ensures SkipValue(data, pos) == Some(pos + |Encode(v)|)
  {
    hide ParseValue, SkipValue, Encode, At, Proper;
    ValueAt(v, data, pos, 0, Weight(v));
    ParsersAgree(data, pos, 0, Weight(v));
  }
}
