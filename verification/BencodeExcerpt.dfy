/** A value's bytes, taken out of their surroundings, decode to the same value. */
module BencodeExcerpt {
  import opened Bytes
  import opened Bencode
  import opened BencodeRoundTrip
  import opened BencodeNormal

  /** `part` stands in `data` from `off` on. */
  predicate Excerpt(data: Text, part: Text, off: nat)
  {
    off + |part| <= |data| && data[off..off + |part|] == part
  }

  lemma SameBytes(data: Text, part: Text, off: nat)
    requires Excerpt(data, part, off)
    ensures forall i :: 0 <= i < |part| ==> part[i] == data[off + i]
  {
    forall i | 0 <= i < |part| ensures part[i] == data[off + i] {
      assert part[i] == data[off..off + |part|][i];
    }
  }

  lemma {:induction false} DigitEndMoves(data: Text, pos: nat, part: Text, off: nat)
    requires Excerpt(data, part, off) && off <= pos <= |data| && DigitEnd(data, pos) < off + |part|
    ensures DigitEnd(part, pos - off) == DigitEnd(data, pos) - off
    decreases |data| - pos
  {
    SameBytes(data, part, off);
    if pos < |data| && IsDigit(data[pos]) { DigitEndMoves(data, pos + 1, part, off); }
  }

  lemma RunMoves(data: Text, pos: nat, e: nat, part: Text, off: nat)
    requires Excerpt(data, part, off) && off <= pos <= e <= off + |part|
    ensures part[pos - off..e - off] == data[pos..e]
  {
    SameBytes(data, part, off);
  }

  lemma IntMoves(data: Text, pos: nat, part: Text, off: nat)
    requires Excerpt(data, part, off) && off <= pos
    requires ParseInt(data, pos).Some? && ParseInt(data, pos).value.1 <= off + |part|
    ensures var (n, e) := ParseInt(data, pos).value; ParseInt(part, pos - off) == Some((n, e - off))
  {
    hide Number, Clamp, DigitEnd;
    SameBytes(data, part, off);
    var d := if data[pos + 1] == MINUS then pos + 2 else pos + 1;
    if data[d] != CHAR_0 {
      DigitEndMoves(data, d, part, off);
      RunMoves(data, d, DigitEnd(data, d), part, off);
    }
  }

  /** What was read at `pos` having spent `used` is read at its place in the excerpt having spent `spent`. */
  ghost predicate Moved<T>(r: Parsed<T>, there: Parsed<T>, off: nat, used: nat, spent: nat)
    requires r.Got?
  {
    used <= r.used && off <= r.pos && there == Got(r.value, r.pos - off, r.used - used + spent)
  }

  lemma TextMoves(data: Text, pos: nat, used: nat, limit: nat, part: Text, off: nat, spent: nat)
    requires Excerpt(data, part, off) && off <= pos && spent <= used
    requires ParseText(data, pos, used, limit).Got? && ParseText(data, pos, used, limit).pos <= off + |part|
    ensures Moved(ParseText(data, pos, used, limit), ParseText(part, pos - off, spent, limit), off, used, spent)
  {
    hide Number, DigitEnd;
    SameBytes(data, part, off);
    var e := DigitEnd(data, pos);
    DigitEndMoves(data, pos, part, off);
    RunMoves(data, pos, e, part, off);
    RunMoves(data, e + 1, ParseText(data, pos, used, limit).pos, part, off);
  }

  lemma {:induction false} ValueMoves(data: Text, pos: nat, used: nat, limit: nat, part: Text, off: nat, spent: nat)
    requires Excerpt(data, part, off) && off <= pos && spent <= used
    requires ParseValue(data, pos, used, limit).Got? && ParseValue(data, pos, used, limit).pos <= off + |part|
    ensures Moved(ParseValue(data, pos, used, limit), ParseValue(part, pos - off, spent, limit), off, used, spent)
    decreases |data| - pos, 0
  {
    hide ParseInt, ParseText, ParseItems, ParseEntries, ParseValue, Excerpt;
    ValueRange(data, pos, used, limit);
    SameBytes(data, part, off);
    ListStep(data, pos, used, limit);
    ScalarStep(data, pos, used, limit);
    ListStep(part, pos - off, spent, limit);
    ScalarStep(part, pos - off, spent, limit);
    if data[pos] == CHAR_i {
      IntMoves(data, pos, part, off);
    } else if data[pos] == CHAR_l {
      ItemsMove(data, pos + 1, used, limit, [], part, off, spent);
    } else if data[pos] == CHAR_d {
      EntriesMove(data, pos + 1, used, limit, [], part, off, spent);
    } else {
      TextMoves(data, pos, used, limit, part, off, spent);
    }
  }

  lemma {:induction false} ItemsMove(data: Text, pos: nat, used: nat, limit: nat, items: seq<Value>,
                                     part: Text, off: nat, spent: nat)
    requires Excerpt(data, part, off) && off <= pos && spent <= used
    requires ParseItems(data, pos, used, limit, items).Got?
    requires ParseItems(data, pos, used, limit, items).pos <= off + |part|
    ensures Moved(ParseItems(data, pos, used, limit, items), ParseItems(part, pos - off, spent, limit, items),
                  off, used, spent)
    decreases |data| - pos, 1
  {
    hide ParseValue, ParseItems, Excerpt;
    ItemsRange(data, pos, used, limit, items);
    SameBytes(data, part, off);
    ItemsStep(data, pos, used, limit, items);
    ItemsStep(part, pos - off, spent, limit, items);
    if data[pos] != CHAR_e {
      var v := ParseValue(data, pos, used, limit);
      ItemsRange(data, v.pos, v.used + 1, limit, items + [v.value]);
      ValueMoves(data, pos, used, limit, part, off, spent);
      ItemsMove(data, v.pos, v.used + 1, limit, items + [v.value], part, off, v.used - used + spent + 1);
    }
  }

  lemma {:induction false} EntriesMove(data: Text, pos: nat, used: nat, limit: nat, entries: seq<Entry>,
                                       part: Text, off: nat, spent: nat)
    requires Excerpt(data, part, off) && off <= pos && spent <= used
    requires ParseEntries(data, pos, used, limit, entries).Got?
    requires ParseEntries(data, pos, used, limit, entries).pos <= off + |part|
    ensures Moved(ParseEntries(data, pos, used, limit, entries), ParseEntries(part, pos - off, spent, limit, entries),
                  off, used, spent)
    decreases |data| - pos, 1
  {
    hide ParseValue, ParseText, ParseEntries, Excerpt, Put;
    EntriesRange(data, pos, used, limit, entries);
    SameBytes(data, part, off);
    EntriesStep(data, pos, used, limit, entries);
    EntriesStep(part, pos - off, spent, limit, entries);
    if data[pos] != CHAR_e {
      var key := ParseText(data, pos, used, limit);
      var v := ParseValue(data, key.pos, key.used, limit);
      var more := Put(entries, key.value, v.value);
      EntriesRange(data, v.pos, v.used + 1, limit, more);
      TextMoves(data, pos, used, limit, part, off, spent);
      ValueMoves(data, key.pos, key.used, limit, part, off, key.used - used + spent);
      EntriesMove(data, v.pos, v.used + 1, limit, more, part, off, v.used - used + spent + 1);
    }
  }

  /** The bytes of an accepted value, alone, decode to it. */
  lemma ExcerptDecodes(data: Text, pos: nat, used: nat, limit: nat)
    requires ParseValue(data, pos, used, limit).Got?
    ensures var r := ParseValue(data, pos, used, limit); Decode(data[pos..r.pos], limit) == r.value
  {
    hide ParseValue;
    var r := ParseValue(data, pos, used, limit);
    ValueMoves(data, pos, used, limit, data[pos..r.pos], pos, 0);
  }
}
