/**
 Every form a header block may take (section 6 of RFC 7541), whoever encoded it: indexed fields, literals
 that are stored, not stored or never to be stored, with names of their own or from the tables, strings
 plain or packed with the Huffman code, and size updates.  What such a block says is given form by form,
 and the decoder reads exactly that.
 */
module HpackForms {
  import opened Bytes
  import opened HpackTable
  import opened Hpack
  import I = HpackInteger
  import H = HpackHuffman
  import HT = HpackHuffmanTable

  /** A string as written: as it is, or packed, which ends in ones up to a whole byte. */
  datatype Str = Plain(text: seq<byte>) | Packed(text: seq<byte>, bytes: seq<byte>)

  datatype Name = NameAt(index: nat) | NewName(name: Str)

  datatype Form = Stored | NotStored | NeverStored

  datatype Rep = Indexed(index: nat) | Literal(form: Form, name: Name, value: Str) | SizeUpdate(limit: nat)

  // ---------------------------------------------------------------- writing

  ghost function CodeBits(s: seq<byte>): H.Bits { H.EncodedBits(HT.RfcTable(), s) }

  ghost predicate StrOk(s: Str)
  {
    match s
    case Plain(text) => |text| < TWO_32
    case Packed(text, bytes) =>
      |bytes| < TWO_32 && H.BytesToBits(bytes) == CodeBits(text) + H.Ones(H.Padding(|CodeBits(text)|))
  }

  ghost predicate RepOk(r: Rep)
  {
    match r
    case Indexed(i) => i < TWO_32
    case SizeUpdate(n) => n < TWO_32
    case Literal(_, name, value) =>
      && StrOk(value)
      && match name case NameAt(i) => 0 < i < TWO_32 case NewName(s) => StrOk(s)
  }

  /** The bits in front of a literal's index, and how many are left for it. */
  function Pattern(f: Form): byte { match f case Stored => 0x40 case NotStored => 0 case NeverStored => 0x10 }

  function PrefixBits(f: Form): nat { if f == Stored then 6 else 4 }

  lemma FormPatterns()
    ensures I.PatternByte(0x80, 7) && I.PatternByte(0, 7) && I.PatternByte(0x20, 5)
    ensures forall f :: I.PatternByte(Pattern(f), PrefixBits(f))
  {
    Pow2Values();
  }

  function WriteStr(s: Str): (r: seq<byte>)
    ensures |r| >= 1
  {
    FormPatterns();
    match s
    case Plain(text) => I.Encode(|text|, 7, 0) + text
    case Packed(_, bytes) => I.Encode(|bytes|, 7, 0x80) + bytes
  }

  function WriteName(n: Name): seq<byte> { if n.NewName? then WriteStr(n.name) else [] }

  function NameIndex(n: Name): nat { if n.NameAt? then n.index else 0 }

  function WriteRep(r: Rep): (s: seq<byte>)
    ensures |s| >= 1
  {
    FormPatterns();
    match r
    case Indexed(i) => I.Encode(i, 7, 0x80)
    case SizeUpdate(n) => I.Encode(n, 5, 0x20)
    case Literal(f, name, value) =>
      I.Encode(NameIndex(name), PrefixBits(f), Pattern(f)) + (WriteName(name) + WriteStr(value))
  }

  function WriteAll(rs: seq<Rep>): seq<byte>
  {
    if rs == [] then [] else WriteRep(rs[0]) + WriteAll(rs[1..])
  }

  // ---------------------------------------------------------------- meaning

  /** The static entries followed by the dynamic ones, newest first, count from 1 (section 2.3.3). */
  function Addressed(t: Table, index: nat): Option<Header>
  {
    var all := StaticTable() + t.entries;
    if 1 <= index <= |all| then Some(all[index - 1]) else None
  }

  /** Packed strings are read only if their codes are whole bytes. */
  ghost function TextOf(s: Str): Option<seq<byte>>
  {
    if s.Packed? && |CodeBits(s.text)| % 8 != 0 then None else Some(s.text)
  }

  ghost function NameOf(t: Table, n: Name): Option<seq<byte>>
  {
    match n
    case NewName(s) => TextOf(s)
    case NameAt(i) => if Addressed(t, i).Some? then Some(Addressed(t, i).value.name) else None
  }

  /** The header a literal stands for. */
  ghost function FieldOf(t: Table, name: Name, value: Str): Option<Header>
  {
    if NameOf(t, name).None? || TextOf(value).None? then None
    else Some(Header(NameOf(t, name).value, TextOf(value).value))
  }

  /** All headers a block says, and the table behind it; a form that says nothing spoils the rest. */
  ghost function Says(t: Table, rs: seq<Rep>): Block
    decreases |rs|
  {
    if rs == [] then Block([], t)
    else
      match rs[0]
      case SizeUpdate(n) => Says(Resize(t, n), rs[1..])
      case Indexed(i) =>
        if Addressed(t, i).None? then BadBlock(t) else Cons(Addressed(t, i).value, Says(t, rs[1..]))
      case Literal(form, name, value) =>
        if FieldOf(t, name, value).None? then BadBlock(t)
        else
          var h := FieldOf(t, name, value).value;
          Cons(h, Says(if form == Stored then Insert(t, h) else t, rs[1..]))
  }

  // ---------------------------------------------------------------- the decoder reads that

  lemma LookupIsAddressed(t: Table, index: nat)
    ensures Lookup(t, index) == Addressed(t, index)
  {
  }

  lemma PackedReads(text: seq<byte>, bytes: seq<byte>)
    requires H.BytesToBits(bytes) == CodeBits(text) + H.Ones(H.Padding(|CodeBits(text)|))
    ensures H.DecodeBits(HT.RfcTable(), [], H.BytesToBits(bytes)) == if |CodeBits(text)| % 8 == 0 then Some(text) else None
  {
    hide H.DecodeBits, H.EncodedBits, H.Padding, H.BytesToBits;
    HT.TableIsGood();
    H.RoundTripExactly(HT.RfcTable(), text);
  }

  /** The bytes of a string are found behind their length. */
  lemma RawReads(data: seq<byte>, pos: nat, raw: seq<byte>, first: byte, rest: seq<byte>)
    requires first == 0 || first == 0x80
    requires I.PatternByte(first, 7) && |raw| < TWO_32 && pos <= |data| && data[pos..] == I.Encode(|raw|, 7, first) + raw + rest
    ensures var e := |I.Encode(|raw|, 7, first)|;
      && pos + e + |raw| <= |data| && I.Decode(data, pos, 7) == I.Good(|raw|, pos + e)
      && data[pos + e..pos + e + |raw|] == raw && data[pos + e + |raw|..] == rest
      && pos < |data| && (data[pos] >= 0x80 <==> first == 0x80)
  {
    hide I.Encode, I.Decode, I.PatternByte, Pow2;
    var e := I.Encode(|raw|, 7, first);
    assert data[pos..] == e + (raw + rest);
    assert data[pos] == data[pos..][0] == e[0];
    assert Pow2(7) == 128 by { Pow2Values(); }
    I.RoundTrip(data, pos, |raw|, 7, first);
    var p := pos + |e|;
    assert data[p..] == data[pos..][|e|..] == raw + rest;
    assert data[p..p + |raw|] == data[p..][..|raw|] == raw;
    assert data[p + |raw|..] == data[p..][|raw|..] == rest;
  }

  /** A string is read as its text; one whose codes are not whole bytes is refused. */
  lemma StringReads(data: seq<byte>, pos: nat, s: Str, rest: seq<byte>)
    requires StrOk(s) && pos <= |data| && data[pos..] == WriteStr(s) + rest
    ensures DecodeString(data, pos) == if TextOf(s).Some? then Text(s.text, pos + |WriteStr(s)|) else BadText
    ensures pos + |WriteStr(s)| <= |data| && data[pos + |WriteStr(s)|..] == rest
  {
    hide I.Encode, I.Decode, H.DecodeBits, H.EncodedBits, H.Padding, H.BytesToBits;
    FormPatterns();
    match s
    case Plain(text) => RawReads(data, pos, text, 0, rest);
    case Packed(text, bytes) =>
      RawReads(data, pos, bytes, 0x80, rest);
      PackedReads(text, bytes);
  }

  lemma IndexReads(data: seq<byte>, pos: nat, index: nat, f: Form, tail: seq<byte>)
    requires index < TWO_32 && I.PatternByte(Pattern(f), PrefixBits(f))
    requires pos <= |data| && data[pos..] == I.Encode(index, PrefixBits(f), Pattern(f)) + tail
    ensures var p := pos + |I.Encode(index, PrefixBits(f), Pattern(f))|;
      p <= |data| && I.Decode(data, pos, PrefixBits(f)) == I.Good(index, p) && data[p..] == tail
  {
    hide I.Encode, I.Decode, I.PatternByte, Pattern, PrefixBits;
    var e := I.Encode(index, PrefixBits(f), Pattern(f));
    I.RoundTrip(data, pos, index, PrefixBits(f), Pattern(f));
    assert data[pos + |e|..] == data[pos..][|e|..];
  }

  lemma ValueReads(name: seq<byte>, data: seq<byte>, pos: nat, value: Str, rest: seq<byte>)
    requires StrOk(value) && pos <= |data| && data[pos..] == WriteStr(value) + rest
    ensures pos + |WriteStr(value)| <= |data| && data[pos + |WriteStr(value)|..] == rest
    ensures DecodeValue(name, data, pos) ==
      if TextOf(value).None? then BadField else Field(Header(name, TextOf(value).value), pos + |WriteStr(value)|)
  {
    hide DecodeString, WriteStr, CodeBits, StrOk;
    StringReads(data, pos, value, rest);
  }

  lemma LiteralReads(t: Table, data: seq<byte>, pos: nat, f: Form, name: Name, value: Str, rest: seq<byte>)
    requires RepOk(Literal(f, name, value)) && pos <= |data| && data[pos..] == WriteRep(Literal(f, name, value)) + rest
    ensures var n := pos + |WriteRep(Literal(f, name, value))|;
      && n <= |data| && data[n..] == rest
      && DecodeLiteral(t, data, pos, PrefixBits(f)) ==
         match FieldOf(t, name, value) case None => BadField case Some(h) => Field(h, n)
  {
    hide I.Encode, I.Decode, I.PatternByte, DecodeString, DecodeValue, WriteStr, CodeBits, Lookup, Addressed, StrOk,
      Pattern, PrefixBits;
    FormPatterns();
    var e := I.Encode(NameIndex(name), PrefixBits(f), Pattern(f));
    var named, valued := WriteName(name), WriteStr(value);
    assert data[pos..] == e + (named + (valued + rest));
    IndexReads(data, pos, NameIndex(name), f, named + (valued + rest));
    var p := pos + |e|;
    match name {
      case NewName(s) =>
        StringReads(data, p, s, valued + rest);
        ValueReads(s.text, data, p + |named|, value, rest);
      case NameAt(i) =>
        LookupIsAddressed(t, i);
        assert named + (valued + rest) == valued + rest;
        ValueReads(if Addressed(t, i).Some? then Addressed(t, i).value.name else [], data, p, value, rest);
    }
  }

  /** How each form begins. */
  lemma FirstByte(r: Rep)
    requires RepOk(r)
    ensures var b := WriteRep(r)[0];
      match r
      case Indexed(_) => b >= 0x80
      case SizeUpdate(_) => 0x20 <= b < 0x40
      case Literal(f, _, _) => if f == Stored then 0x40 <= b < 0x80 else b < 0x20
  {
    hide I.Encode, WriteStr, WriteName;
    FormPatterns();
    Pow2Values();
  }

  lemma IndexedReads(t: Table, data: seq<byte>, pos: nat, i: nat, rest: seq<byte>)
    requires i < TWO_32 && pos <= |data| && data[pos..] == WriteRep(Indexed(i)) + rest
    ensures var n := pos + |WriteRep(Indexed(i))|;
      && n <= |data| && data[n..] == rest
      && DecodeBlock(t, data, pos) ==
         match Addressed(t, i) case None => BadBlock(t) case Some(h) => Cons(h, DecodeBlock(t, data, n))
  {
    hide I.Encode, I.Decode, Lookup, Addressed, DecodeLiteral;
    FormPatterns();
    FirstByte(Indexed(i));
    assert data[pos] == data[pos..][0];
    I.RoundTrip(data, pos, i, 7, 0x80);
    LookupIsAddressed(t, i);
    assert data[pos + |WriteRep(Indexed(i))|..] == data[pos..][|WriteRep(Indexed(i))|..];
  }

  lemma SizeReads(t: Table, data: seq<byte>, pos: nat, limit: nat, rest: seq<byte>)
    requires limit < TWO_32 && pos <= |data| && data[pos..] == WriteRep(SizeUpdate(limit)) + rest
    ensures var n := pos + |WriteRep(SizeUpdate(limit))|;
      n <= |data| && data[n..] == rest && DecodeBlock(t, data, pos) == DecodeBlock(Resize(t, limit), data, n)
  {
    hide I.Encode, I.Decode, DecodeBlock, Resize;
    FormPatterns();
    SizeUpdateTaken(t, data, pos, limit);
    assert data[pos + |WriteRep(SizeUpdate(limit))|..] == data[pos..][|WriteRep(SizeUpdate(limit))|..];
  }

  lemma FieldReads(t: Table, data: seq<byte>, pos: nat, f: Form, name: Name, value: Str, rest: seq<byte>)
    requires RepOk(Literal(f, name, value)) && pos <= |data| && data[pos..] == WriteRep(Literal(f, name, value)) + rest
    ensures var n := pos + |WriteRep(Literal(f, name, value))|;
      && n <= |data| && data[n..] == rest
      && DecodeBlock(t, data, pos) ==
         match FieldOf(t, name, value)
         case None => BadBlock(t)
         case Some(h) => Cons(h, DecodeBlock(if f == Stored then Insert(t, h) else t, data, n))
  {
    hide I.Decode, DecodeLiteral, WriteRep, FieldOf, Insert, RepOk;
    FirstByte(Literal(f, name, value));
    assert data[pos] == data[pos..][0];
    LiteralReads(t, data, pos, f, name, value, rest);
  }

  /** For every block in any forms: the decoder reads what it says, and has the table behind it. */
  lemma {:induction false} FormsRead(t: Table, data: seq<byte>, pos: nat, rs: seq<Rep>)
    requires pos <= |data| && data[pos..] == WriteAll(rs) && forall i :: 0 <= i < |rs| ==> RepOk(rs[i])
    ensures DecodeBlock(t, data, pos) == Says(t, rs)
    decreases |rs|
  {
    hide DecodeBlock, WriteRep, FieldOf, Addressed, Insert, Resize, RepOk;
    if rs == [] {
      EndOfBlock(t, data, pos);
    } else {
      assert RepOk(rs[0]);
      var rest := WriteAll(rs[1..]);
      match rs[0] {
        case Indexed(i) =>
          assert i < TWO_32 by { Ranges(rs[0]); }
          IndexedReads(t, data, pos, i, rest);
          FormsRead(t, data, pos + |WriteRep(rs[0])|, rs[1..]);
        case SizeUpdate(n) =>
          assert n < TWO_32 by { Ranges(rs[0]); }
          SizeReads(t, data, pos, n, rest);
          FormsRead(Resize(t, n), data, pos + |WriteRep(rs[0])|, rs[1..]);
        case Literal(f, name, value) =>
          FieldReads(t, data, pos, f, name, value, rest);
          if FieldOf(t, name, value).Some? {
            var h := FieldOf(t, name, value).value;
            FormsRead(if f == Stored then Insert(t, h) else t, data, pos + |WriteRep(rs[0])|, rs[1..]);
          }
      }
    }
  }

  lemma Ranges(r: Rep)
    requires RepOk(r)
    ensures r.Indexed? ==> r.index < TWO_32
    ensures r.SizeUpdate? ==> r.limit < TWO_32
  {
  }

  /** A whole block, however it was encoded. */
  lemma BlockReads(t: Table, rs: seq<Rep>)
    requires forall i :: 0 <= i < |rs| ==> RepOk(rs[i])
    ensures DecodeBlock(t, WriteAll(rs), 0) == Says(t, rs)
  {
    hide DecodeBlock, WriteAll, Says, RepOk;
    assert WriteAll(rs)[0..] == WriteAll(rs);
    FormsRead(t, WriteAll(rs), 0, rs);
  }

  // ---------------------------------------------------------------- an example

  lemma CodesOf302()
    ensures CodeBits([51, 48, 50]) == H.BytesToBits([0x64, 0x02]) && |H.BytesToBits([0x64, 0x02])| == 16
  {
    var table := HT.RfcTable();
    assert table[51] == H.HuffmanCode(0x19, 6) && table[48] == H.HuffmanCode(0, 5) && table[50] == H.HuffmanCode(2, 5) by {
      assert HT.CodeEntry(51) == HT.CodeAt(3, 3) && HT.CodeEntry(48) == HT.CodeAt(3, 0) && HT.CodeEntry(50) == HT.CodeAt(3, 2);
    }
    hide HT.RfcTable;
    var three, zero, two := H.LowBits(0x19, 6), H.LowBits(0, 5), H.LowBits(2, 5);
    assert three == [false, true, true, false, false, true] by { SixBits(); }
    assert zero == [false, false, false, false, false] && two == [false, false, false, true, false] by { FiveBits(); }
    assert H.EncodedBits(table, [50]) == two + [] by { assert [50][1..] == []; }
    assert H.EncodedBits(table, [48, 50]) == zero + two by { assert [48, 50][1..] == [50]; }
    assert H.EncodedBits(table, [51, 48, 50]) == three + (zero + two) by { assert [51, 48, 50][1..] == [48, 50]; }
    var a, b := H.LowBits(0x64, 8), H.LowBits(0x02, 8);
    assert a == [false, true, true, false, false, true, false, false] && b == [false, false, false, false, false, false, true, false] by { EightBits(); }
    assert H.BytesToBits([0x02]) == b by { assert [0x02][1..] == [] && b + [] == b; }
    assert H.BytesToBits([0x64, 0x02]) == a + b by { assert [0x64, 0x02][1..] == [0x02]; }
  }

  lemma FiveBits()
    ensures H.LowBits(0, 5) == [false, false, false, false, false]
    ensures H.LowBits(2, 5) == [false, false, false, true, false]
  {
    assert H.LowBits(0, 3) == [false, false, false];
    assert H.LowBits(1, 4) == [false, false, false, true];
  }

  lemma SixBits()
    ensures H.LowBits(0x19, 6) == [false, true, true, false, false, true]
  {
    assert H.LowBits(3, 3) == [false, true, true];
    assert H.LowBits(0xc, 5) == [false, true, true, false, false];
  }

  lemma EightBits()
    ensures H.LowBits(0x64, 8) == [false, true, true, false, false, true, false, false]
    ensures H.LowBits(0x02, 8) == [false, false, false, false, false, false, true, false]
  {
    SixBits();
    assert H.LowBits(0x32, 7) == [false, true, true, false, false, true, false];
    FiveBits();
    assert H.LowBits(0, 6) == [false, false, false, false, false, false];
    assert H.LowBits(1, 7) == [false, false, false, false, false, false, true];
  }

  function Found(): Rep { Literal(Stored, NameAt(8), Packed([51, 48, 50], [0x64, 0x02])) }

  lemma FoundOk()
    ensures RepOk(Found()) && TextOf(Found().value) == Some([51, 48, 50])
  {
    hide CodeBits, H.BytesToBits;
    CodesOf302();
    assert H.Ones(0) == [] && CodeBits([51, 48, 50]) + [] == CodeBits([51, 48, 50]);
  }

  lemma FoundWritten()
    ensures WriteAll([Found()]) == [0x48, 0x82, 0x64, 0x02]
  {
    hide I.EncodeTail;
    Pow2Values();
    FormPatterns();
    assert WriteStr(Found().value) == [0x82, 0x64, 0x02];
    assert WriteRep(Found()) == [0x48] + [0x82, 0x64, 0x02];
    assert [Found()][1..] == [];
  }

  lemma EighthIsStatus(t: Table)
    ensures Addressed(t, 8) == Some(Entry(":status", "200"))
  {
    assert |StaticOne()| == 14 && StaticOne()[7] == Entry(":status", "200");
    assert (StaticTable() + t.entries)[7] == StaticOne()[7];
  }

  /** The bytes 48 82 64 02 say that the status is 302, and store it, at a size of 42 (appendix C.6.1). */
  lemma StatusFound(t: Table)
    ensures var h := Entry(":status", "302");
      DecodeBlock(t, [0x48, 0x82, 0x64, 0x02], 0) == Block([h], Insert(t, h)) && EntrySize(h) == 42
  {
    hide DecodeBlock, Insert, Addressed, TextOf, WriteAll, RepOk;
    FoundOk();
    FoundWritten();
    BlockReads(t, [Found()]);
    EighthIsStatus(t);
    var h := Entry(":status", "302");
    assert h == Header(Entry(":status", "200").name, [51, 48, 50]);
    assert FieldOf(t, Found().name, Found().value) == Some(h);
    assert [Found()][1..] == [] && Says(Insert(t, h), []) == Block([], Insert(t, h));
  }

  // ---------------------------------------------------------------- the forms the encoder uses

  /**
   Of all the forms, the shortest that the static table allows: the index of the first entry that is the header,
   or else a stored literal with the index of the first entry that has its name, or else one with both strings plain.
   */
  ghost predicate Chosen(h: Header, r: Rep)
  {
    match r
    case Indexed(i) => IsSearchResult(StaticTable(), h, Exact(i))
    case Literal(form, NameAt(i), value) =>
      form == Stored && value == Plain(h.value) && IsSearchResult(StaticTable(), h, NameOnly(i))
    case Literal(form, NewName(name), value) =>
      form == Stored && name == Plain(h.name) && value == Plain(h.value) && IsSearchResult(StaticTable(), h, NotFound)
    case SizeUpdate(_) => false
  }

  lemma HeaderChosen(h: Header) returns (r: Rep)
    ensures Chosen(h, r) && EncodeHeader(h) == WriteRep(r)
  {
    hide StaticTable, IsSearchResult;
    FindFromIsSearch(StaticTable(), h, 0, 0);
    match FindStatic(h)
    case Exact(k) => r := Indexed(k);
    case NameOnly(k) =>
      r := Literal(Stored, NameAt(k), Plain(h.value));
      assert [] + EncodeString(h.value) == EncodeString(h.value);
    case NotFound =>
      r := Literal(Stored, NewName(Plain(h.name)), Plain(h.value));
      assert I.Encode(0, 6, 0x40) == [0x40] by { NoIndex(); }
      assert [0x40] + EncodeString(h.name) + EncodeString(h.value) == [0x40] + (EncodeString(h.name) + EncodeString(h.value));
  }

  lemma NoIndex()
    ensures I.PatternByte(0x40, 6) && I.Encode(0, 6, 0x40) == [0x40]
  {
    Pow2Values();
  }

  /** Whatever block is encoded, each header stands in it in its chosen form, in order. */
  lemma {:induction false} BlockChosen(hs: seq<Header>) returns (rs: seq<Rep>)
    ensures |rs| == |hs| && (forall i :: 0 <= i < |hs| ==> Chosen(hs[i], rs[i]))
    ensures EncodeBlock(hs) == WriteAll(rs)
  {
    hide Chosen, EncodeHeader, WriteRep;
    rs := [];
    if hs != [] {
      var r := HeaderChosen(hs[0]);
      var rest := BlockChosen(hs[1..]);
      rs := [r] + rest;
      assert rs[1..] == rest;
    }
  }
}
