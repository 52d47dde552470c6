/**
 Header blocks of HPACK (section 6 of RFC 7541): what the encoder writes, what the decoder
 reads, the loops that do so, and the end-to-end round trip.
 */
module Hpack {
  import opened Bytes
  import opened HpackTable
  import Int = HpackInteger
  import Huffman = HpackHuffman
  import HuffmanTable = HpackHuffmanTable

  function Entry(name: string, value: string): Header { Header(Ascii(name), Ascii(value)) }

  /** Appendix A of RFC 7541. */
  function StaticTable(): seq<Header> { StaticOne() + StaticTwo() + StaticThree() + StaticFour() }

  function StaticOne(): seq<Header>
  {
    [Entry(":authority", ""), Entry(":method", "GET"), Entry(":method", "POST"), Entry(":path", "/"),
     Entry(":path", "/index.html"), Entry(":scheme", "http"), Entry(":scheme", "https"),
     Entry(":status", "200"), Entry(":status", "204"), Entry(":status", "206"), Entry(":status", "304"),
     Entry(":status", "400"), Entry(":status", "404"), Entry(":status", "500")]
  }

  function StaticTwo(): seq<Header>
  {
    [Entry("accept-charset", ""), Entry("accept-encoding", "gzip, deflate"), Entry("accept-language", ""),
     Entry("accept-ranges", ""), Entry("accept", ""), Entry("access-control-allow-origin", ""),
     Entry("age", ""), Entry("allow", ""), Entry("authorization", ""), Entry("cache-control", ""),
     Entry("content-disposition", ""), Entry("content-encoding", ""), Entry("content-language", ""),
     Entry("content-length", ""), Entry("content-location", "")]
  }

  function StaticThree(): seq<Header>
  {
    [Entry("content-range", ""), Entry("content-type", ""), Entry("cookie", ""), Entry("date", ""),
     Entry("etag", ""), Entry("expect", ""), Entry("expires", ""), Entry("from", ""), Entry("host", ""),
     Entry("if-match", ""), Entry("if-modified-since", ""), Entry("if-none-match", ""), Entry("if-range", ""),
     Entry("if-unmodified-since", ""), Entry("last-modified", ""), Entry("link", "")]
  }

  function StaticFour(): seq<Header>
  {
    [Entry("location", ""), Entry("max-forwards", ""), Entry("proxy-authenticate", ""),
     Entry("proxy-authorization", ""), Entry("range", ""), Entry("referer", ""), Entry("refresh", ""),
     Entry("retry-after", ""), Entry("server", ""), Entry("set-cookie", ""),
     Entry("strict-transport-security", ""), Entry("transfer-encoding", ""), Entry("user-agent", ""),
     Entry("vary", ""), Entry("via", ""), Entry("www-authenticate", "")]
  }

  lemma StaticSize()
    ensures |StaticTable()| == 61
  {
  }

  // ---------------------------------------------------------------- searching the static table

  /** What `strcmp` sees of a string: the bytes before the first NUL. */
  function CStr(s: seq<byte>): (r: seq<byte>)
    ensures r <= s && (r == s <==> 0 !in s)
  {
    if s == [] || s[0] == 0 then [] else
      var r := CStr(s[1..]);
      assert s == [s[0]] + s[1..];
      [s[0]] + r
  }

  predicate NameMatches(e: Header, h: Header) { e.name == CStr(h.name) }

  predicate FullMatch(e: Header, h: Header) { NameMatches(e, h) && e.value == CStr(h.value) }

  /** Result of the search; indices count from 1. */
  datatype Found = NotFound | NameOnly(index: nat) | Exact(index: nat)

  /** The first entry that matches fully; failing that, the first whose name matches. */
  ghost predicate IsSearchResult(table: seq<Header>, h: Header, f: Found)
  {
    match f
    case NotFound => forall i :: 0 <= i < |table| ==> !NameMatches(table[i], h)
    case NameOnly(k) =>
      && 1 <= k <= |table| && NameMatches(table[k - 1], h)
      && (forall i :: 0 <= i < |table| ==> !FullMatch(table[i], h))
      && (forall i :: 0 <= i < k - 1 ==> !NameMatches(table[i], h))
    case Exact(k) =>
      && 1 <= k <= |table| && FullMatch(table[k - 1], h)
      && (forall i :: 0 <= i < k - 1 ==> !FullMatch(table[i], h))
  }

  /** The search resumed at entry `i`, having seen the first name match `name` (0 if none). */
  function FindFrom(table: seq<Header>, h: Header, i: nat, name: nat): Found
    requires i <= |table|
    decreases |table| - i
  {
    if i == |table| then
      if name > 0 then NameOnly(name) else NotFound
    else if FullMatch(table[i], h) then Exact(i + 1)
    else FindFrom(table, h, i + 1, if name == 0 && NameMatches(table[i], h) then i + 1 else name)
  }

  function FindStatic(h: Header): Found { FindFrom(StaticTable(), h, 0, 0) }

  lemma {:induction false} FindFromIsSearch(table: seq<Header>, h: Header, i: nat, name: nat)
    requires i <= |table| && name <= i
    requires forall j :: 0 <= j < i ==> !FullMatch(table[j], h)
    requires if name == 0 then forall j :: 0 <= j < i ==> !NameMatches(table[j], h)
             else NameMatches(table[name - 1], h) && forall j :: 0 <= j < name - 1 ==> !NameMatches(table[j], h)
    ensures IsSearchResult(table, h, FindFrom(table, h, i, name))
    decreases |table| - i
  {
    hide CStr;
    if i < |table| && !FullMatch(table[i], h) {
      FindFromIsSearch(table, h, i + 1, if name == 0 && NameMatches(table[i], h) then i + 1 else name);
    }
  }

  /** The source's single pass over the static table. */
  method FindStaticIndex(h: Header) returns (f: Found)
    ensures f == FindStatic(h) && IsSearchResult(StaticTable(), h, f)
  {
    hide StaticTable;
    var table := StaticTable();
    var nameIndex := 0;
    var i := 0;
    FindFromIsSearch(table, h, 0, 0);
    while i < |table|
      invariant 0 <= i <= |table| && 0 <= nameIndex
      invariant FindStatic(h) == FindFrom(table, h, i, nameIndex)
    {
      if table[i].name == CStr(h.name) {
        if nameIndex == 0 { nameIndex := i + 1; }
        if table[i].value == CStr(h.value) {
          return Exact(i + 1);
        }
      }
      i := i + 1;
    }
    f := if nameIndex > 0 then NameOnly(nameIndex) else NotFound;
  }

  // ---------------------------------------------------------------- specification of the encoder

  /** Lengths are cast to 32 bits before they are written. */
  predicate Sized(h: Header) { |h.name| < TWO_32 && |h.value| < TWO_32 }

  function EncodeString(s: seq<byte>): seq<byte>
  {
    Int.Encode(|s|, 7, 0) + s
  }

  function EncodeHeader(h: Header): (r: seq<byte>)
    ensures |r| >= 1
  {
    Patterns();
    match FindStatic(h)
    case Exact(k) => Int.Encode(k, 7, 0x80)
    case NameOnly(k) => Int.Encode(k, 6, 0x40) + EncodeString(h.value)
    case NotFound => [0x40] + EncodeString(h.name) + EncodeString(h.value)
  }

  lemma Patterns()
    ensures Int.PatternByte(0x80, 7) && Int.PatternByte(0, 7) && Int.PatternByte(0x40, 6)
  {
    Pow2Values();
  }

  function EncodeBlock(hs: seq<Header>): seq<byte>
  {
    if hs == [] then [] else EncodeHeader(hs[0]) + EncodeBlock(hs[1..])
  }

  /** Every header that is not fully in the static table is added to the dynamic one. */
  function TableAfter(t: Table, hs: seq<Header>): Table
    decreases |hs|
  {
    if hs == [] then t
    else TableAfter(if FindStatic(hs[0]).Exact? then t else Insert(t, hs[0]), hs[1..])
  }

  // ---------------------------------------------------------------- specification of the decoder

  datatype Text = BadText | Text(text: seq<byte>, pos: nat)

  ghost function DecodeString(data: seq<byte>, pos: nat): (r: Text)
    ensures r.Text? ==> pos < r.pos <= |data|
  {
    if pos >= |data| then BadText
    else
      var d := Int.Decode(data, pos, 7);
      if d.Bad? || d.pos + d.value > |data| then BadText
      else
        var raw := data[d.pos..d.pos + d.value];
        if data[pos] >= 0x80 then
          match Huffman.DecodeBits(HuffmanTable.RfcTable(), [], Huffman.BytesToBits(raw))
          case None => BadText
          case Some(s) => Text(s, d.pos + d.value)
        else Text(raw, d.pos + d.value)
  }

  /** Indices count the static entries first, then the dynamic ones, newest first. */
  function Lookup(t: Table, index: nat): Option<Header>
  {
    if index == 0 then None
    else if index <= |StaticTable()| then Some(StaticTable()[index - 1])
    else if index - |StaticTable()| - 1 < |t.entries| then Some(t.entries[index - |StaticTable()| - 1])
    else None
  }

  datatype Field = BadField | Field(header: Header, pos: nat)

  ghost function DecodeLiteral(t: Table, data: seq<byte>, pos: nat, prefixBits: nat): (r: Field)
    requires 1 <= prefixBits <= 7
    ensures r.Field? ==> pos < r.pos <= |data|
  {
    hide Int.Decode, DecodeString, DecodeValue, Lookup;
    var d := Int.Decode(data, pos, prefixBits);
    if d.Bad? then BadField
    else if d.value == 0 then
      var name := DecodeString(data, d.pos);
      if name.BadText? then BadField else DecodeValue(name.text, data, name.pos)
    else
      match Lookup(t, d.value)
      case None => BadField
      case Some(e) => DecodeValue(e.name, data, d.pos)
  }

  ghost function DecodeValue(name: seq<byte>, data: seq<byte>, pos: nat): (r: Field)
    ensures r.Field? ==> pos < r.pos <= |data|
  {
    var value := DecodeString(data, pos);
    if value.BadText? then BadField else Field(Header(name, value.text), value.pos)
  }

  /** The table is part of the result either way: a refused block has already changed it. */
  datatype Block = BadBlock(table: Table) | Block(headers: seq<Header>, table: Table)

  ghost function Cons(h: Header, rest: Block): Block
  {
    match rest case BadBlock(_) => rest case Block(hs, t) => Block([h] + hs, t)
  }

  ghost function DecodeBlock(t: Table, data: seq<byte>, pos: nat): Block
    decreases |data| - pos
  {
    if pos >= |data| then Block([], t)
    else if data[pos] >= 0x80 then
      var d := Int.Decode(data, pos, 7);
      if d.Bad? then BadBlock(t)
      else
        match Lookup(t, d.value)
        case None => BadBlock(t)
        case Some(h) => Cons(h, DecodeBlock(t, data, d.pos))
    else if data[pos] >= 0x40 then
      var f := DecodeLiteral(t, data, pos, 6);
      if f.BadField? then BadBlock(t)
      else Cons(f.header, DecodeBlock(Insert(t, f.header), data, f.pos))
    else if data[pos] >= 0x20 then
      var d := Int.Decode(data, pos, 5);
      if d.Bad? then BadBlock(t) else DecodeBlock(Resize(t, d.value), data, d.pos)
    else
      var f := DecodeLiteral(t, data, pos, 4);
      if f.BadField? then BadBlock(t) else Cons(f.header, DecodeBlock(t, data, f.pos))
  }

  // ---------------------------------------------------------------- round trip

  /** What the peer reads back: `strcmp` loses everything behind a NUL in a matched string. */
  function Canon(h: Header): Header
  {
    match FindStatic(h)
    case Exact(_) => Header(CStr(h.name), CStr(h.value))
    case NameOnly(_) => Header(CStr(h.name), h.value)
    case NotFound => h
  }

  /** No NUL in a string that was matched against the static table. */
  predicate NulSafe(h: Header)
  {
    match FindStatic(h)
    case Exact(_) => 0 !in h.name && 0 !in h.value
    case NameOnly(_) => 0 !in h.name
    case NotFound => true
  }

  function CanonAll(hs: seq<Header>): (r: seq<Header>)
    ensures |r| == |hs| && forall i :: 0 <= i < |hs| ==> r[i] == Canon(hs[i])
  {
    if hs == [] then [] else [Canon(hs[0])] + CanonAll(hs[1..])
  }

  /** The decoder inserts what it read. */
  function DecoderTableAfter(t: Table, hs: seq<Header>): Table
    decreases |hs|
  {
    if hs == [] then t
    else DecoderTableAfter(if FindStatic(hs[0]).Exact? then t else Insert(t, Canon(hs[0])), hs[1..])
  }

  /** A size update is taken whatever it asks for; no setting bounds it, as section 6.3 of RFC 7541 wants. */
  lemma SizeUpdateTaken(t: Table, data: seq<byte>, pos: nat, limit: nat)
    requires pos <= |data| && limit < TWO_32 && Int.PatternByte(0x20, 5) && Int.Encode(limit, 5, 0x20) <= data[pos..]
    ensures DecodeBlock(t, data, pos) == DecodeBlock(Resize(t, limit), data, pos + |Int.Encode(limit, 5, 0x20)|)
  {
    hide Int.Encode, Int.Decode;
    var e := Int.Encode(limit, 5, 0x20);
    assert data[pos] == data[pos..][0] == e[0];
    Pow2Values();
    Int.RoundTrip(data, pos, limit, 5, 0x20);
  }

  lemma StringRoundTrip(data: seq<byte>, pos: nat, s: seq<byte>, rest: seq<byte>)
    requires pos <= |data| && data[pos..] == EncodeString(s) + rest && |s| < TWO_32
    ensures var n := pos + |EncodeString(s)|;
            n <= |data| && DecodeString(data, pos) == Text(s, n) && data[n..] == rest
  {
    hide Int.Encode, Int.Decode;
    Patterns();
    var e := Int.Encode(|s|, 7, 0);
    assert data[pos..] == e + (s + rest);
    assert data[pos] == data[pos..][0] == e[0];
    Pow2Values();
    Int.RoundTrip(data, pos, |s|, 7, 0);
    var p := pos + |e|;
    assert data[p..] == data[pos..][|e|..] == s + rest;
    assert data[p..p + |s|] == data[p..][..|s|] == s;
  }

  /** What reading one encoded header does: its canonical form, and the table the decoder then has. */
  ghost predicate ReadsHeader(t: Table, data: seq<byte>, pos: nat, h: Header)
  {
    var n := pos + |EncodeHeader(h)|;
    && n <= |data|
    && DecodeBlock(t, data, pos) ==
       Cons(Canon(h), DecodeBlock(if FindStatic(h).Exact? then t else Insert(t, Canon(h)), data, n))
  }

  lemma IndexedRoundTrip(t: Table, data: seq<byte>, pos: nat, h: Header)
    requires FindStatic(h).Exact?
    requires pos <= |data| && EncodeHeader(h) <= data[pos..]
    ensures ReadsHeader(t, data, pos, h)
  {
    hide StaticTable, FindFrom, CStr, Int.Encode, Int.Decode, DecodeLiteral;
    StaticSize();
    FindFromIsSearch(StaticTable(), h, 0, 0);
    Patterns();
    Pow2Values();
    var k := FindStatic(h).index;
    assert data[pos] == data[pos..][0];
    Int.RoundTrip(data, pos, k, 7, 0x80);
    assert Lookup(t, k) == Some(Canon(h));
  }

  lemma NamedRoundTrip(t: Table, data: seq<byte>, pos: nat, h: Header, rest: seq<byte>)
    requires FindStatic(h).NameOnly? && Sized(h)
    requires pos <= |data| && data[pos..] == EncodeHeader(h) + rest
    ensures ReadsHeader(t, data, pos, h)
  {
    hide StaticTable, FindFrom, CStr, Int.Encode, Int.Decode, DecodeString, DecodeBlock, EncodeString;
    StaticSize();
    FindFromIsSearch(StaticTable(), h, 0, 0);
    Patterns();
    Pow2Values();
    var k := FindStatic(h).index;
    var i := Int.Encode(k, 6, 0x40);
    assert data[pos..] == i + (EncodeString(h.value) + rest);
    assert data[pos] == data[pos..][0];
    Int.RoundTrip(data, pos, k, 6, 0x40);
    assert data[pos + |i|..] == data[pos..][|i|..] == EncodeString(h.value) + rest;
    StringRoundTrip(data, pos + |i|, h.value, rest);
    assert DecodeLiteral(t, data, pos, 6) == Field(Canon(h), pos + |EncodeHeader(h)|);
    LiteralStep(t, data, pos);
  }

  lemma NewNameRoundTrip(t: Table, data: seq<byte>, pos: nat, h: Header, rest: seq<byte>)
    requires FindStatic(h).NotFound? && Sized(h)
    requires pos <= |data| && data[pos..] == EncodeHeader(h) + rest
    ensures ReadsHeader(t, data, pos, h)
  {
    hide StaticTable, FindFrom, CStr, Int.Encode, Int.Decode, DecodeString, DecodeBlock, EncodeString;
    var name, value := EncodeString(h.name), EncodeString(h.value);
    assert data[pos..] == [0x40] + name + value + rest;
    assert data[pos] == data[pos..][0] == 0x40;
    LiteralZero(data, pos);
    assert data[pos + 1..] == data[pos..][1..] == name + (value + rest);
    StringRoundTrip(data, pos + 1, h.name, value + rest);
    StringRoundTrip(data, pos + 1 + |name|, h.value, rest);
    assert DecodeLiteral(t, data, pos, 6) == Field(h, pos + |EncodeHeader(h)|);
    LiteralStep(t, data, pos);
  }

  lemma LiteralStep(t: Table, data: seq<byte>, pos: nat)
    requires pos < |data| && 0x40 <= data[pos] < 0x80 && DecodeLiteral(t, data, pos, 6).Field?
    ensures var f := DecodeLiteral(t, data, pos, 6);
            DecodeBlock(t, data, pos) == Cons(f.header, DecodeBlock(Insert(t, f.header), data, f.pos))
  {
  }

  lemma LiteralZero(data: seq<byte>, pos: nat)
    requires pos < |data| && data[pos] == 0x40
    ensures Int.Decode(data, pos, 6) == Int.Good(0, pos + 1)
  {
    Pow2Values();
  }

  lemma {:induction false} BlockRoundTrip(t: Table, data: seq<byte>, pos: nat, hs: seq<Header>)
    requires pos <= |data| && data[pos..] == EncodeBlock(hs)
    requires forall i :: 0 <= i < |hs| ==> Sized(hs[i])
    ensures DecodeBlock(t, data, pos) == Block(CanonAll(hs), DecoderTableAfter(t, hs))
    decreases |hs|
  {
    hide EncodeHeader, DecodeBlock, FindStatic, Canon;
    if hs == [] {
      EndOfBlock(t, data, pos);
    } else {
      var h, rest := hs[0], EncodeBlock(hs[1..]);
      var n := pos + |EncodeHeader(h)|;
      assert EncodeHeader(h) <= data[pos..];
      match FindStatic(h) {
        case Exact(_) => IndexedRoundTrip(t, data, pos, h);
        case NameOnly(_) => NamedRoundTrip(t, data, pos, h, rest);
        case NotFound => NewNameRoundTrip(t, data, pos, h, rest);
      }
      assert data[n..] == data[pos..][|EncodeHeader(h)|..] == rest;
      BlockRoundTrip(if FindStatic(h).Exact? then t else Insert(t, Canon(h)), data, n, hs[1..]);
    }
  }

  lemma EndOfBlock(t: Table, data: seq<byte>, pos: nat)
    requires pos >= |data|
    ensures DecodeBlock(t, data, pos) == Block([], t)
  {
  }

  lemma CanonIsIdentityIffNulSafe(h: Header)
    ensures Canon(h) == h <==> NulSafe(h)
  {
  }

  /**
   For every list of headers and every decoder table, decoding the encoded block succeeds and
   gives back exactly the list, if and only if no matched string hides a NUL.
   */
  lemma EndToEnd(t: Table, hs: seq<Header>)
    requires forall i :: 0 <= i < |hs| ==> Sized(hs[i])
    ensures DecodeBlock(t, EncodeBlock(hs), 0).Block?
    ensures DecodeBlock(t, EncodeBlock(hs), 0).headers == hs <==> forall i :: 0 <= i < |hs| ==> NulSafe(hs[i])
  {
    hide EncodeBlock, DecodeBlock, FindStatic, Canon, NulSafe;
    var data := EncodeBlock(hs);
    assert data[0..] == data;
    BlockRoundTrip(t, data, 0, hs);
    forall i | 0 <= i < |hs|
      ensures CanonAll(hs)[i] == hs[i] <==> NulSafe(hs[i])
    {
      CanonIsIdentityIffNulSafe(hs[i]);
    }
  }

  /** Headers without any NUL are always safe. */
  lemma NulFreeIsSafe(h: Header)
    requires 0 !in h.name && 0 !in h.value
    ensures NulSafe(h)
  {
  }

  /** The promise fails for a name that only starts like a static one. */
  lemma NulInNameIsLost(t: Table)
    ensures var h := Header(Ascii("age") + [0], []);
            DecodeBlock(t, EncodeBlock([h]), 0).Block? && DecodeBlock(t, EncodeBlock([h]), 0).headers != [h]
  {
    hide StaticTable;
    var h := Header(Ascii("age") + [0], []);
    CStrStopsAtNul(Ascii("age"));
    AgeIsStatic();
    FindFromIsSearch(StaticTable(), h, 0, 0);
    assert NameMatches(StaticTable()[20], h);
    assert h.name[3] == 0;
    assert !NulSafe(h);
    EndToEnd(t, [h]);
  }

  lemma {:induction false} CStrStopsAtNul(s: seq<byte>)
    requires 0 !in s
    ensures CStr(s + [0]) == s
  {
    if s != [] {
      assert (s + [0])[1..] == s[1..] + [0];
      CStrStopsAtNul(s[1..]);
    }
  }

  lemma AgeIsStatic()
    ensures |StaticTable()| == 61 && StaticTable()[20] == Entry("age", "")
  {
  }

  // ---------------------------------------------------------------- lockstep of a pair

  lemma {:induction false} TablesStayEqual(t: Table, hs: seq<Header>)
    requires forall i :: 0 <= i < |hs| ==> NulSafe(hs[i])
    ensures DecoderTableAfter(t, hs) == TableAfter(t, hs)
    decreases |hs|
  {
    if hs != [] {
      CanonIsIdentityIffNulSafe(hs[0]);
      TablesStayEqual(if FindStatic(hs[0]).Exact? then t else Insert(t, hs[0]), hs[1..]);
    }
  }

  /** One exchange between an encoder and a decoder, or the same resize at both. */
  datatype Exchange = Send(headers: seq<Header>) | ResizeBoth(limit: nat)

  ghost predicate Transmittable(x: Exchange)
  {
    x.Send? ==> forall i :: 0 <= i < |x.headers| ==> Sized(x.headers[i]) && NulSafe(x.headers[i])
  }

  function EncoderStep(t: Table, x: Exchange): Table
  {
    match x case Send(hs) => TableAfter(t, hs) case ResizeBoth(n) => Resize(t, n)
  }

  /** The decoder's table after reading what the encoder wrote, if it could read it. */
  ghost function DecoderStep(t: Table, x: Exchange): Option<(seq<Header>, Table)>
  {
    match x
    case ResizeBoth(n) => Some(([], Resize(t, n)))
    case Send(hs) =>
      var b := DecodeBlock(t, EncodeBlock(hs), 0);
      if b.BadBlock? then None else Some((b.headers, b.table))
  }

  function EncoderRun(t: Table, xs: seq<Exchange>): Table
    decreases |xs|
  {
    if xs == [] then t else EncoderRun(EncoderStep(t, xs[0]), xs[1..])
  }

  /** All headers delivered over the run and the table at its end. */
  ghost function DecoderRun(t: Table, xs: seq<Exchange>): Option<(seq<Header>, Table)>
    decreases |xs|
  {
    if xs == [] then Some(([], t))
    else
      match DecoderStep(t, xs[0])
      case None => None
      case Some((hs, t')) =>
        match DecoderRun(t', xs[1..])
        case None => None
        case Some((more, final)) => Some((hs + more, final))
  }

  function Sent(xs: seq<Exchange>): seq<Header>
  {
    if xs == [] then []
    else (if xs[0].Send? then xs[0].headers else []) + Sent(xs[1..])
  }

  /**
   An encoder and a decoder that start with equal tables keep equal tables over any sequence
   of blocks and resizes, and the decoder delivers exactly the headers that were sent.
   */
  lemma {:induction false} Lockstep(t: Table, xs: seq<Exchange>)
    requires forall i :: 0 <= i < |xs| ==> Transmittable(xs[i])
    ensures DecoderRun(t, xs) == Some((Sent(xs), EncoderRun(t, xs)))
    decreases |xs|
  {
    if xs != [] {
      if xs[0].Send? {
        var hs := xs[0].headers;
        assert Transmittable(xs[0]);
        BlockRoundTrip(t, EncodeBlock(hs), 0, hs);
        EndToEnd(t, hs);
        TablesStayEqual(t, hs);
        assert DecoderStep(t, xs[0]) == Some((hs, EncoderStep(t, xs[0])));
      }
      Lockstep(EncoderStep(t, xs[0]), xs[1..]);
    }
  }
}
