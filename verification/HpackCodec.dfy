/** The encoder and decoder objects: loops over headers and bytes around a dynamic table edited in place. */
module HpackCodec {
  import opened Bytes
  import opened HpackTable
  import opened Hpack
  import Int = HpackInteger
  import Huffman = HpackHuffman
  import HuffmanTable = HpackHuffmanTable
  import Trie = HpackTrie

  class HpackEncoder {
    const table: DynamicTable

    constructor ()
      ensures fresh(table) && table.View() == Empty(DEFAULT_LIMIT)
    {
      table := new DynamicTable();
    }

    method Encode(headers: seq<Header>) returns (out: seq<byte>)
      modifies table
      ensures out == EncodeBlock(headers)
      ensures table.View() == TableAfter(old(table.View()), headers)
    {
      hide FindStatic, EncodeHeader;
      out := [];
      for i := 0 to |headers|
        invariant out + EncodeBlock(headers[i..]) == EncodeBlock(headers)
        invariant TableAfter(table.View(), headers[i..]) == TableAfter(old(table.View()), headers)
      {
        var h := headers[i];
        assert headers[i..][0] == h && headers[i..][1..] == headers[i + 1..];
        var bytes, add := EncodeField(h);
        if add { table.AddToDynamicTable(h); }
        out := out + bytes;
      }
    }
  }

  /** One header: an index, or a literal that will be added to the table. */
  method EncodeField(h: Header) returns (out: seq<byte>, add: bool)
    ensures out == EncodeHeader(h) && add == !FindStatic(h).Exact?
  {
    hide FindFrom, Int.Encode, StaticTable, IsSearchResult, EncodeString;
    Patterns();
    var f := FindStaticIndex(h);
    match f
    case Exact(k) =>
      out := Int.EncodeInteger([], k, 7, 0x80);
      add := false;
    case NameOnly(k) =>
      out := Int.EncodeInteger([], k, 6, 0x40);
      out := AppendString(out, h.value);
      add := true;
    case NotFound =>
      out := AppendString([0x40], h.name);
      out := AppendString(out, h.value);
      add := true;
  }

  method AppendString(out: seq<byte>, s: seq<byte>) returns (r: seq<byte>)
    ensures r == out + EncodeString(s)
  {
    hide Int.Encode;
    Patterns();
    r := Int.EncodeInteger(out, |s|, 7, 0);
    r := r + s;
  }

  ghost function ConsAll(hs: seq<Header>, rest: Block): Block
  {
    match rest case BadBlock(_) => rest case Block(more, t) => Block(hs + more, t)
  }

  lemma ConsSnoc(hs: seq<Header>, h: Header, rest: Block)
    ensures ConsAll(hs, Cons(h, rest)) == ConsAll(hs + [h], rest)
  {
    if rest.Block? { assert hs + ([h] + rest.headers) == hs + [h] + rest.headers; }
  }

  class HpackDecoder {
    const table: DynamicTable
    const nodes: seq<Trie.Node>
    ghost const index: Trie.Index

    ghost predicate Valid()
    {
      Trie.IsTrie(nodes, index, HuffmanTable.RfcTable())
    }

    constructor ()
      ensures Valid() && fresh(table) && table.View() == Empty(DEFAULT_LIMIT)
    {
      HuffmanTable.TableIsGood();
      table := new DynamicTable();
      var tree;
      ghost var paths;
      tree, paths := Trie.BuildTree(HuffmanTable.RfcTable());
      nodes, index := tree, paths;
    }

    method ReadString(data: seq<byte>, pos: nat) returns (ok: bool, text: seq<byte>, next: nat)
      requires Valid()
      ensures DecodeString(data, pos) == if ok then Text(text, next) else BadText
    {
      hide Huffman.DecodeBits, Huffman.GoodTable, HuffmanTable.RfcTable, Int.Decode, Huffman.BytesToBits;
      ok, text, next := false, [], pos;
      if pos >= |data| { return; }
      var good, length, p := Int.DecodeInteger(data, pos, 7);
      if !good || p + length > |data| { return; }
      var raw := data[p..p + length];
      next := p + length;
      if data[pos] >= 0x80 {
        HuffmanTable.TableIsGood();
        ok, text := Trie.Decode(nodes, index, HuffmanTable.RfcTable(), raw);
      } else {
        ok, text := true, raw;
      }
    }

    method LookupIndex(i: nat) returns (h: Option<Header>)
      ensures h == Lookup(table.View(), i)
    {
      hide StaticTable;
      if i == 0 { return None; }
      var fixed := StaticTable();
      if i <= |fixed| { return Some(fixed[i - 1]); }
      var dyn := i - |fixed| - 1;
      if dyn >= |table.entries| { return None; }
      h := Some(table.entries[dyn]);
    }

    method ReadLiteral(data: seq<byte>, pos: nat, prefixBits: nat) returns (f: Field)
      requires Valid() && 1 <= prefixBits <= 7
      ensures f == DecodeLiteral(table.View(), data, pos, prefixBits)
    {
      hide DecodeString, Lookup, Int.Decode;
      var ok, i, p := Int.DecodeInteger(data, pos, prefixBits);
      if !ok { return BadField; }
      var name: seq<byte>;
      if i == 0 {
        ok, name, p := ReadString(data, p);
        if !ok { return BadField; }
      } else {
        var e := LookupIndex(i);
        if e.None? { return BadField; }
        name := e.value.name;
      }
      var value;
      ok, value, p := ReadString(data, p);
      f := if ok then Field(Header(name, value), p) else BadField;
    }

    /** Decodes a whole block; on failure the list is meaningless, as in the source. */
    method Decode(data: seq<byte>) returns (ok: bool, headers: seq<Header>)
      requires Valid()
      modifies table
      ensures var b := DecodeBlock(old(table.View()), data, 0);
              ok == b.Block? && table.View() == b.table && (ok ==> headers == b.headers)
    {
      hide DecodeLiteral, Lookup, Int.Decode, Evict;
      ghost var goal := DecodeBlock(table.View(), data, 0);
      headers := [];
      var pos := 0;
      NothingYet(goal);
      while pos < |data|
        invariant pos >= 0
        invariant goal == ConsAll(headers, DecodeBlock(table.View(), data, pos))
        decreases |data| - pos
      {
        var b := data[pos];
        if b >= 0x80 {
          var good, i, p := Int.DecodeInteger(data, pos, 7);
          if !good { return false, []; }
          var h := LookupIndex(i);
          if h.None? { return false, []; }
          ConsSnoc(headers, h.value, DecodeBlock(table.View(), data, p));
          headers, pos := headers + [h.value], p;
        } else if b >= 0x40 {
          var f := ReadLiteral(data, pos, 6);
          if f.BadField? { return false, headers; }
          ConsSnoc(headers, f.header, DecodeBlock(Insert(table.View(), f.header), data, f.pos));
          table.AddToDynamicTable(f.header);
          headers, pos := headers + [f.header], f.pos;
        } else if b >= 0x20 {
          var good, size, p := Int.DecodeInteger(data, pos, 5);
          if !good { return false, headers; }
          table.SetMaxDynamicTableSize(size);
          pos := p;
        } else {
          var f := ReadLiteral(data, pos, 4);
          if f.BadField? { return false, headers; }
          ConsSnoc(headers, f.header, DecodeBlock(table.View(), data, f.pos));
          headers, pos := headers + [f.header], f.pos;
        }
      }
      assert headers + [] == headers;
      ok := true;
    }
  }

  lemma NothingYet(rest: Block)
    ensures ConsAll([], rest) == rest
  {
    if rest.Block? { assert [] + rest.headers == rest.headers; }
  }
}
