/**
 Huffman coding of header strings (section 5.2 and appendix B of RFC 7541).

 The specification reads a bit string against a code table.  The code builds a trie in a
 vector of nodes, walks it one bit at a time, and packs bits through a 64-bit buffer; each of
 these loops is proved to compute the specification.
 */
module HpackHuffman {
  import opened Bytes

  type Bits = seq<bool>

  datatype HuffmanCode = HuffmanCode(code: nat, bits: nat)

  const EOS: nat := 256

  // ---------------------------------------------------------------- bit strings

  /** The low `n` bits of `v`, most significant first. */
  function LowBits(v: nat, n: nat): (b: Bits)
    ensures |b| == n
  {
    if n == 0 then [] else LowBits(v / 2, n - 1) + [v % 2 == 1]
  }

  function Ones(n: nat): Bits { seq(n, i => true) }

  function BytesToBits(s: seq<byte>): (b: Bits)
    ensures |b| == 8 * |s|
  {
    if s == [] then [] else LowBits(s[0], 8) + BytesToBits(s[1..])
  }

  lemma {:induction false} BytesToBitsAppend(s: seq<byte>, t: seq<byte>)
    ensures BytesToBits(s + t) == BytesToBits(s) + BytesToBits(t)
  {
    if s == [] {
      assert s + t == t;
    } else {
      assert (s + t)[1..] == s[1..] + t;
      BytesToBitsAppend(s[1..], t);
    }
  }

  /** Bit `i`, counted from the least significant one, as the shift-and-mask of the code reads it. */
  lemma {:induction false} BitAt(v: nat, n: nat, i: nat)
    requires i < n
    ensures LowBits(v, n)[n - 1 - i] == (Shr(v, i) % 2 == 1)
  {
    if i > 0 {
      BitAt(v / 2, n - 1, i - 1);
      ShrShr(v, i - 1);
    }
  }

  lemma {:induction false} BitsShift(v: nat, n: nat, c: nat, h: nat)
    requires c < Pow2(h)
    ensures LowBits(v * Pow2(h) + c, n + h) == LowBits(v, n) + LowBits(c, h)
    decreases h
  {
    if h > 0 {
      var x := v * Pow2(h) + c;
      assert v * Pow2(h) == 2 * (v * Pow2(h - 1));
      assert x % 2 == c % 2 && x / 2 == v * Pow2(h - 1) + c / 2;
      BitsShift(v, n, c / 2, h - 1);
      assert LowBits(v, n) + LowBits(c / 2, h - 1) + [c % 2 == 1] == LowBits(v, n) + LowBits(c, h);
    } else {
      assert LowBits(v, n) + [] == LowBits(v, n);
    }
  }

  /** Bits above the ones that are read do not matter. */
  lemma {:induction false} BitsIgnoreHigh(v: nat, k: nat, n: nat)
    ensures LowBits(v + k * Pow2(n), n) == LowBits(v, n)
  {
    if n > 0 {
      assert k * Pow2(n) == 2 * (k * Pow2(n - 1));
      assert (v + k * Pow2(n)) / 2 == v / 2 + k * Pow2(n - 1);
      BitsIgnoreHigh(v / 2, k, n - 1);
    }
  }

  lemma BitsSplit(v: nat, n: nat, m: nat)
    ensures LowBits(v, n + m) == LowBits(Shr(v, m), n) + LowBits(v, m)
  {
    var q, r := DivMod(v, Pow2(m));
    BitsShift(q, n, r, m);
    BitsIgnoreHigh(r, q, m);
  }

  lemma BitsOfRemainder(v: nat, n: nat, m: nat)
    requires n <= m
    ensures LowBits(v % Pow2(m), n) == LowBits(v, n)
  {
    hide Pow2, LowBits;
    Pow2Add(m - n, n);
    var k, r := DivProduct(v, Pow2(m - n), Pow2(n));
    BitsIgnoreHigh(r, k, n);
  }

  lemma DivProduct(v: nat, a: nat, b: nat) returns (k: nat, r: nat)
    requires a > 0 && b > 0
    ensures a * b > 0 && r == v % (a * b) && v == r + k * b
  {
    var q;
    q, r := DivMod(v, a * b);
    k := q * a;
    assert q * (a * b) == (q * a) * b;
  }

  lemma {:induction false} BitsOfOnes(n: nat)
    ensures LowBits(Pow2(n) - 1, n) == Ones(n)
  {
    if n > 0 {
      assert (Pow2(n) - 1) / 2 == Pow2(n - 1) - 1;
      BitsOfOnes(n - 1);
    }
  }

  // ---------------------------------------------------------------- code tables

  type Table = seq<HuffmanCode>

  function CodeOf(table: Table, sym: nat): Bits
    requires sym < |table|
  {
    LowBits(table[sym].code, table[sym].bits)
  }

  ghost predicate PrefixFree(table: Table)
  {
    forall i, j :: 0 <= i < |table| && 0 <= j < |table| && i != j ==> !(CodeOf(table, i) <= CodeOf(table, j))
  }

  /** 257 codes of 1 to 32 bits that fit their width. */
  ghost predicate WellSized(table: Table)
  {
    && |table| == 257
    && forall i :: 0 <= i < |table| ==> 1 <= table[i].bits <= 32 && table[i].code < Pow2(table[i].bits)
  }

  /** What decoding relies on: no code a prefix of another, and an end-of-string code of ones
      longer than any padding. */
  ghost predicate GoodTable(table: Table)
  {
    && WellSized(table)
    && PrefixFree(table)
    && 8 <= table[EOS].bits && CodeOf(table, EOS) == Ones(table[EOS].bits)
  }

  ghost predicate OnTrie(table: Table, n: nat, path: Bits)
    requires n <= |table|
  {
    path == [] || exists k :: 0 <= k < n && path <= CodeOf(table, k)
  }

  ghost predicate IsCode(table: Table, n: nat, path: Bits)
    requires n <= |table|
  {
    exists k :: 0 <= k < n && path == CodeOf(table, k)
  }

  ghost function SymbolOf(table: Table, n: nat, path: Bits): (k: nat)
    requires n <= |table| && IsCode(table, n, path)
    ensures k < n && path == CodeOf(table, k)
  {
    var k :| 0 <= k < n && path == CodeOf(table, k); k
  }

  // ---------------------------------------------------------------- specification

  /** The codes of the input bytes, one after the other. */
  function EncodedBits(table: Table, input: seq<byte>): Bits
    requires |table| == 257
  {
    if input == [] then [] else CodeOf(table, input[0]) + EncodedBits(table, input[1..])
  }

  lemma {:induction false} EncodedBitsAppend(table: Table, a: seq<byte>, b: seq<byte>)
    requires |table| == 257
    ensures EncodedBits(table, a + b) == EncodedBits(table, a) + EncodedBits(table, b)
  {
    if a == [] {
      assert a + b == b;
    } else {
      assert (a + b)[1..] == a[1..] + b;
      EncodedBitsAppend(table, a[1..], b);
    }
  }

  /** How many one-bits fill the last byte. */
  function Padding(n: nat): (p: nat)
    ensures p < 8 && (n + p) % 8 == 0
  {
    (8 - n % 8) % 8
  }

  /**
   What the decoder accepts: symbols are emitted at code words, the end-of-string code stops
   the reading at once, and the input may only end between two code words.
   */
  ghost function DecodeBits(table: Table, path: Bits, bits: Bits): Option<seq<byte>>
    requires |table| == 257
    decreases |bits|
  {
    if bits == [] then
      if path == [] then Some([]) else None
    else
      var p := path + [bits[0]];
      if !OnTrie(table, 257, p) then None
      else if IsCode(table, 257, p) then
        var sym := SymbolOf(table, 257, p);
        if sym == EOS then Some([])
        else Prepend(sym, DecodeBits(table, [], bits[1..]))
      else DecodeBits(table, p, bits[1..])
  }

  ghost function Prepend(b: byte, rest: Option<seq<byte>>): Option<seq<byte>>
  {
    match rest case None => None case Some(s) => Some([b] + s)
  }

  // ---------------------------------------------------------------- round trip

  lemma ProperPrefixIsNoCode(table: Table, sym: nat, p: Bits)
    requires GoodTable(table) && sym < 257 && p < CodeOf(table, sym)
    ensures !IsCode(table, 257, p)
  {
    assert forall k :: 0 <= k < 257 && p == CodeOf(table, k) ==> CodeOf(table, k) <= CodeOf(table, sym);
  }

  /** Reading the rest of one code word, having read `path` of it. */
  lemma {:induction false} ReadCode(table: Table, sym: nat, path: Bits, tail: Bits, rest: Bits)
    requires GoodTable(table) && sym < EOS
    requires CodeOf(table, sym) == path + tail && tail != []
    ensures DecodeBits(table, path, tail + rest) == Prepend(sym, DecodeBits(table, [], rest))
    decreases |tail|
  {
    var bits := tail + rest;
    var p := path + [bits[0]];
    assert p <= CodeOf(table, sym);
    assert bits[1..] == tail[1..] + rest;
    if |tail| == 1 {
      assert p == CodeOf(table, sym);
      assert tail[1..] + rest == rest;
    } else {
      assert CodeOf(table, sym) == p + tail[1..];
      ProperPrefixIsNoCode(table, sym, p);
      ReadCode(table, sym, p, tail[1..], rest);
    }
  }

  /** Reading padding: fewer than eight ones never complete a code word. */
  lemma {:induction false} ReadPadding(table: Table, done: nat, n: nat)
    requires GoodTable(table) && done + n < 8
    ensures DecodeBits(table, Ones(done), Ones(n)) == if done + n == 0 then Some([]) else None
    decreases n
  {
    if n > 0 {
      var p := Ones(done) + [Ones(n)[0]];
      assert p == Ones(done + 1);
      assert p <= CodeOf(table, EOS) && |p| < |CodeOf(table, EOS)|;
      ProperPrefixIsNoCode(table, EOS, p);
      assert Ones(n)[1..] == Ones(n - 1);
      ReadPadding(table, done + 1, n - 1);
    }
  }

  ghost function PrependAll(s: seq<byte>, rest: Option<seq<byte>>): Option<seq<byte>>
  {
    match rest case None => None case Some(r) => Some(s + r)
  }

  lemma PrependCons(s: seq<byte>, rest: Option<seq<byte>>)
    requires s != []
    ensures PrependAll(s, rest) == Prepend(s[0], PrependAll(s[1..], rest))
  {
    if rest.Some? { assert s + rest.value == [s[0]] + (s[1..] + rest.value); }
  }

  lemma {:induction false} ReadAll(table: Table, input: seq<byte>, rest: Bits)
    requires GoodTable(table)
    ensures DecodeBits(table, [], EncodedBits(table, input) + rest) == PrependAll(input, DecodeBits(table, [], rest))
  {
    var d := DecodeBits(table, [], rest);
    if input == [] {
      assert EncodedBits(table, input) + rest == rest;
      assert d.Some? ==> input + d.value == d.value;
    } else {
      var c := CodeOf(table, input[0]);
      var more := EncodedBits(table, input[1..]) + rest;
      assert EncodedBits(table, input) + rest == c + more;
      assert c == [] + c;
      ReadCode(table, input[0], [], c, more);
      ReadAll(table, input[1..], rest);
      PrependCons(input, d);
    }
  }

  /**
   Decoding an encoded string emits exactly its bytes when the code lengths add up to whole
   bytes, and is refused otherwise: the final test of the decoder does not let the input end
   inside the padding that section 5.2 of RFC 7541 prescribes.
   */
  lemma RoundTripExactly(table: Table, input: seq<byte>)
    requires GoodTable(table)
    ensures var n := |EncodedBits(table, input)|;
            DecodeBits(table, [], EncodedBits(table, input) + Ones(Padding(n))) ==
            if n % 8 == 0 then Some(input) else None
  {
    hide DecodeBits;
    var n := |EncodedBits(table, input)|;
    ReadAll(table, input, Ones(Padding(n)));
    assert Ones(0) == [];
    ReadPadding(table, 0, Padding(n));
    assert input + [] == input;
  }

  // ---------------------------------------------------------------- all that is accepted

  /** `bits` are the codes of `s`, and nothing more or anything behind an end-of-string code. */
  ghost predicate Spells(table: Table, bits: Bits, s: seq<byte>)
    requires |table| == 257
  {
    var codes := EncodedBits(table, s);
    bits == codes || codes + CodeOf(table, EOS) <= bits
  }

  lemma {:induction false} AcceptedSpells(table: Table, path: Bits, bits: Bits)
    requires |table| == 257 && DecodeBits(table, path, bits).Some?
    ensures Spells(table, path + bits, DecodeBits(table, path, bits).value)
    decreases |bits|
  {
    hide CodeOf, IsCode, OnTrie;
    if bits != [] {
      var p, rest := path + [bits[0]], bits[1..];
      assert path + bits == p + rest;
      if IsCode(table, 257, p) {
        var sym := SymbolOf(table, 257, p);
        if sym != EOS {
          AcceptedSpells(table, [], rest);
          var s := DecodeBits(table, [], rest).value;
          assert [] + rest == rest && ([sym] + s)[1..] == s;
          assert EncodedBits(table, [sym] + s) == p + EncodedBits(table, s);
          assert p + EncodedBits(table, s) + CodeOf(table, EOS) == p + (EncodedBits(table, s) + CodeOf(table, EOS));
        } else {
          assert [] + p == p;
        }
      } else {
        AcceptedSpells(table, p, rest);
      }
    }
  }

  /** The end-of-string code, read from inside it, ends the string at once. */
  lemma {:induction false} ReadEnd(table: Table, done: nat, rest: Bits)
    requires GoodTable(table) && done < table[EOS].bits
    ensures DecodeBits(table, Ones(done), Ones(table[EOS].bits - done) + rest) == Some([])
    decreases table[EOS].bits - done
  {
    var n := table[EOS].bits;
    OnesStep(done, n - done, rest);
    EndPath(table, done + 1);
    hide Ones, OnTrie, IsCode, GoodTable;
    if done + 1 < n { ReadEnd(table, done + 1, rest); }
  }

  lemma OnesStep(done: nat, n: nat, rest: Bits)
    requires n > 0
    ensures var bits := Ones(n) + rest;
      bits != [] && Ones(done) + [bits[0]] == Ones(done + 1) && bits[1..] == Ones(n - 1) + rest
  {
  }

  /** Some ones are on the way to the end-of-string code, and all of them are that code. */
  lemma EndPath(table: Table, n: nat)
    requires GoodTable(table) && 0 < n <= table[EOS].bits
    ensures OnTrie(table, 257, Ones(n)) && (IsCode(table, 257, Ones(n)) <==> n == table[EOS].bits)
    ensures n == table[EOS].bits ==> SymbolOf(table, 257, Ones(n)) == EOS
  {
    hide LowBits;
    var p := Ones(n);
    assert p <= CodeOf(table, EOS);
    if n < table[EOS].bits {
      ProperPrefixIsNoCode(table, EOS, p);
    } else {
      assert p == CodeOf(table, EOS);
    }
  }

  /**
   A bit string is accepted exactly if it is the codes of a string, or those, an end-of-string code and then anything;
   section 5.2 of RFC 7541 wants the second refused.
   */
  lemma DecodesExactly(table: Table, bits: Bits, s: seq<byte>)
    requires GoodTable(table)
    ensures DecodeBits(table, [], bits) == Some(s) <==> Spells(table, bits, s)
  {
    assert |table| == 257;
    hide DecodeBits, CodeOf, EncodedBits, GoodTable;
    var codes, end := EncodedBits(table, s), CodeOf(table, EOS);
    if DecodeBits(table, [], bits) == Some(s) {
      AcceptedSpells(table, [], bits);
      assert [] + bits == bits;
    }
    if bits == codes {
      CodesDecode(table, s);
    } else if codes + end <= bits {
      var rest := bits[|codes + end|..];
      assert bits == codes + end + rest;
      BehindTheEnd(table, s, rest);
    }
  }

  lemma CodesDecode(table: Table, s: seq<byte>)
    requires GoodTable(table)
    ensures DecodeBits(table, [], EncodedBits(table, s)) == Some(s)
  {
    hide DecodeBits, CodeOf;
    var codes := EncodedBits(table, s);
    ReadAll(table, s, []);
    assert codes + [] == codes && s + [] == s;
    NothingRead(table);
  }

  lemma NothingRead(table: Table)
    requires |table| == 257
    ensures DecodeBits(table, [], []) == Some([])
  {
  }

  /** Whatever follows an end-of-string code is dropped unread. */
  lemma BehindTheEnd(table: Table, s: seq<byte>, rest: Bits)
    requires GoodTable(table)
    ensures DecodeBits(table, [], EncodedBits(table, s) + CodeOf(table, EOS) + rest) == Some(s)
  {
    hide DecodeBits;
    var end := CodeOf(table, EOS);
    assert EncodedBits(table, s) + end + rest == EncodedBits(table, s) + (end + rest);
    ReadAll(table, s, end + rest);
    assert Ones(0) == [] && s + [] == s;
    ReadEnd(table, 0, rest);
  }

  // ---------------------------------------------------------------- encoder loop

  /** Packs the code words through a 64-bit buffer whose upper bits are never cleared. */
  method Encode(table: Table, input: seq<byte>) returns (out: seq<byte>)
    requires WellSized(table)
    ensures var bits := EncodedBits(table, input);
            BytesToBits(out) == bits + Ones(Padding(|bits|))
  {
    hide LowBits, Pow2;
    out := [];
    var buffer: nat := 0;
    var bits: nat := 0;
    assert input[..0] == [];
    for i := 0 to |input|
      invariant bits < 8 && buffer < TWO_64
      invariant BytesToBits(out) + LowBits(buffer, bits) == EncodedBits(table, input[..i])
    {
      var hc := table[input[i]];
      ghost var pending := LowBits(buffer, bits);
      PushCode(buffer, bits, hc);
      buffer := Shl(buffer, hc.bits) % TWO_64 + hc.code;
      assert BytesToBits(out) + LowBits(buffer, bits + hc.bits) == BytesToBits(out) + pending + CodeOf(table, input[i]);
      out, bits := FlushBytes(out, buffer, bits + hc.bits);
      EncodedSnoc(table, input, i);
    }
    assert input[..|input|] == input;
    out := PadLast(out, buffer, bits);
  }

  /** Fills the last byte with ones. */
  method PadLast(out: seq<byte>, buffer: nat, bits: nat) returns (r: seq<byte>)
    requires bits < 8
    ensures var all := BytesToBits(out) + LowBits(buffer, bits);
            BytesToBits(r) == all + Ones(Padding(|all|))
  {
    ghost var all := BytesToBits(out) + LowBits(buffer, bits);
    PaddingIs(|all|, |out|, bits);
    if bits > 0 {
      var b := (Shl(buffer, 8 - bits) + (Pow2(8 - bits) - 1)) % 256;
      PadByte(buffer, bits);
      AppendByte(out, b);
      r := out + [b];
      assert BytesToBits(r) == all + Ones(8 - bits);
    } else {
      r := out;
      assert all + Ones(0) == all == BytesToBits(out);
    }
  }

  lemma PaddingIs(n: nat, k: nat, bits: nat)
    requires n == 8 * k + bits && bits < 8
    ensures Padding(n) == if bits == 0 then 0 else 8 - bits
  {
  }

  /** Emits whole bytes from the top of the pending bits. */
  method FlushBytes(out: seq<byte>, buffer: nat, pending: nat) returns (r: seq<byte>, bits: nat)
    ensures bits < 8
    ensures BytesToBits(r) + LowBits(buffer, bits) == BytesToBits(out) + LowBits(buffer, pending)
  {
    hide LowBits, BytesToBits, Pow2;
    r, bits := out, pending;
    while bits >= 8
      invariant BytesToBits(r) + LowBits(buffer, bits) == BytesToBits(out) + LowBits(buffer, pending)
    {
      bits := bits - 8;
      var b := Shr(buffer, bits) % 256;
      PopByte(buffer, bits);
      AppendByte(r, b);
      assert BytesToBits(r) + (LowBits(b, 8) + LowBits(buffer, bits)) == BytesToBits(r + [b]) + LowBits(buffer, bits);
      r := r + [b];
    }
  }

  lemma AppendByte(out: seq<byte>, b: byte)
    ensures BytesToBits(out + [b]) == BytesToBits(out) + LowBits(b, 8)
  {
    BytesToBitsAppend(out, [b]);
    assert [b][1..] == [];
    assert LowBits(b, 8) + [] == LowBits(b, 8);
  }

  lemma EncodedSnoc(table: Table, input: seq<byte>, i: nat)
    requires |table| == 257 && i < |input|
    ensures EncodedBits(table, input[..i + 1]) == EncodedBits(table, input[..i]) + CodeOf(table, input[i])
  {
    assert input[..i + 1] == input[..i] + [input[i]];
    EncodedBitsAppend(table, input[..i], [input[i]]);
    assert [input[i]][1..] == [];
    assert CodeOf(table, input[i]) + [] == CodeOf(table, input[i]);
  }

  lemma PushCode(buffer: nat, bits: nat, hc: HuffmanCode)
    requires buffer < TWO_64 && bits < 8 && 1 <= hc.bits <= 32 && hc.code < Pow2(hc.bits)
    ensures Shl(buffer, hc.bits) % TWO_64 + hc.code < TWO_64
    ensures LowBits(Shl(buffer, hc.bits) % TWO_64 + hc.code, bits + hc.bits) ==
            LowBits(buffer, bits) + LowBits(hc.code, hc.bits)
  {
    ShiftOut(buffer, hc.bits);
    BitsShift(buffer % Pow2(64 - hc.bits), bits, hc.code, hc.bits);
    BitsOfRemainder(buffer, bits, 64 - hc.bits);
  }

  /** A 64-bit shift drops the top bits and leaves room for `h` new ones. */
  lemma ShiftOut(buffer: nat, h: nat)
    requires h <= 32
    ensures Shl(buffer, h) % TWO_64 == Shl(buffer % Pow2(64 - h), h)
    ensures Shl(buffer % Pow2(64 - h), h) + Pow2(h) <= TWO_64
  {
    var a, b := Pow2(64 - h), Pow2(h);
    hide Pow2;
    Pow2Words();
    Pow2Add(64 - h, h);
    ModScale(buffer, a, b);
  }

  lemma PopByte(buffer: nat, bits: nat)
    ensures LowBits(buffer, bits + 8) == LowBits(Shr(buffer, bits) % 256, 8) + LowBits(buffer, bits)
  {
    BitsSplit(buffer, 8, bits);
    Pow2Values();
    BitsOfRemainder(Shr(buffer, bits), 8, 8);
  }

  lemma PadByte(buffer: nat, bits: nat)
    requires 0 < bits < 8
    ensures LowBits((Shl(buffer, 8 - bits) + (Pow2(8 - bits) - 1)) % 256, 8) == LowBits(buffer, bits) + Ones(8 - bits)
  {
    hide LowBits, Pow2;
    Pow2Values();
    BitsOfRemainder(Shl(buffer, 8 - bits) + (Pow2(8 - bits) - 1), 8, 8);
    BitsShift(buffer, bits, Pow2(8 - bits) - 1, 8 - bits);
    BitsOfOnes(8 - bits);
  }
}
