/**
 The Huffman trie as the code stores it: a growing vector of nodes linked by index.
 A ghost map from bit paths to node numbers says what the vector means.
 */
module HpackTrie {
  import opened Bytes
  import opened HpackHuffman

  /** `symbol` is -1 for an inner node; `left` and `right` are -1 where there is no child. */
  datatype Node = Node(symbol: int, left: int, right: int)
  {
    function Child(bit: bool): int { if bit then right else left }

    function WithChild(bit: bool, child: int): Node
    {
      if bit then this.(right := child) else this.(left := child)
    }
  }

  type Index = map<Bits, nat>

  /** Node numbers and paths from the root are in one-to-one correspondence, and the child
      links are exactly the one-bit extensions that have a node. */
  ghost predicate Linked(nodes: seq<Node>, index: Index)
  {
    && [] in index && index[[]] == 0
    && (forall p :: p in index ==> index[p] < |nodes|)
    && (forall p, q :: p in index && q in index && index[p] == index[q] ==> p == q)
    && (forall p, l :: p in index && 0 <= l <= |p| ==> p[..l] in index)
    && (forall p, bit :: p in index ==> nodes[index[p]].Child(bit) == ChildOf(index, p, bit))
  }

  ghost function ChildOf(index: Index, p: Bits, bit: bool): int
  {
    if p + [bit] in index then index[p + [bit]] else -1
  }

  /** A node carries the symbol whose code is its path, for the first `n` symbols of the table. */
  ghost predicate Labelled(nodes: seq<Node>, index: Index, table: Table, n: nat)
    requires n <= |table|
  {
    forall p :: p in index && index[p] < |nodes| ==>
      nodes[index[p]].symbol == if IsCode(table, n, p) then SymbolOf(table, n, p) else -1
  }

  /** The paths with a node are the prefixes of the first `n` codes. */
  ghost predicate Covers(index: Index, table: Table, n: nat)
    requires n <= |table|
  {
    && (forall p :: p in index ==> OnTrie(table, n, p))
    && (forall k, l :: 0 <= k < n && 0 <= l <= |CodeOf(table, k)| ==> CodeOf(table, k)[..l] in index)
  }

  ghost predicate IsTrie(nodes: seq<Node>, index: Index, table: Table)
    requires |table| == 257
  {
    Linked(nodes, index) && Labelled(nodes, index, table, 257) && Covers(index, table, 257)
  }

  lemma SnocInjective(p: Bits, a: bool, q: Bits, b: bool)
    ensures p + [a] == q + [b] <==> p == q && a == b
  {
    assert (p + [a])[..|p|] == p && (q + [b])[..|q|] == q;
    assert (p + [a])[|p|] == a && (q + [b])[|q|] == b;
  }

  /** A fresh node at the end, linked below node `idx`. */
  function Grow(nodes: seq<Node>, idx: nat, bit: bool): seq<Node>
    requires idx < |nodes|
  {
    (nodes + [Node(-1, -1, -1)])[idx := nodes[idx].WithChild(bit, |nodes|)]
  }

  lemma AddChildLabelled(nodes: seq<Node>, index: Index, table: Table, n: nat, p: Bits, bit: bool)
    requires n <= |table| && Linked(nodes, index) && Labelled(nodes, index, table, n)
    requires p in index && p + [bit] !in index && !IsCode(table, n, p + [bit])
    ensures Labelled(Grow(nodes, index[p], bit), index[p + [bit] := |nodes|], table, n)
  {
  }

  /** Adding the missing child of `p`: the new node has no children and no symbol. */
  lemma AddChild(nodes: seq<Node>, index: Index, p: Bits, bit: bool)
    requires Linked(nodes, index) && p in index && p + [bit] !in index
    ensures Linked(Grow(nodes, index[p], bit), index[p + [bit] := |nodes|])
  {
    var n := |nodes|;
    var np := p + [bit];
    var nodes' := Grow(nodes, index[p], bit);
    var index' := index[np := n];
    forall q, l | q in index' && 0 <= l <= |q|
      ensures q[..l] in index'
    {
      if q == np { assert l == |np| || np[..l] == p[..l]; assert np[..|np|] == np; }
    }
    forall q, b: bool | q in index'
      ensures nodes'[index'[q]].Child(b) == ChildOf(index', q, b)
    {
      SnocInjective(q, b, p, bit);
      if q == np {
        assert (np + [b])[..|np|] == np;
        assert np + [b] !in index;
        assert nodes'[n] == Node(-1, -1, -1);
      } else if q == p {
        assert nodes'[index[p]] == nodes[index[p]].WithChild(bit, n);
        assert nodes[index[p]].Child(b) == ChildOf(index, p, b);
      } else {
        assert index[q] != index[p];
        assert nodes'[index[q]] == nodes[index[q]];
        assert nodes[index[q]].Child(b) == ChildOf(index, q, b);
      }
    }
  }

  lemma SymbolUnique(table: Table, n: nat, p: Bits, k: nat)
    requires PrefixFree(table) && n <= |table| && k < n && p == CodeOf(table, k)
    ensures IsCode(table, n, p) && SymbolOf(table, n, p) == k
  {
    assert IsCode(table, n, p);
    var s := SymbolOf(table, n, p);
    assert CodeOf(table, s) <= CodeOf(table, k);
  }

  /** Labelling one more symbol. */
  lemma LabelNext(nodes: seq<Node>, index: Index, table: Table, sym: nat, code: Bits)
    requires PrefixFree(table) && sym < |table| && code == CodeOf(table, sym)
    requires Linked(nodes, index) && Labelled(nodes, index, table, sym) && code in index
    ensures var nodes' := nodes[index[code] := nodes[index[code]].(symbol := sym)];
            Linked(nodes', index) && Labelled(nodes', index, table, sym + 1)
  {
    var nodes' := nodes[index[code] := nodes[index[code]].(symbol := sym)];
    forall p | p in index && index[p] < |nodes'|
      ensures nodes'[index[p]].symbol == if IsCode(table, sym + 1, p) then SymbolOf(table, sym + 1, p) else -1
    {
      if p == code {
        SymbolUnique(table, sym + 1, p, sym);
      } else {
        assert index[p] != index[code];
        if IsCode(table, sym + 1, p) {
          var k := SymbolOf(table, sym + 1, p);
          assert k < sym;
          SymbolUnique(table, sym, p, k);
        }
      }
    }
  }

  /** Walks the code of one symbol, creating the nodes it lacks, and labels the last one. */
  method Insert(nodes0: seq<Node>, ghost index0: Index, table: Table, sym: nat)
    returns (nodes: seq<Node>, ghost index: Index)
    requires PrefixFree(table) && sym < |table|
    requires Linked(nodes0, index0) && Labelled(nodes0, index0, table, sym) && Covers(index0, table, sym)
    ensures Linked(nodes, index) && Labelled(nodes, index, table, sym + 1) && Covers(index, table, sym + 1)
  {
    hide PrefixFree, Labelled, IsCode;
    nodes, index := nodes0, index0;
    ghost var code := CodeOf(table, sym);
    var idx := 0;
    var i := table[sym].bits;
    assert code[..0] == [];
    while i > 0
      invariant 0 <= i <= |code| && Linked(nodes, index) && Labelled(nodes, index, table, sym)
      invariant code[..|code| - i] in index && idx == index[code[..|code| - i]]
      invariant index0.Keys <= index.Keys
      invariant forall p :: p in index ==> p in index0 || p <= code
    {
      i := i - 1;
      ghost var p := code[..|code| - i - 1];
      BitAt(table[sym].code, table[sym].bits, i);
      var bit := Shr(table[sym].code, i) % 2 == 1;
      assert p + [bit] == code[..|code| - i];
      var child := nodes[idx].Child(bit);
      if child < 0 {
        child := |nodes|;
        NewPathIsNoCode(index0, index, table, sym, p + [bit]);
        AddChild(nodes, index, p, bit);
        AddChildLabelled(nodes, index, table, sym, p, bit);
        nodes := Grow(nodes, idx, bit);
        index := index[p + [bit] := child];
      }
      idx := child;
    }
    assert code[..|code|] == code;
    LabelNext(nodes, index, table, sym, code);
    nodes := nodes[idx := nodes[idx].(symbol := sym)];
    forall k, l | 0 <= k < sym + 1 && 0 <= l <= |CodeOf(table, k)|
      ensures CodeOf(table, k)[..l] in index
    {
      if k == sym { assert code[..l] in index; } else { assert CodeOf(table, k)[..l] in index0; }
    }
    assert forall p :: p in index ==> OnTrie(table, sym + 1, p);
  }

  lemma NewPathIsNoCode(index0: Index, index: Index, table: Table, sym: nat, p: Bits)
    requires sym < |table| && Covers(index0, table, sym) && index0.Keys <= index.Keys && p !in index
    ensures !IsCode(table, sym, p)
  {
    assert forall k :: 0 <= k < sym && p == CodeOf(table, k) ==> CodeOf(table, k)[..|CodeOf(table, k)|] == p;
  }

  /** The trie of a prefix-free table: every code leads from the root to a node with its own
      symbol, and no node before it on the way has one. */
  method BuildTree(table: Table) returns (nodes: seq<Node>, ghost index: Index)
    requires |table| == 257 && PrefixFree(table)
    ensures IsTrie(nodes, index, table)
    ensures GoodTable(table) ==> forall sym :: 0 <= sym < 257 ==> LeadsTo(nodes, CodeOf(table, sym), sym)
  {
    hide Linked, Labelled, Covers, CodeOf;
    nodes, index := RootOnly(table);
    for sym := 0 to 257
      invariant Linked(nodes, index) && Labelled(nodes, index, table, sym) && Covers(index, table, sym)
    {
      nodes, index := Insert(nodes, index, table, sym);
    }
    if GoodTable(table) {
      forall sym | 0 <= sym < 257 ensures LeadsTo(nodes, CodeOf(table, sym), sym) { CodeLeadsToLeaf(nodes, index, table, sym); }
    }
  }

  /** A tree without any code in it. */
  method RootOnly(table: Table) returns (nodes: seq<Node>, ghost index: Index)
    requires |table| == 257
    ensures Linked(nodes, index) && Labelled(nodes, index, table, 0) && Covers(index, table, 0) && |nodes| == 1
  {
    nodes, index := [Node(-1, -1, -1)], map[[] := 0];
    SnocNotEmpty();
  }

  /** From the root `code` leads to a node labelled `sym`, past unlabelled ones only. */
  predicate LeadsTo(nodes: seq<Node>, code: Bits, sym: int)
  {
    forall l :: 0 <= l <= |code| ==>
      var at := Walk(nodes, 0, code[..l]); 0 <= at < |nodes| && nodes[at].symbol == if l == |code| then sym else -1
  }

  lemma CodeLeadsToLeaf(nodes: seq<Node>, index: Index, table: Table, sym: nat)
    requires GoodTable(table) && IsTrie(nodes, index, table) && sym < 257
    ensures LeadsTo(nodes, CodeOf(table, sym), sym)
  {
    hide IsTrie, CodeOf, Walk;
    forall l | 0 <= l <= |CodeOf(table, sym)|
      ensures var at := Walk(nodes, 0, CodeOf(table, sym)[..l]);
        0 <= at < |nodes| && nodes[at].symbol == if l == |CodeOf(table, sym)| then sym else -1
    {
      EachCodeReachesItsLeaf(nodes, index, table, sym, l);
    }
  }

  lemma SnocNotEmpty()
    ensures forall p: Bits, b :: p + [b] != []
  {
    forall p: Bits, b: bool ensures p + [b] != [] { assert |p + [b]| > 0; }
  }

  /** Following the links from the root along `bits`. */
  function Walk(nodes: seq<Node>, idx: int, bits: Bits): int
    decreases |bits|
  {
    if idx < 0 || idx >= |nodes| || bits == [] then idx
    else Walk(nodes, nodes[idx].Child(bits[0]), bits[1..])
  }

  lemma {:induction false} WalkFollowsIndex(nodes: seq<Node>, index: Index, p: Bits, bits: Bits)
    requires Linked(nodes, index) && p in index && p + bits in index
    ensures Walk(nodes, index[p], bits) == index[p + bits]
    decreases |bits|
  {
    if bits == [] {
      assert p + bits == p;
    } else {
      var q := p + [bits[0]];
      assert q + bits[1..] == p + bits;
      assert (p + bits)[..|q|] == q;
      WalkFollowsIndex(nodes, index, q, bits[1..]);
    }
  }

  /** Each code reaches its own leaf, and no earlier leaf. */
  lemma EachCodeReachesItsLeaf(nodes: seq<Node>, index: Index, table: Table, sym: nat, l: nat)
    requires GoodTable(table) && IsTrie(nodes, index, table)
    requires sym < 257 && l <= |CodeOf(table, sym)|
    ensures var at := Walk(nodes, 0, CodeOf(table, sym)[..l]);
            0 <= at < |nodes| && nodes[at].symbol == if l == |CodeOf(table, sym)| then sym else -1
  {
    var c := CodeOf(table, sym);
    var p := c[..l];
    assert [] + p == p;
    WalkFollowsIndex(nodes, index, [], p);
    if l == |c| {
      assert p == c;
      SymbolUnique(table, 257, p, sym);
    } else {
      ProperPrefixIsNoCode(table, sym, p);
    }
  }

  lemma {:induction false} BitOfByte(input: seq<byte>, k: nat, t: nat)
    requires k < |input| && t < 8
    ensures BytesToBits(input)[8 * k + t] == (Shr(input[k], 7 - t) % 2 == 1)
    decreases k
  {
    if k == 0 { BitAt(input[0], 8, 7 - t); } else { BitOfByte(input[1..], k - 1, t); }
  }

  ghost predicate EmitsSymbol(table: Table, symbol: int, path: Bits, bits: Bits)
    requires |table| == 257 && bits != []
  {
    0 <= symbol < EOS && DecodeBits(table, path, bits) == Prepend(symbol, DecodeBits(table, [], bits[1..]))
  }

  /** One bit of the decoder: what the specification says and where the trie is then. */
  lemma StepOnTrie(nodes: seq<Node>, index: Index, table: Table, path: Bits, bits: Bits)
    requires GoodTable(table) && IsTrie(nodes, index, table) && path in index && bits != []
    ensures var next := nodes[index[path]].Child(bits[0]);
            var p := path + [bits[0]];
            && (next < 0 ==> DecodeBits(table, path, bits) == None)
            && (next >= 0 ==> p in index && next == index[p] && next < |nodes|)
            && (next >= 0 && nodes[next].symbol < 0 ==> DecodeBits(table, path, bits) == DecodeBits(table, p, bits[1..]))
            && (next >= 0 && nodes[next].symbol == EOS ==> DecodeBits(table, path, bits) == Some([]))
            && (next >= 0 && 0 <= nodes[next].symbol != EOS ==> EmitsSymbol(table, nodes[next].symbol, path, bits))
  {
    var p := path + [bits[0]];
    assert nodes[index[path]].Child(bits[0]) == ChildOf(index, path, bits[0]);
    if p !in index {
      assert forall k :: 0 <= k < 257 && p <= CodeOf(table, k) ==> CodeOf(table, k)[..|p|] == p;
      assert !OnTrie(table, 257, p);
    }
  }

  lemma PrependSnoc(out: seq<byte>, b: byte, rest: Option<seq<byte>>)
    ensures PrependAll(out, Prepend(b, rest)) == PrependAll(out + [b], rest)
  {
    if rest.Some? { assert out + ([b] + rest.value) == out + [b] + rest.value; }
  }

  lemma RestStep(bits: Bits, i: nat)
    requires i < |bits|
    ensures bits[i..] != [] && bits[i..][0] == bits[i] && bits[i..][1..] == bits[i + 1..]
  {
  }

  lemma NothingMore(out: seq<byte>)
    ensures PrependAll(out, Some([])) == Some(out) && PrependAll(out, None) == None
  {
    assert out + [] == out;
  }

  /** `out` has been emitted, the trie is at `path`, and `rest` is to come. */
  ghost predicate Emitted(table: Table, bits: Bits, out: seq<byte>, path: Bits, rest: Bits)
    requires |table| == 257
  {
    DecodeBits(table, [], bits) == PrependAll(out, DecodeBits(table, path, rest))
  }

  lemma BitDone(nodes: seq<Node>, index: Index, table: Table, bits: Bits, out: seq<byte>, path: Bits, idx: int, rest: Bits)
    requires GoodTable(table) && IsTrie(nodes, index, table) && At(nodes, index, path, idx)
    requires rest != [] && Emitted(table, bits, out, path, rest)
    ensures var next := nodes[idx].Child(rest[0]);
      && next < |nodes|
      && (next < 0 ==> DecodeBits(table, [], bits) == None)
      && (next >= 0 ==>
            var symbol := nodes[next].symbol;
            && (symbol == EOS ==> DecodeBits(table, [], bits) == Some(out))
            && (0 <= symbol != EOS ==> symbol < 256 && Emitted(table, bits, out + [symbol], [], rest[1..]))
            && (symbol < 0 ==>
                  At(nodes, index, path + [rest[0]], next) && Emitted(table, bits, out, path + [rest[0]], rest[1..])))
  {
    assert |table| == 257;
    hide DecodeBits, GoodTable, PrefixFree, PrependAll, Prepend;
    StepOnTrie(nodes, index, table, path, rest);
    AtEnd(nodes, index, table);
    NothingMore(out);
    var next := nodes[idx].Child(rest[0]);
    if next >= 0 && 0 <= nodes[next].symbol < EOS {
      PrependSnoc(out, nodes[next].symbol, DecodeBits(table, [], rest[1..]));
    }
  }

  lemma AllDone(nodes: seq<Node>, index: Index, table: Table, bits: Bits, out: seq<byte>, path: Bits, idx: int)
    requires |table| == 257 && At(nodes, index, path, idx) && Emitted(table, bits, out, path, [])
    ensures DecodeBits(table, [], bits) == if idx == 0 then Some(out) else None
  {
    NothingMore(out);
  }

  lemma AtRoot(nodes: seq<Node>, index: Index, table: Table)
    requires GoodTable(table) && IsTrie(nodes, index, table)
    ensures |table| == 257 && At(nodes, index, [], 0)
  {
    AtEnd(nodes, index, table);
  }

  /** The inner loop: the eight bits of one byte. */
  method DecodeByte(nodes: seq<Node>, ghost index: Index, ghost table: Table, input: seq<byte>, k: nat,
                    start: int, before: seq<byte>, ghost path0: Bits)
    returns (done: bool, ok: bool, idx: int, out: seq<byte>, ghost path: Bits)
    requires GoodTable(table) && IsTrie(nodes, index, table) && At(nodes, index, path0, start) && k < |input|
    requires Emitted(table, BytesToBits(input), before, path0, BytesToBits(input)[8 * k..])
    ensures done ==> DecodeBits(table, [], BytesToBits(input)) == if ok then Some(out) else None
    ensures !done ==> At(nodes, index, path, idx) && Emitted(table, BytesToBits(input), out, path, BytesToBits(input)[8 * k + 8..])
  {
    hide DecodeBits, GoodTable, PrefixFree, IsTrie, Emitted, BytesToBits;
    AtRoot(nodes, index, table);
    ghost var bits := BytesToBits(input);
    idx, out, path := start, before, path0;
    for i := 0 to 8
      invariant At(nodes, index, path, idx)
      invariant Emitted(table, bits, out, path, bits[8 * k + i..])
    {
      ghost var rest := bits[8 * k + i..];
      var bit := Shr(input[k], 7 - i) % 2 == 1;
      BitOfByte(input, k, i);
      RestStep(bits, 8 * k + i);
      BitDone(nodes, index, table, bits, out, path, idx, rest);
      idx := nodes[idx].Child(bit);
      if idx < 0 { return true, false, idx, out, path; }
      path := path + [bit];
      if nodes[idx].symbol >= 0 {
        if nodes[idx].symbol == 256 {
          return true, true, idx, out, path;
        }
        out := out + [nodes[idx].symbol];
        idx, path := 0, [];
      }
    }
    done, ok := false, false;
  }

  /** The decoder's loops over bytes and bits. */
  method Decode(nodes: seq<Node>, ghost index: Index, ghost table: Table, input: seq<byte>)
    returns (ok: bool, out: seq<byte>)
    requires GoodTable(table) && IsTrie(nodes, index, table)
    ensures DecodeBits(table, [], BytesToBits(input)) == if ok then Some(out) else None
  {
    hide DecodeBits, GoodTable, PrefixFree, BytesToBits, IsTrie, Emitted;
    AtRoot(nodes, index, table);
    ghost var bits := BytesToBits(input);
    ghost var path: Bits := [];
    var idx := 0;
    out := [];
    assert bits[0..] == bits;
    NothingEmitted(table, bits);
    for k := 0 to |input|
      invariant At(nodes, index, path, idx)
      invariant Emitted(table, bits, out, path, bits[8 * k..])
    {
      var done;
      done, ok, idx, out, path := DecodeByte(nodes, index, table, input, k, idx, out, path);
      if done { return; }
    }
    assert bits[8 * |input|..] == [];
    AllDone(nodes, index, table, bits, out, path, idx);
    ok := idx == 0 || nodes[idx].symbol == 256;
  }

  /** Where the decoder stands between two bits: at the node of `path`, which has no symbol. */
  ghost predicate At(nodes: seq<Node>, index: Index, path: Bits, idx: int)
  {
    path in index && 0 <= idx < |nodes| && idx == index[path] && nodes[idx].symbol < 0 && (idx == 0 <==> path == [])
  }

  lemma AtEnd(nodes: seq<Node>, index: Index, table: Table)
    requires GoodTable(table) && IsTrie(nodes, index, table)
    ensures At(nodes, index, [], 0)
    ensures forall p :: DecodeBits(table, p, []) == if p == [] then Some([]) else None
  {
    assert forall k :: 0 <= k < 257 ==> |CodeOf(table, k)| >= 1;
    assert !IsCode(table, 257, []);
  }

  lemma NothingEmitted(table: Table, bits: Bits)
    requires |table| == 257
    ensures Emitted(table, bits, [], [], bits)
  {
    hide DecodeBits;
    var rest := DecodeBits(table, [], bits);
    if rest.Some? { assert [] + rest.value == rest.value; }
  }
}
