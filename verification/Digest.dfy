/**
 The streaming message digest: padding and chaining of RFC 1321 and FIPS 180-4 as functions of the
 whole message, and the object that absorbs a message in pieces of any size.
 */
module Digest {
  import opened Bytes
  import opened DigestTransforms

  // ---------------------------------------------------------------- chaining

  /** The chaining value after the whole 64-byte blocks of `data`; a shorter rest is left out. */
  function Chain(kind: Kind, st: seq<Word>, data: seq<Octet>): (r: seq<Word>)
    requires |st| == 8
    ensures |r| == 8
    decreases |data|
  {
    hide Compress;
    if |data| < 64 then st else Chain(kind, Compress(kind, st, data[..64]), data[64..])
  }

  lemma {:induction false} ChainAppend(kind: Kind, st: seq<Word>, a: seq<Octet>, b: seq<Octet>)
    requires |st| == 8 && |a| % 64 == 0
    ensures Chain(kind, st, a + b) == Chain(kind, Chain(kind, st, a), b)
    decreases |a|
  {
    hide Compress;
    if a == [] {
      assert a + b == b;
    } else {
      ChainAppend(kind, Compress(kind, st, a[..64]), a[64..], b);
      assert (a + b)[..64] == a[..64];
      assert (a + b)[64..] == a[64..] + b;
    }
  }

  lemma ChainOne(kind: Kind, st: seq<Word>, a: seq<Octet>, block: seq<Octet>)
    requires |st| == 8 && |a| % 64 == 0 && |block| == 64
    ensures Chain(kind, st, a + block) == Compress(kind, Chain(kind, st, a), block)
  {
    hide Compress;
    ChainAppend(kind, st, a, block);
    assert block[..64] == block && block[64..] == [];
  }

  lemma ChainTail(kind: Kind, st: seq<Word>, a: seq<Octet>, tail: seq<Octet>)
    requires |st| == 8 && |a| % 64 == 0 && |tail| < 64
    ensures Chain(kind, st, a + tail) == Chain(kind, st, a)
  {
    hide Compress;
    ChainAppend(kind, st, a, tail);
  }

  // ---------------------------------------------------------------- padding

  function OctetOf(n: nat): Octet
  {
    (n % 256) as Octet
  }

  function BeBytes(v: nat, n: nat): (s: seq<Octet>)
    ensures |s| == n
    decreases n
  {
    if n == 0 then [] else BeBytes(v / 256, n - 1) + [OctetOf(v)]
  }

  function LeBytes(v: nat, n: nat): (s: seq<Octet>)
    ensures |s| == n
    decreases n
  {
    if n == 0 then [] else [OctetOf(v)] + LeBytes(v / 256, n - 1)
  }

  function ClosingBit(): Octet { 0x80 }

  function Zeros(n: nat): (s: seq<Octet>)
    ensures |s| == n
  {
    seq(n, _ => 0 as Octet)
  }

  /** The message length in bits, modulo 2^64: least significant byte first for MD5, last for SHA. */
  function LengthField(kind: Kind, n: nat): (s: seq<Octet>)
    ensures |s| == 8
  {
    if kind == Md5 then LeBytes(8 * n % TWO_64, 8) else BeBytes(8 * n % TWO_64, 8)
  }

  /** How many zero bytes bring a message of `n` bytes and the closing bit to 56 modulo 64. */
  function ZeroFill(n: nat): (z: nat)
    ensures (n + 1 + z) % 64 == 56 && z < 64
  {
    if n % 64 <= 55 then 55 - n % 64 else 119 - n % 64
  }

  function Padding(kind: Kind, n: nat): (s: seq<Octet>)
    ensures (n + |s|) % 64 == 0
  {
    hide ZeroFill, Zeros, LengthField;
    WholeBlocks(n + 1 + ZeroFill(n));
    [ClosingBit()] + Zeros(ZeroFill(n)) + LengthField(kind, n)
  }

  lemma WholeBlocks(n: nat)
    requires n % 64 == 56
    ensures (n + 8) % 64 == 0
  {
  }

  function Initial(kind: Kind): (st: seq<Word>)
    ensures |st| == 8
  {
    match kind
    case Md5 => [0x67452301, 0xefcdab89, 0x98badcfe, 0x10325476, 0, 0, 0, 0]
    case Sha1 => [0x67452301, 0xefcdab89, 0x98badcfe, 0x10325476, 0xc3d2e1f0, 0, 0, 0]
    case Sha224 => [0xc1059ed8, 0x367cd507, 0x3070dd17, 0xf70e5939, 0xffc00b31, 0x68581511, 0x64f98fa7, 0xbefa4fa4]
    case Sha256 => [0x6a09e667, 0xbb67ae85, 0x3c6ef372, 0xa54ff53a, 0x510e527f, 0x9b05688c, 0x1f83d9ab, 0x5be0cd19]
  }

  function DigestBytes(kind: Kind): (n: nat)
    ensures n <= 32 && n % 4 == 0
  {
    match kind
    case Md5 => 16
    case Sha1 => 20
    case Sha224 => 28
    case Sha256 => 32
  }

  function StoreBe32(w: Word): (s: seq<Octet>)
    ensures |s| == 4
  {
    [((w >> 24) & 0xff) as Octet, ((w >> 16) & 0xff) as Octet, ((w >> 8) & 0xff) as Octet, (w & 0xff) as Octet]
  }

  function StoreLe32(w: Word): (s: seq<Octet>)
    ensures |s| == 4
  {
    [(w & 0xff) as Octet, ((w >> 8) & 0xff) as Octet, ((w >> 16) & 0xff) as Octet, ((w >> 24) & 0xff) as Octet]
  }

  function Output(kind: Kind, st: seq<Word>): (s: seq<Octet>)
    ensures |s| == 4 * |st|
  {
    hide StoreLe32, StoreBe32;
    if st == [] then []
    else Output(kind, st[..|st| - 1])
         + (if kind == Md5 then StoreLe32(st[|st| - 1]) else StoreBe32(st[|st| - 1]))
  }

  /** The digest of a whole message, as the standards define it. */
  function Digest(kind: Kind, message: seq<Octet>): (d: seq<Octet>)
    ensures |d| == DigestBytes(kind)
  {
    hide Compress;
    var st := Chain(kind, Initial(kind), message + Padding(kind, |message|));
    Output(kind, st[..DigestBytes(kind) / 4])
  }

  lemma OutputMore(kind: Kind, st: seq<Word>, w: Word)
    ensures Output(kind, st + [w]) == Output(kind, st) + if kind == Md5 then StoreLe32(w) else StoreBe32(w)
  {
    hide StoreLe32, StoreBe32;
    assert (st + [w])[..|st|] == st;
  }

  lemma {:induction false} OutputPrefix(kind: Kind, st: seq<Word>, n: nat)
    requires n <= |st|
    ensures Output(kind, st[..n]) == Output(kind, st)[..4 * n]
    decreases |st| - n
  {
    hide Output;
    if n == |st| {
      assert st[..n] == st;
    } else {
      OutputPrefix(kind, st, n + 1);
      assert st[..n] + [st[n]] == st[..n + 1];
      OutputMore(kind, st[..n], st[n]);
    }
  }

  lemma {:induction false} SameChain(st: seq<Word>, data: seq<Octet>)
    requires |st| == 8
    ensures Chain(Sha224, st, data) == Chain(Sha256, st, data)
    decreases |data|
  {
    hide Sha256Compress;
    if |data| >= 64 { SameChain(Compress(Sha256, st, data[..64]), data[64..]); }
  }

  lemma {:induction false} SameOutput(st: seq<Word>)
    ensures Output(Sha224, st) == Output(Sha256, st)
  {
    hide StoreBe32;
    if st != [] { SameOutput(st[..|st| - 1]); }
  }

  lemma SamePadding(n: nat)
    ensures Padding(Sha224, n) == Padding(Sha256, n)
  {
  }

  /** SHA-224 is SHA-256 from another start, cut to 28 bytes (section 6.3 of FIPS 180-4). */
  lemma Sha224IsCut(message: seq<Octet>)
    ensures Digest(Sha224, message) ==
      Output(Sha256, Chain(Sha256, Initial(Sha224), message + Padding(Sha256, |message|)))[..28]
  {
    hide Compress, Output, Chain, Initial, Padding;
    var padded := message + Padding(Sha256, |message|);
    SamePadding(|message|);
    SameChain(Initial(Sha224), padded);
    var st := Chain(Sha256, Initial(Sha224), padded);
    OutputPrefix(Sha224, st, 7);
    SameOutput(st);
  }

  // ---------------------------------------------------------------- finishing

  lemma SplitLe(v: nat)
    ensures LeBytes(v, 8) == LeBytes(v % TWO_32, 4) + LeBytes(v / TWO_32, 4)
  {
    hide LeBytes, Pow2;
    Pow2Words();
    LePrefix(v, v % TWO_32, v / TWO_32, 4, 4);
  }

  lemma ByteStep(v: nat, low: nat, high: nat, p: nat)
    requires v == high * (256 * p) + low
    ensures v % 256 == low % 256 && v / 256 == high * p + low / 256
  {
    var x := high * p;
    assert high * (256 * p) == 256 * x;
  }

  lemma {:induction false} LePrefix(v: nat, low: nat, high: nat, m: nat, n: nat)
    requires v == high * Pow2(8 * m) + low && low < Pow2(8 * m)
    ensures LeBytes(v, m + n) == LeBytes(low, m) + LeBytes(high, n)
    decreases m
  {
    hide OctetOf, Pow2;
    if m == 0 {
      assert Pow2(0) == 1 by { Pow2Zero(); }
      assert LeBytes(low, 0) + LeBytes(high, n) == LeBytes(high, n);
    } else {
      var p := Pow2(8 * (m - 1));
      assert Pow2(8 * m) == 256 * p by { Pow2Add(8, 8 * (m - 1)); Pow2Values(); }
      ByteStep(v, low, high, p);
      LePrefix(v / 256, low / 256, high, m - 1, n);
      SameOctet(v, low);
    }
  }

  lemma SameOctet(v: nat, w: nat)
    requires v % 256 == w % 256
    ensures OctetOf(v) == OctetOf(w)
  {
  }

  /** A tail short enough takes one more block, a longer one two. */
  lemma LastBlocks(kind: Kind, n: nat, tail: seq<Octet>)
    requires |tail| == n % 64
    ensures |tail| <= 55 ==> tail + Padding(kind, n) == tail + [ClosingBit()] + Zeros(55 - |tail|) + LengthField(kind, n)
    ensures |tail| > 55 ==>
      tail + Padding(kind, n) == (tail + [ClosingBit()] + Zeros(63 - |tail|)) + (Zeros(56) + LengthField(kind, n))
  {
    hide LengthField;
    if |tail| > 55 {
      assert Zeros(119 - |tail|) == Zeros(63 - |tail|) + Zeros(56);
    }
  }

  method StoreBe64(out: array<Octet>, at: nat, value: nat)
    requires at + 8 <= out.Length
    modifies out
    ensures out[..] == old(out[..at]) + BeBytes(value, 8) + old(out[at + 8..])
  {
    hide OctetOf;
    var v, i := value, 8;
    assert out[at + 8..at + 8] == [];
    while i > 0
      invariant 0 <= i <= 8
      invariant BeBytes(value, 8) == BeBytes(v, i) + out[at + i..at + 8]
      invariant out[..at] == old(out[..at]) && out[at + 8..] == old(out[at + 8..])
    {
      i := i - 1;
      ghost var done := out[at + i + 1..at + 8];
      out[at + i] := OctetOf(v);
      assert out[at + i..at + 8] == [OctetOf(v)] + done;
      v := v / 256;
    }
    assert out[at..at + 8] == BeBytes(value, 8);
    assert out[..] == out[..at] + out[at..at + 8] + out[at + 8..];
  }

  method StoreLe32At(out: array<Octet>, at: nat, value: nat)
    requires at + 4 <= out.Length
    modifies out
    ensures out[..] == old(out[..at]) + LeBytes(value, 4) + old(out[at + 4..])
  {
    hide OctetOf;
    ghost var was := out[..];
    out[at] := OctetOf(value);
    out[at + 1] := OctetOf(value / 256);
    out[at + 2] := OctetOf(value / 256 / 256);
    out[at + 3] := OctetOf(value / 256 / 256 / 256);
    LeFour(value);
    assert out[..] == was[..at] + out[at..at + 4] + was[at + 4..];
  }

  lemma LeFour(v: nat)
    ensures LeBytes(v, 4) == [OctetOf(v), OctetOf(v / 256), OctetOf(v / 256 / 256), OctetOf(v / 256 / 256 / 256)]
  {
    hide OctetOf;
    assert LeBytes(v / 256 / 256 / 256, 1) == [OctetOf(v / 256 / 256 / 256)];
    assert LeBytes(v / 256 / 256, 2) == [OctetOf(v / 256 / 256), OctetOf(v / 256 / 256 / 256)];
  }

  /** Writes the length over the last eight bytes of the block. */
  method StoreLength(kind: Kind, pad: array<Octet>, totalBytes: nat, ghost n: nat)
    requires pad.Length == 64 && totalBytes == n % TWO_64
    modifies pad
    ensures pad[..] == old(pad[..56]) + LengthField(kind, n)
  {
    hide LeBytes, BeBytes;
    var totalBits := totalBytes * 8 % TWO_64;
    assert totalBits == 8 * n % TWO_64;
    if kind == Md5 {
      ghost var head := pad[..56];
      StoreLe32At(pad, 56, totalBits % TWO_32);
      assert pad[..60] == head + LeBytes(totalBits % TWO_32, 4);
      StoreLe32At(pad, 60, totalBits / TWO_32);
      SplitLe(totalBits);
    } else {
      StoreBe64(pad, 56, totalBits);
    }
  }

  method ZeroUpTo(pad: array<Octet>, from: nat, to: nat)
    requires from <= to <= pad.Length
    modifies pad
    ensures pad[..to] == old(pad[..from]) + Zeros(to - from)
  {
    var padLen := from;
    while padLen < to
      invariant from <= padLen <= to
      invariant pad[..padLen] == old(pad[..from]) + Zeros(padLen - from)
    {
      pad[padLen] := 0;
      assert pad[..padLen + 1] == pad[..padLen] + [0];
      padLen := padLen + 1;
    }
  }

  /** Appends the closing bit and, when the length no longer fits, chains that block. */
  method CloseMessage(kind: Kind, st: array<Word>, pad: array<Octet>, tailLen: nat)
    returns (padLen: nat, ghost first: seq<Octet>)
    requires st.Length == 8 && pad.Length == 64 && tailLen < 64
    modifies st, pad
    ensures padLen <= 56
    ensures st[..] == Chain(kind, old(st[..]), first)
    ensures tailLen <= 55 ==>
      padLen == tailLen + 1 && first == [] && pad[..padLen] == old(pad[..tailLen]) + [ClosingBit()]
    ensures tailLen > 55 ==>
      padLen == 0 && first == old(pad[..tailLen]) + [ClosingBit()] + Zeros(63 - tailLen)
  {
    hide Compress, Chain, Zeros, ClosingBit;
    ghost var tail, st0 := pad[..tailLen], st[..];
    pad[tailLen] := ClosingBit();
    padLen := tailLen + 1;
    assert pad[..padLen] == tail + [ClosingBit()];
    first := [];
    ChainNone(kind, st0);
    if padLen > 56 {
      first := ChainFilled(kind, st, pad, padLen);
      padLen := 0;
    }
  }

  method ChainFilled(kind: Kind, st: array<Word>, pad: array<Octet>, padLen: nat) returns (ghost full: seq<Octet>)
    requires st.Length == 8 && pad.Length == 64 && padLen <= 64
    modifies st, pad
    ensures full == old(pad[..padLen]) + Zeros(64 - padLen)
    ensures st[..] == Chain(kind, old(st[..]), full)
  {
    hide Compress, Chain, Zeros;
    ghost var st0 := st[..];
    ZeroUpTo(pad, padLen, 64);
    full := pad[..];
    assert full == pad[..64];
    assert [] + full == full;
    ChainNone(kind, st0);
    ChainOne(kind, st0, [], full);
    TransformBlock(kind, st, pad[..]);
  }

  /** Chains the padded tail of a message of `n` bytes. */
  method Finish(kind: Kind, st: array<Word>, pad: array<Octet>, tailLen: nat, totalBytes: nat, ghost n: nat)
    requires st.Length == 8 && pad.Length == 64
    requires tailLen == n % 64 && totalBytes == n % TWO_64
    modifies st, pad
    ensures st[..] == Chain(kind, old(st[..]), old(pad[..tailLen]) + Padding(kind, n))
  {
    hide Compress, Chain, LengthField, Zeros, Padding;
    ghost var tail, st0 := pad[..tailLen], st[..];
    var padLen, first := CloseMessage(kind, st, pad, tailLen);
    ghost var open := pad[..padLen];
    ZeroUpTo(pad, padLen, 56);
    StoreLength(kind, pad, totalBytes, n);
    ghost var last := pad[..];
    assert last == open + Zeros(56 - padLen) + LengthField(kind, n);
    JoinBlocks(kind, n, tail, first, open, last);
    ChainOne(kind, st0, first, last);
    TransformBlock(kind, st, pad[..]);
  }

  lemma JoinBlocks(kind: Kind, n: nat, tail: seq<Octet>, first: seq<Octet>, open: seq<Octet>, last: seq<Octet>)
    requires |tail| == n % 64 && |open| <= 56
    requires last == open + Zeros(56 - |open|) + LengthField(kind, n)
    requires |tail| <= 55 ==> first == [] && open == tail + [ClosingBit()]
    requires |tail| > 55 ==> first == tail + [ClosingBit()] + Zeros(63 - |tail|) && open == []
    ensures tail + Padding(kind, n) == first + last
  {
    hide LengthField, Zeros, Padding;
    LastBlocks(kind, n, tail);
  }

  lemma ChainNone(kind: Kind, st: seq<Word>)
    requires |st| == 8
    ensures Chain(kind, st, []) == st
  {
  }

  method WriteWords(kind: Kind, st: array<Word>, count: nat) returns (out: seq<Octet>)
    requires count <= st.Length
    ensures out == Output(kind, st[..count])
  {
    hide StoreLe32, StoreBe32;
    out := [];
    for i := 0 to count
      invariant out == Output(kind, st[..i])
    {
      assert st[..i + 1][..i] == st[..i];
      out := out + (if kind == Md5 then StoreLe32(st[i]) else StoreBe32(st[i]));
    }
  }

  // ---------------------------------------------------------------- absorbing a message

  /** `st` has chained the whole blocks of `data` and `rest` is what is left over. */
  ghost predicate Absorbed(kind: Kind, st: seq<Word>, rest: seq<Octet>, data: seq<Octet>)
  {
    && |st| == 8 && |rest| < 64 && |rest| == |data| % 64
    && st == Chain(kind, Initial(kind), data)
    && rest == data[|data| - |rest|..]
  }

  lemma AbsorbShort(kind: Kind, st: seq<Word>, rest: seq<Octet>, data: seq<Octet>, more: seq<Octet>)
    requires Absorbed(kind, st, rest, data) && |rest| + |more| < 64
    ensures Absorbed(kind, st, rest + more, data + more)
  {
    hide Compress, Initial, Chain;
    var whole := data[..|data| - |rest|];
    assert data == whole + rest;
    ChainTail(kind, Initial(kind), whole, rest);
    ChainTail(kind, Initial(kind), whole, rest + more);
    assert data + more == whole + (rest + more);
  }

  lemma AbsorbFull(kind: Kind, st: seq<Word>, rest: seq<Octet>, data: seq<Octet>, more: seq<Octet>)
    requires Absorbed(kind, st, rest, data) && |rest| + |more| == 64
    ensures Absorbed(kind, Compress(kind, st, rest + more), [], data + more)
  {
    hide Compress, Initial, Chain;
    var whole := data[..|data| - |rest|];
    assert data == whole + rest;
    ChainTail(kind, Initial(kind), whole, rest);
    ChainOne(kind, Initial(kind), whole, rest + more);
    assert data + more == whole + (rest + more);
  }

  lemma AbsorbedDigest(kind: Kind, st: seq<Word>, rest: seq<Octet>, data: seq<Octet>)
    requires Absorbed(kind, st, rest, data)
    ensures Digest(kind, data) == Output(kind, Chain(kind, st, rest + Padding(kind, |data|))[..DigestBytes(kind) / 4])
  {
    hide Compress, Initial, Chain, Padding, Output;
    var whole, pad := data[..|data| - |rest|], Padding(kind, |data|);
    assert data == whole + rest;
    ChainTail(kind, Initial(kind), whole, rest);
    ChainAppend(kind, Initial(kind), whole, rest + pad);
    assert whole + (rest + pad) == data + pad;
  }

  class MessageDigest {
    const kind: Kind
    const state: array<Word>
    const block: array<Octet>
    var blockLen: nat
    var totalBytes: nat
    var finalData: seq<Octet>
    var hasError: bool
    var finished: bool
    ghost var message: seq<Octet>

    ghost predicate Holds(data: seq<Octet>)
      reads this, state, block
    {
      state.Length == 8 && block.Length == 64 && blockLen < 64 && Absorbed(kind, state[..], block[..blockLen], data)
    }

    ghost predicate Valid()
      reads this, state, block
    {
      && state.Length == 8 && block.Length == 64
      && (!hasError && !finished ==> Holds(message) && totalBytes == |message| % TWO_64)
      && (!hasError && finished ==> finalData == Digest(kind, message))
    }

    constructor (algorithm: Option<Kind>)
      ensures Valid() && fresh(state) && fresh(block)
      ensures hasError == algorithm.None? && !finished && message == []
      ensures algorithm.Some? ==> kind == algorithm.value
    {
      hide Compress, Initial, Digest;
      kind := if algorithm.Some? then algorithm.value else Sha256;
      hasError := algorithm.None?;
      finished := false;
      finalData := [];
      blockLen := 0;
      totalBytes := 0;
      message := [];
      var words := Initial(if algorithm.Some? then algorithm.value else Sha256);
      state := new Word[8](i requires 0 <= i < |words| => words[i]);
      block := new Octet[64](_ => 0);
      new;
      assert state[..] == Initial(kind);
    }

    /** Tops up the block buffer from the front of `data`; returns how much it took. */
    method FillBlock(data: seq<Octet>, ghost before: seq<Octet>) returns (n: nat)
      requires Holds(before) && blockLen > 0 && data != []
      modifies this`blockLen, state, block
      ensures n <= |data| && Holds(before + data[..n])
      ensures n < |data| ==> blockLen == 0
    {
      hide Compress, Absorbed;
      n := Min(64 - blockLen, |data|);
      ghost var st, held := state[..], block[..blockLen];
      forall i | 0 <= i < n {
        block[blockLen + i] := data[i];
      }
      blockLen := blockLen + n;
      assert block[..blockLen] == held + data[..n];
      assert state[..] == st;
      if blockLen == 64 {
        AbsorbFull(kind, st, held, before, data[..n]);
        assert block[..] == block[..64];
        TransformBlock(kind, state, block[..]);
        blockLen := 0;
        assert block[..0] == [];
      } else {
        AbsorbShort(kind, st, held, before, data[..n]);
      }
    }

    /** Chains whole blocks straight from `data`, starting at `from`. */
    method ChainBlocks(data: seq<Octet>, from: nat, ghost before: seq<Octet>) returns (k: nat)
      requires from <= |data| && Holds(before + data[..from])
      requires from < |data| ==> blockLen == 0
      modifies state
      ensures from <= k <= |data| && |data| - k < 64 && Holds(before + data[..k])
      ensures k < |data| ==> blockLen == 0
    {
      hide Compress, Absorbed;
      k := from;
      while |data| - k >= 64
        invariant from <= k <= |data| && Holds(before + data[..k])
        invariant k < |data| ==> blockLen == 0
      {
        ghost var sofar, part := before + data[..k], data[k..k + 64];
        assert block[..0] + part == part;
        AbsorbFull(kind, state[..], block[..0], sofar, part);
        TransformBlock(kind, state, data[k..k + 64]);
        assert block[..0] == [];
        assert before + data[..k + 64] == sofar + part;
        k := k + 64;
      }
    }

    method KeepRest(rest: seq<Octet>, ghost sofar: seq<Octet>)
      requires Holds(sofar) && |rest| < 64 && (rest != [] ==> blockLen == 0)
      modifies this`blockLen, block
      ensures Holds(sofar + rest)
    {
      hide Compress, Absorbed;
      ghost var st := state[..];
      if |rest| > 0 {
        assert block[..0] == [] && [] + rest == rest;
        AbsorbShort(kind, st, [], sofar, rest);
        forall i | 0 <= i < |rest| {
          block[i] := rest[i];
        }
        blockLen := |rest|;
        assert block[..blockLen] == rest && state[..] == st;
      } else {
        assert sofar + rest == sofar;
      }
    }

    method Absorb(p: seq<Octet>, ghost before: seq<Octet>)
      requires Holds(before) && p != []
      modifies this`blockLen, state, block
      ensures Holds(before + p)
    {
      hide Holds;
      var k := 0;
      assert before + p[..0] == before;
      if blockLen > 0 {
        k := FillBlock(p, before);
      }
      k := ChainBlocks(p, k, before);
      KeepRest(p[k..], before + p[..k]);
      assert before + p[..k] + p[k..] == before + p;
    }

    method AddData(data: Option<seq<Octet>>, len: nat)
      requires Valid() && (data.Some? ==> |data.value| == len)
      modifies this, state, block
      ensures Valid() && finished == old(finished) && finalData == old(finalData)
      ensures old(hasError || finished || len == 0) ==> hasError == old(hasError) && message == old(message)
      ensures !old(hasError || finished || len == 0) ==>
        hasError == data.None? && message == (if data.Some? then old(message) + data.value else old(message))
    {
      hide Absorbed, Digest;
      if hasError || finished || len == 0 {
        return;
      }
      if data.None? {
        hasError := true;
        return;
      }
      totalBytes := (totalBytes + len) % TWO_64;
      Absorb(data.value, message);
      message := message + data.value;
    }

    method Result() returns (r: seq<Octet>)
      requires Valid()
      modifies this`finished, this`finalData
      ensures Valid() && finished == (old(finished) || !hasError)
      ensures r == if hasError then [] else Digest(kind, message)
    {
      hide Absorbed, Digest;
      if hasError {
        return [];
      }
      if finished {
        return finalData;
      }
      finished := true;
      finalData := Finalize();
      r := finalData;
    }

    /** Pads and chains a copy of the state and the waiting bytes. */
    method Finalize() returns (out: seq<Octet>)
      requires Holds(message) && totalBytes == |message| % TWO_64
      ensures out == Digest(kind, message)
    {
      hide Compress, Initial, Chain, Padding, Output, Digest;
      var live, held := state, block;
      var st := new Word[8](i requires 0 <= i < 8 reads live requires live.Length == 8 => live[i]);
      var pad := new Octet[64];
      forall i | 0 <= i < blockLen {
        pad[i] := held[i];
      }
      ghost var chained, tail := state[..], block[..blockLen];
      assert st[..] == chained;
      assert pad[..blockLen] == tail;
      AbsorbedDigest(kind, chained, tail, message);
      Finish(kind, st, pad, blockLen, totalBytes, |message|);
      assert st[..DigestBytes(kind) / 4] == st[..][..DigestBytes(kind) / 4];
      out := WriteWords(kind, st, DigestBytes(kind) / 4);
    }
  }

  /** However a message is cut into pieces, feeding them one by one gives the digest of the whole. */
  method DigestPieces(kind: Kind, pieces: seq<seq<Octet>>) returns (d: seq<Octet>)
    ensures d == Digest(kind, Concat(pieces))
  {
    hide Digest, Absorbed;
    var md := new MessageDigest(Some(kind));
    for i := 0 to |pieces|
      invariant fresh(md) && fresh(md.state) && fresh(md.block) && md.Valid()
      invariant !md.hasError && !md.finished && md.kind == kind && md.message == Concat(pieces[..i])
    {
      assert pieces[..i + 1] == pieces[..i] + [pieces[i]];
      ConcatAppend(pieces[..i], [pieces[i]]);
      assert Concat([pieces[i]]) == pieces[i];
      assert md.message + [] == md.message;
      md.AddData(Some(pieces[i]), |pieces[i]|);
    }
    assert pieces[..|pieces|] == pieces;
    d := md.Result();
  }
}
