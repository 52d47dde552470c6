/**
 The block transforms of MD5 (RFC 1321), SHA-1 and SHA-224/256 (FIPS 180-4): the standards'
 recurrences, and the loops over word arrays that compute them.
 */
module DigestTransforms {

  type Word = bv32
  type Octet = bv8

  datatype Kind = Md5 | Sha1 | Sha224 | Sha256

  // ---------------------------------------------------------------- word operations

  function Add(x: Word, y: Word): Word { x + y }
  function And(x: Word, y: Word): Word { x & y }
  function Or(x: Word, y: Word): Word { x | y }
  function Xor(x: Word, y: Word): Word { x ^ y }
  function Not(x: Word): Word { !x }

  function Rotl(x: Word, n: Word): Word
    requires n <= 32
  {
    (x << n) | (x >> (32 - n))
  }

  function Rotr(x: Word, n: Word): Word
    requires n <= 32
  {
    (x >> n) | (x << (32 - n))
  }

  function Shr(x: Word, n: Word): Word
    requires n <= 32
  {
    x >> n
  }

  function Xor3(x: Word, y: Word, z: Word): Word { Xor(Xor(x, y), z) }

  function LoadBe32(b: seq<Octet>, i: nat): Word
    requires i + 4 <= |b|
  {
    (b[i] as Word << 24) | (b[i + 1] as Word << 16) | (b[i + 2] as Word << 8) | b[i + 3] as Word
  }

  function LoadLe32(b: seq<Octet>, i: nat): Word
    requires i + 4 <= |b|
  {
    b[i] as Word | (b[i + 1] as Word << 8) | (b[i + 2] as Word << 16) | (b[i + 3] as Word << 24)
  }

  // ---------------------------------------------------------------- logical functions of the standards

  function Ch(x: Word, y: Word, z: Word): Word { Xor(And(x, y), And(Not(x), z)) }
  function Maj(x: Word, y: Word, z: Word): Word { Xor3(And(x, y), And(x, z), And(y, z)) }

  /** The source writes `|` where FIPS 180-4 writes exclusive or. */
  lemma ChWithOr(x: Word, y: Word, z: Word)
    ensures Or(And(x, y), And(Not(x), z)) == Ch(x, y, z)
  {
  }

  lemma MajWithOr(x: Word, y: Word, z: Word)
    ensures Or(Or(And(x, y), And(x, z)), And(y, z)) == Maj(x, y, z)
  {
  }

  // ---------------------------------------------------------------- SHA-1

  datatype Five = Five(a: Word, b: Word, c: Word, d: Word, e: Word)

  /** The first `n` words of the message schedule. */
  function Sha1Schedule(block: seq<Octet>, n: nat): (w: seq<Word>)
    requires |block| == 64
    ensures |w| == n
    decreases |block|, n
  {
    if n == 0 then []
    else
      var w := Sha1Schedule(block, n - 1);
      var t := n - 1;
      w + [if t < 16 then LoadBe32(block, 4 * t) else Rotl(Xor(Xor3(w[t - 3], w[t - 8], w[t - 14]), w[t - 16]), 1)]
  }

  function Sha1F(t: nat, x: Word, y: Word, z: Word): Word
  {
    if t < 20 then Ch(x, y, z)
    else if t < 40 then Xor3(x, y, z)
    else if t < 60 then Maj(x, y, z)
    else Xor3(x, y, z)
  }

  function Sha1K(t: nat): Word
  {
    if t < 20 then 0x5a827999 else if t < 40 then 0x6ed9eba1 else if t < 60 then 0x8f1bbcdc else 0xca62c1d6
  }

  function Sha1Step(v: Five, t: nat, wt: Word): Five
  {
    Five(Add(Add(Add(Add(Rotl(v.a, 5), Sha1F(t, v.b, v.c, v.d)), v.e), Sha1K(t)), wt), v.a, Rotl(v.b, 30), v.c, v.d)
  }

  /** The working variables after `t` rounds. */
  function Sha1Rounds(w: seq<Word>, start: Five, t: nat): Five
    requires t <= |w|
    decreases |w|, t
  {
    if t == 0 then start else Sha1Step(Sha1Rounds(w, start, t - 1), t - 1, w[t - 1])
  }

  function AddFive(st: seq<Word>, v: Five): (r: seq<Word>)
    requires |st| == 8
    ensures |r| == 8
  {
    st[0 := Add(st[0], v.a)][1 := Add(st[1], v.b)][2 := Add(st[2], v.c)][3 := Add(st[3], v.d)][4 := Add(st[4], v.e)]
  }

  function Sha1Compress(st: seq<Word>, block: seq<Octet>): (r: seq<Word>)
    requires |st| == 8 && |block| == 64
    ensures |r| == 8
  {
    AddFive(st, Sha1Rounds(Sha1Schedule(block, 80), Five(st[0], st[1], st[2], st[3], st[4]), 80))
  }

  // ---------------------------------------------------------------- SHA-256

  datatype Eight = Eight(a: Word, b: Word, c: Word, d: Word, e: Word, f: Word, g: Word, h: Word)

  function BigSigma0(x: Word): Word { Xor3(Rotr(x, 2), Rotr(x, 13), Rotr(x, 22)) }
  function BigSigma1(x: Word): Word { Xor3(Rotr(x, 6), Rotr(x, 11), Rotr(x, 25)) }
  function SmallSigma0(x: Word): Word { Xor3(Rotr(x, 7), Rotr(x, 18), Shr(x, 3)) }
  function SmallSigma1(x: Word): Word { Xor3(Rotr(x, 17), Rotr(x, 19), Shr(x, 10)) }

  function Sha256K(): (k: seq<Word>)
    ensures |k| == 64
  {
    Sha256KRow(0) + Sha256KRow(1) + Sha256KRow(2) + Sha256KRow(3)
    + Sha256KRow(4) + Sha256KRow(5) + Sha256KRow(6) + Sha256KRow(7)
  }

  function Sha256KRow(row: nat): (k: seq<Word>)
    ensures |k| == 8
  {
    if row == 0 then [0x428a2f98, 0x71374491, 0xb5c0fbcf, 0xe9b5dba5, 0x3956c25b, 0x59f111f1, 0x923f82a4, 0xab1c5ed5]
    else if row == 1 then [0xd807aa98, 0x12835b01, 0x243185be, 0x550c7dc3, 0x72be5d74, 0x80deb1fe, 0x9bdc06a7, 0xc19bf174]
    else if row == 2 then [0xe49b69c1, 0xefbe4786, 0x0fc19dc6, 0x240ca1cc, 0x2de92c6f, 0x4a7484aa, 0x5cb0a9dc, 0x76f988da]
    else if row == 3 then [0x983e5152, 0xa831c66d, 0xb00327c8, 0xbf597fc7, 0xc6e00bf3, 0xd5a79147, 0x06ca6351, 0x14292967]
    else if row == 4 then [0x27b70a85, 0x2e1b2138, 0x4d2c6dfc, 0x53380d13, 0x650a7354, 0x766a0abb, 0x81c2c92e, 0x92722c85]
    else if row == 5 then [0xa2bfe8a1, 0xa81a664b, 0xc24b8b70, 0xc76c51a3, 0xd192e819, 0xd6990624, 0xf40e3585, 0x106aa070]
    else if row == 6 then [0x19a4c116, 0x1e376c08, 0x2748774c, 0x34b0bcb5, 0x391c0cb3, 0x4ed8aa4a, 0x5b9cca4f, 0x682e6ff3]
    else [0x748f82ee, 0x78a5636f, 0x84c87814, 0x8cc70208, 0x90befffa, 0xa4506ceb, 0xbef9a3f7, 0xc67178f2]
  }

  function Sha256NextWord(w2: Word, w7: Word, w15: Word, w16: Word): Word
  {
    Add(Add(Add(w16, SmallSigma0(w15)), w7), SmallSigma1(w2))
  }

  function Sha256Schedule(block: seq<Octet>, n: nat): (w: seq<Word>)
    requires |block| == 64
    ensures |w| == n
    decreases |block|, n
  {
    if n == 0 then []
    else
      var w := Sha256Schedule(block, n - 1);
      var t := n - 1;
      w + [if t < 16 then LoadBe32(block, 4 * t)
           else Sha256NextWord(w[t - 2], w[t - 7], w[t - 15], w[t - 16])]
  }

  function Sha256Step(v: Eight, kt: Word, wt: Word): Eight
  {
    var t1 := Add(Add(Add(Add(v.h, BigSigma1(v.e)), Ch(v.e, v.f, v.g)), kt), wt);
    var t2 := Add(BigSigma0(v.a), Maj(v.a, v.b, v.c));
    Eight(Add(t1, t2), v.a, v.b, v.c, Add(v.d, t1), v.e, v.f, v.g)
  }

  function Sha256Rounds(k: seq<Word>, w: seq<Word>, start: Eight, t: nat): Eight
    requires t <= |w| && t <= |k|
    decreases |w|, t
  {
    if t == 0 then start else Sha256Step(Sha256Rounds(k, w, start, t - 1), k[t - 1], w[t - 1])
  }

  function AddEight(st: seq<Word>, v: Eight): (r: seq<Word>)
    requires |st| == 8
    ensures |r| == 8
  {
    st[0 := Add(st[0], v.a)][1 := Add(st[1], v.b)][2 := Add(st[2], v.c)][3 := Add(st[3], v.d)]
      [4 := Add(st[4], v.e)][5 := Add(st[5], v.f)][6 := Add(st[6], v.g)][7 := Add(st[7], v.h)]
  }

  function Sha256Compress(st: seq<Word>, block: seq<Octet>): (r: seq<Word>)
    requires |st| == 8 && |block| == 64
    ensures |r| == 8
  {
    AddEight(st, Sha256Rounds(Sha256K(), Sha256Schedule(block, 64),
                              Eight(st[0], st[1], st[2], st[3], st[4], st[5], st[6], st[7]), 64))
  }

  // ---------------------------------------------------------------- MD5

  datatype Four = Four(a: Word, b: Word, c: Word, d: Word)

  function Md5K(): (k: seq<Word>)
    ensures |k| == 64
  {
    Md5KRow(0) + Md5KRow(1) + Md5KRow(2) + Md5KRow(3)
    + Md5KRow(4) + Md5KRow(5) + Md5KRow(6) + Md5KRow(7)
  }

  function Md5KRow(row: nat): (k: seq<Word>)
    ensures |k| == 8
  {
    if row == 0 then [0xd76aa478, 0xe8c7b756, 0x242070db, 0xc1bdceee, 0xf57c0faf, 0x4787c62a, 0xa8304613, 0xfd469501]
    else if row == 1 then [0x698098d8, 0x8b44f7af, 0xffff5bb1, 0x895cd7be, 0x6b901122, 0xfd987193, 0xa679438e, 0x49b40821]
    else if row == 2 then [0xf61e2562, 0xc040b340, 0x265e5a51, 0xe9b6c7aa, 0xd62f105d, 0x02441453, 0xd8a1e681, 0xe7d3fbc8]
    else if row == 3 then [0x21e1cde6, 0xc33707d6, 0xf4d50d87, 0x455a14ed, 0xa9e3e905, 0xfcefa3f8, 0x676f02d9, 0x8d2a4c8a]
    else if row == 4 then [0xfffa3942, 0x8771f681, 0x6d9d6122, 0xfde5380c, 0xa4beea44, 0x4bdecfa9, 0xf6bb4b60, 0xbebfbc70]
    else if row == 5 then [0x289b7ec6, 0xeaa127fa, 0xd4ef3085, 0x04881d05, 0xd9d4d039, 0xe6db99e5, 0x1fa27cf8, 0xc4ac5665]
    else if row == 6 then [0xf4292244, 0x432aff97, 0xab9423a7, 0xfc93a039, 0x655b59c3, 0x8f0ccc92, 0xffeff47d, 0x85845dd1]
    else [0x6fa87e4f, 0xfe2ce6e0, 0xa3014314, 0x4e0811a1, 0xf7537e82, 0xbd3af235, 0x2ad7d2bb, 0xeb86d391]
  }

  /** Shift amounts repeat with period four inside each of the four rounds. */
  function Md5Shift(i: nat): (s: Word)
    ensures 4 <= s <= 23
  {
    var col := i % 4;
    if i < 16 then if col == 0 then 7 else if col == 1 then 12 else if col == 2 then 17 else 22
    else if i < 32 then if col == 0 then 5 else if col == 1 then 9 else if col == 2 then 14 else 20
    else if i < 48 then if col == 0 then 4 else if col == 1 then 11 else if col == 2 then 16 else 23
    else if col == 0 then 6 else if col == 1 then 10 else if col == 2 then 15 else 21
  }

  /** F, G, H and I of RFC 1321. */
  function Md5F(i: nat, x: Word, y: Word, z: Word): Word
  {
    if i < 16 then Or(And(x, y), And(Not(x), z))
    else if i < 32 then Or(And(x, z), And(y, Not(z)))
    else if i < 48 then Xor3(x, y, z)
    else Xor(y, Or(x, Not(z)))
  }

  function Md5Index(i: nat): (g: nat)
    ensures g < 16
  {
    if i < 16 then i else if i < 32 then (5 * i + 1) % 16 else if i < 48 then (3 * i + 5) % 16 else (7 * i) % 16
  }

  function Md5Words(block: seq<Octet>, n: nat): (m: seq<Word>)
    requires |block| == 64 && n <= 16
    ensures |m| == n
    decreases |block|, n
  {
    if n == 0 then [] else Md5Words(block, n - 1) + [LoadLe32(block, 4 * (n - 1))]
  }

  function Md5Step(v: Four, i: nat, ki: Word, mg: Word): Four
  {
    Four(v.d, Add(v.b, Rotl(Add(Add(Add(v.a, Md5F(i, v.b, v.c, v.d)), ki), mg), Md5Shift(i))), v.b, v.c)
  }

  function Md5Rounds(k: seq<Word>, m: seq<Word>, start: Four, i: nat): Four
    requires |m| == 16 && i <= |k|
    decreases |m|, i
  {
    if i == 0 then start else Md5Step(Md5Rounds(k, m, start, i - 1), i - 1, k[i - 1], m[Md5Index(i - 1)])
  }

  function AddFour(st: seq<Word>, v: Four): (r: seq<Word>)
    requires |st| == 8
    ensures |r| == 8
  {
    st[0 := Add(st[0], v.a)][1 := Add(st[1], v.b)][2 := Add(st[2], v.c)][3 := Add(st[3], v.d)]
  }

  function Md5Compress(st: seq<Word>, block: seq<Octet>): (r: seq<Word>)
    requires |st| == 8 && |block| == 64
    ensures |r| == 8
  {
    AddFour(st, Md5Rounds(Md5K(), Md5Words(block, 16), Four(st[0], st[1], st[2], st[3]), 64))
  }

  // ---------------------------------------------------------------- all kinds

  function Compress(kind: Kind, st: seq<Word>, block: seq<Octet>): (r: seq<Word>)
    requires |st| == 8 && |block| == 64
    ensures |r| == 8
  {
    hide Md5Compress, Sha1Compress, Sha256Compress;
    match kind
    case Md5 => Md5Compress(st, block)
    case Sha1 => Sha1Compress(st, block)
    case Sha224 => Sha256Compress(st, block)
    case Sha256 => Sha256Compress(st, block)
  }

  // ---------------------------------------------------------------- the loops

  method Sha1FillSchedule(block: seq<Octet>) returns (w: array<Word>)
    requires |block| == 64
    ensures fresh(w) && w.Length == 80 && w[..] == Sha1Schedule(block, 80)
  {
    hide LoadBe32, Rotl, Xor;
    w := new Word[80];
    for i := 0 to 16
      invariant w[..i] == Sha1Schedule(block, i)
    {
      w[i] := LoadBe32(block, 4 * i);
      assert w[..i + 1] == w[..i] + [w[i]];
    }
    for i := 16 to 80
      invariant w[..i] == Sha1Schedule(block, i)
    {
      ghost var s := w[..i];
      assert s[i - 3] == w[i - 3] && s[i - 8] == w[i - 8] && s[i - 14] == w[i - 14] && s[i - 16] == w[i - 16];
      w[i] := Rotl(Xor(Xor3(w[i - 3], w[i - 8], w[i - 14]), w[i - 16]), 1);
      assert w[..i + 1] == s + [w[i]];
    }
    assert w[..] == w[..80];
  }

  method Sha1Round(v: Five, i: nat, wi: Word) returns (r: Five)
    requires i < 80
    ensures r == Sha1Step(v, i, wi)
  {
    hide Add, And, Or, Xor, Not, Rotl, Rotr, Shr;
    var f: Word, k: Word;
    if i < 20 {
      f, k := Or(And(v.b, v.c), And(Not(v.b), v.d)), 0x5a827999;
      ChWithOr(v.b, v.c, v.d);
    } else if i < 40 {
      f, k := Xor3(v.b, v.c, v.d), 0x6ed9eba1;
    } else if i < 60 {
      f, k := Or(Or(And(v.b, v.c), And(v.b, v.d)), And(v.c, v.d)), 0x8f1bbcdc;
      MajWithOr(v.b, v.c, v.d);
    } else {
      f, k := Xor3(v.b, v.c, v.d), 0xca62c1d6;
    }
    assert f == Sha1F(i, v.b, v.c, v.d) && k == Sha1K(i);
    r := Five(Add(Add(Add(Add(Rotl(v.a, 5), f), v.e), k), wi), v.a, Rotl(v.b, 30), v.c, v.d);
  }

  method Sha1Transform(state: array<Word>, block: seq<Octet>)
    requires state.Length == 8 && |block| == 64
    modifies state
    ensures state[..] == Sha1Compress(old(state[..]), block)
  {
    hide Sha1Schedule, Sha1Step, AddFive;
    var w := Sha1FillSchedule(block);
    var v := Five(state[0], state[1], state[2], state[3], state[4]);
    ghost var start := v;
    for i := 0 to 80
      invariant state[..] == old(state[..]) && w[..] == Sha1Schedule(block, 80)
      invariant v == Sha1Rounds(w[..], start, i)
    {
      v := Sha1Round(v, i, w[i]);
    }
    AccumulateFive(state, v);
  }

  method AccumulateFive(state: array<Word>, v: Five)
    requires state.Length == 8
    modifies state
    ensures state[..] == AddFive(old(state[..]), v)
  {
    hide Add;
    state[0] := Add(state[0], v.a);
    state[1] := Add(state[1], v.b);
    state[2] := Add(state[2], v.c);
    state[3] := Add(state[3], v.d);
    state[4] := Add(state[4], v.e);
  }

  method Sha256FillSchedule(block: seq<Octet>) returns (w: array<Word>)
    requires |block| == 64
    ensures fresh(w) && w.Length == 64 && w[..] == Sha256Schedule(block, 64)
  {
    hide LoadBe32, Sha256NextWord;
    w := new Word[64];
    for i := 0 to 16
      invariant w[..i] == Sha256Schedule(block, i)
    {
      w[i] := LoadBe32(block, 4 * i);
      assert w[..i + 1] == w[..i] + [w[i]];
    }
    for i := 16 to 64
      invariant w[..i] == Sha256Schedule(block, i)
    {
      ghost var s := w[..i];
      assert s[i - 2] == w[i - 2] && s[i - 7] == w[i - 7] && s[i - 15] == w[i - 15] && s[i - 16] == w[i - 16];
      w[i] := Sha256Extend(w[i - 2], w[i - 7], w[i - 15], w[i - 16]);
      assert w[..i + 1] == s + [w[i]];
    }
    assert w[..] == w[..64];
  }

  method Sha256Extend(w2: Word, w7: Word, w15: Word, w16: Word) returns (r: Word)
    ensures r == Sha256NextWord(w2, w7, w15, w16)
  {
    hide Add, And, Or, Xor, Not, Rotl, Rotr, Shr;
    var s0 := Xor3(Rotr(w15, 7), Rotr(w15, 18), Shr(w15, 3));
    var s1 := Xor3(Rotr(w2, 17), Rotr(w2, 19), Shr(w2, 10));
    r := Add(Add(Add(w16, s0), w7), s1);
  }

  method Sha256Round(v: Eight, ki: Word, wi: Word) returns (r: Eight)
    ensures r == Sha256Step(v, ki, wi)
  {
    hide Add, And, Or, Xor, Not, Rotl, Rotr, Shr;
    var big1 := Xor3(Rotr(v.e, 6), Rotr(v.e, 11), Rotr(v.e, 25));
    var ch := Xor(And(v.e, v.f), And(Not(v.e), v.g));
    var t1 := Add(Add(Add(Add(v.h, big1), ch), ki), wi);
    var big0 := Xor3(Rotr(v.a, 2), Rotr(v.a, 13), Rotr(v.a, 22));
    var maj := Xor3(And(v.a, v.b), And(v.a, v.c), And(v.b, v.c));
    var t2 := Add(big0, maj);
    r := Eight(Add(t1, t2), v.a, v.b, v.c, Add(v.d, t1), v.e, v.f, v.g);
  }

  method Sha256Transform(state: array<Word>, block: seq<Octet>)
    requires state.Length == 8 && |block| == 64
    modifies state
    ensures state[..] == Sha256Compress(old(state[..]), block)
  {
    hide Sha256Schedule, Sha256Step, AddEight, Sha256K;
    var w := Sha256FillSchedule(block);
    var k := Sha256K();
    var v := Eight(state[0], state[1], state[2], state[3], state[4], state[5], state[6], state[7]);
    ghost var start := v;
    for i := 0 to 64
      invariant state[..] == old(state[..]) && w[..] == Sha256Schedule(block, 64)
      invariant v == Sha256Rounds(k, w[..], start, i)
    {
      v := Sha256Round(v, k[i], w[i]);
    }
    AccumulateEight(state, v);
  }

  method AccumulateEight(state: array<Word>, v: Eight)
    requires state.Length == 8
    modifies state
    ensures state[..] == AddEight(old(state[..]), v)
  {
    hide Add;
    state[0] := Add(state[0], v.a);
    state[1] := Add(state[1], v.b);
    state[2] := Add(state[2], v.c);
    state[3] := Add(state[3], v.d);
    state[4] := Add(state[4], v.e);
    state[5] := Add(state[5], v.f);
    state[6] := Add(state[6], v.g);
    state[7] := Add(state[7], v.h);
  }

  method Md5LoadWords(block: seq<Octet>) returns (m: array<Word>)
    requires |block| == 64
    ensures fresh(m) && m.Length == 16 && m[..] == Md5Words(block, 16)
  {
    hide LoadLe32;
    m := new Word[16];
    for i := 0 to 16
      invariant m[..i] == Md5Words(block, i)
    {
      m[i] := LoadLe32(block, 4 * i);
      assert m[..i + 1] == m[..i] + [m[i]];
    }
    assert m[..] == m[..16];
  }

  method Md5Round(v: Four, i: nat, ki: Word, mg: Word) returns (r: Four)
    requires i < 64
    ensures r == Md5Step(v, i, ki, mg)
  {
    hide Add, And, Or, Xor, Not, Rotl, Rotr, Shr, Md5Shift;
    var f: Word;
    if i < 16 {
      f := Or(And(v.b, v.c), And(Not(v.b), v.d));
    } else if i < 32 {
      f := Or(And(v.d, v.b), And(Not(v.d), v.c));
      SecondRound(v.b, v.c, v.d);
    } else if i < 48 {
      f := Xor3(v.b, v.c, v.d);
    } else {
      f := Xor(v.c, Or(v.b, Not(v.d)));
    }
    assert f == Md5F(i, v.b, v.c, v.d);
    r := Four(v.d, Add(v.b, Rotl(Add(Add(Add(v.a, f), ki), mg), Md5Shift(i))), v.b, v.c);
  }

  lemma SecondRound(b: Word, c: Word, d: Word)
    ensures Or(And(d, b), And(Not(d), c)) == Or(And(b, d), And(c, Not(d)))
  {
  }

  method Md5Transform(state: array<Word>, block: seq<Octet>)
    requires state.Length == 8 && |block| == 64
    modifies state
    ensures state[..] == Md5Compress(old(state[..]), block)
  {
    hide Md5Words, Md5Step, AddFour, Md5K, Md5Index;
    var m := Md5LoadWords(block);
    var k := Md5K();
    var v := Four(state[0], state[1], state[2], state[3]);
    ghost var start := v;
    for i := 0 to 64
      invariant state[..] == old(state[..]) && m[..] == Md5Words(block, 16)
      invariant v == Md5Rounds(k, m[..], start, i)
    {
      v := Md5Round(v, i, k[i], m[Md5Index(i)]);
    }
    AccumulateFour(state, v);
  }

  method AccumulateFour(state: array<Word>, v: Four)
    requires state.Length == 8
    modifies state
    ensures state[..] == AddFour(old(state[..]), v)
  {
    hide Add;
    state[0] := Add(state[0], v.a);
    state[1] := Add(state[1], v.b);
    state[2] := Add(state[2], v.c);
    state[3] := Add(state[3], v.d);
  }

  method TransformBlock(kind: Kind, state: array<Word>, block: seq<Octet>)
    requires state.Length == 8 && |block| == 64
    modifies state
    ensures state[..] == Compress(kind, old(state[..]), block)
  {
    hide Md5Compress, Sha1Compress, Sha256Compress;
    match kind
    case Md5 => Md5Transform(state, block);
    case Sha1 => Sha1Transform(state, block);
    case Sha224 => Sha256Transform(state, block);
    case Sha256 => Sha256Transform(state, block);
  }
}
