/** Bytes, big-endian words and the few sequence facts that every component uses. */
module Bytes {

  type byte = b: int | 0 <= b < 256

  const TWO_31: int := 0x8000_0000
  const TWO_32: int := 0x1_0000_0000
  const TWO_64: int := 0x1_0000_0000_0000_0000

  type Int32 = n: int | -TWO_31 <= n < TWO_31

  /** An integer cast to 32 bits. */
  function ToInt32(n: int): Int32 { (n + TWO_31) % TWO_32 - TWO_31 }

  lemma Int32Kept(n: int)
    ensures -TWO_31 <= n < TWO_31 ==> ToInt32(n) == n
    ensures TWO_31 <= n < TWO_31 + TWO_32 ==> ToInt32(n) == n - TWO_32
  {
  }

  lemma RestShift(n: int, k: int)
    ensures (n + k * TWO_32) % TWO_32 == n % TWO_32
  {
    var q, r := n / TWO_32, n % TWO_32;
    assert n + k * TWO_32 == (q + k) * TWO_32 + r;
  }

  lemma RestThenAdd(a: int, b: int)
    ensures (a % TWO_32 + b) % TWO_32 == (a + b) % TWO_32
  {
    RestShift(a % TWO_32 + b, a / TWO_32);
  }

  datatype Option<+T> = None | Some(value: T)

  function Pow2(n: nat): (p: nat)
    ensures p >= 1
  {
    if n == 0 then 1 else 2 * Pow2(n - 1)
  }

  lemma Pow2Zero()
    ensures Pow2(0) == 1
  {
  }

  lemma {:induction false} Pow2Add(a: nat, b: nat)
    ensures Pow2(a + b) == Pow2(a) * Pow2(b)
  {
    if a > 0 {
      Pow2Add(a - 1, b);
      assert Pow2(a + b) == 2 * Pow2((a - 1) + b);
      assert Pow2(a) * Pow2(b) == 2 * (Pow2(a - 1) * Pow2(b));
    }
  }

  lemma {:induction false} Pow2Monotonic(a: nat, b: nat)
    requires a <= b
    ensures Pow2(a) <= Pow2(b)
  {
    if a < b { Pow2Monotonic(a, b - 1); }
  }

  lemma Pow2Values()
    ensures Pow2(1) == 2 && Pow2(2) == 4 && Pow2(3) == 8 && Pow2(4) == 16
    ensures Pow2(5) == 32 && Pow2(6) == 64 && Pow2(7) == 128 && Pow2(8) == 256
  {
    assert Pow2(1) == 2; assert Pow2(2) == 4; assert Pow2(3) == 8; assert Pow2(4) == 16;
    assert Pow2(5) == 32; assert Pow2(6) == 64; assert Pow2(7) == 128;
  }

  lemma Pow2Words()
    ensures Pow2(16) == 0x1_0000 && Pow2(25) == 0x200_0000 && Pow2(32) == TWO_32 && Pow2(64) == TWO_64
  {
    hide Pow2;
    Pow2Values();
    Pow2Add(8, 8);
    Pow2Add(16, 8);
    Pow2Add(24, 1);
    Pow2Add(16, 16);
    Pow2Add(32, 32);
  }

  lemma DivMod(v: nat, p: nat) returns (q: nat, r: nat)
    requires p > 0
    ensures q == v / p && r == v % p && v == q * p + r && r < p
  {
    q, r := v / p, v % p;
    assert v == p * (v / p) + v % p;
  }

  lemma DivUnique(n: nat, p: nat, q: nat, r: nat)
    requires p > 0 && n == q * p + r && r < p
    ensures n / p == q && n % p == r
  {
    var d := n / p - q;
    assert n == p * (n / p) + n % p;
    assert p * d == p * (n / p) - p * q;
    assert d >= 1 ==> p * d >= p;
    assert d <= -1 ==> p * d <= -(p as int);
  }

  lemma MulMonotonic(x: nat, y: nat, z: nat)
    requires x <= y
    ensures x * z <= y * z
  {
  }

  lemma ModScale(x: nat, a: nat, b: nat)
    requires a > 0 && b > 0
    ensures a * b > 0 && (x * b) % (a * b) == (x % a) * b
    ensures (x % a) * b + b <= a * b
  {
    var q, r := DivMod(x, a);
    assert x * b == q * (a * b) + r * b by { assert (q * a + r) * b == (q * a) * b + r * b; }
    MulMonotonic(r + 1, a, b);
    assert (r + 1) * b == r * b + b;
    DivUnique(x * b, a * b, q, r * b);
  }

  lemma DivNonNegative(v: nat, p: nat)
    requires p > 0
    ensures v / p >= 0
  {
    var q, r := DivMod(v, p);
  }

  /** `v` shifted right by `m` bits. */
  function Shr(v: nat, m: nat): nat
  {
    DivNonNegative(v, Pow2(m));
    v / Pow2(m)
  }

  /** `v` shifted left by `m` bits. */
  function Shl(v: nat, m: nat): nat
  {
    v * Pow2(m)
  }

  lemma ShrShr(v: nat, i: nat)
    ensures Shr(v / 2, i) == Shr(v, i + 1)
  {
    var p := Pow2(i);
    var q, r := DivMod(v, 2 * p);
    assert q * (2 * p) == 2 * (q * p);
    assert v / 2 == q * p + r / 2;
    DivUnique(v / 2, p, q, r / 2);
  }

  /** Is the single-bit mask `bit` set in `flags`? */
  predicate HasFlag(flags: byte, bit: byte)
    requires bit > 0
  {
    (flags / bit) % 2 == 1
  }

  function Ascii(s: string): seq<byte> { seq(|s|, i requires 0 <= i < |s| => s[i] as int % 256) }

  /** The four bytes of a 32-bit word, most significant first. */
  function Be32(v: nat): (s: seq<byte>)
    requires v < TWO_32
    ensures |s| == 4
  {
    var h := v / 256;
    var g := h / 256;
    [g / 256, g % 256, h % 256, v % 256]
  }

  function ReadBe32(s: seq<byte>): (v: nat)
    requires |s| >= 4
    ensures v < TWO_32
  {
    s[0] as int * 0x100_0000 + s[1] as int * 0x1_0000 + s[2] as int * 0x100 + s[3] as int
  }

  /** The most significant byte comes first. */
  lemma Be32IsBigEndian(v: nat)
    requires v < TWO_32
    ensures var s := Be32(v);
      v == s[0] as int * 0x100_0000 + s[1] as int * 0x1_0000 + s[2] as int * 0x100 + s[3] as int
  {
  }

  lemma Be32Inverse(s: seq<byte>)
    requires |s| == 4
    ensures Be32(ReadBe32(s)) == s
  {
    var v := ReadBe32(s);
    assert v / 256 == s[0] as int * 0x1_0000 + s[1] as int * 0x100 + s[2] as int;
    assert v / 256 / 256 == s[0] as int * 0x100 + s[1] as int;
  }

  lemma Be32RoundTrip(v: nat, rest: seq<byte>)
    requires v < TWO_32
    ensures ReadBe32(Be32(v) + rest) == v
    ensures (Be32(v) + rest)[4..] == rest
  {
    var s := Be32(v) + rest;
    var h := v / 256;
    var g := h / 256;
    assert s[0] == g / 256 && s[1] == g % 256 && s[2] == h % 256 && s[3] == v % 256;
  }

  function Min(a: int, b: int): int { if a <= b then a else b }

  function Sum(s: seq<int>): int
  {
    if s == [] then 0 else s[0] + Sum(s[1..])
  }

  lemma {:induction false} SumAppend(s: seq<int>, t: seq<int>)
    ensures Sum(s + t) == Sum(s) + Sum(t)
  {
    if s == [] {
      assert s + t == t;
    } else {
      assert (s + t)[1..] == s[1..] + t;
      SumAppend(s[1..], t);
    }
  }

  /** Concatenation of a list of strings, in order. */
  function Concat<T>(parts: seq<seq<T>>): seq<T>
  {
    if parts == [] then [] else parts[0] + Concat(parts[1..])
  }

  lemma {:induction false} ConcatAppend<T>(a: seq<seq<T>>, b: seq<seq<T>>)
    ensures Concat(a + b) == Concat(a) + Concat(b)
  {
    if a == [] {
      assert a + b == b;
    } else {
      assert (a + b)[1..] == a[1..] + b;
      ConcatAppend(a[1..], b);
    }
  }

  lemma ConcatOne<T>(part: seq<T>)
    ensures Concat([part]) == part
  {
    assert [part][1..] == [] && part + [] == part;
  }
}
