/** Node identifiers of BEP-5: the XOR metric, its order, and the bucket an identifier belongs to. */
module KademliaId {
  import opened Bytes

  const ID_SIZE: int := 20
  const BUCKET_COUNT: int := 160

  /** Twenty bytes, or nothing for an invalid identifier. */
  type NodeId = s: seq<byte> | |s| == 0 || |s| == ID_SIZE

  predicate ValidId(id: NodeId) { |id| == ID_SIZE }

  // ---------------------------------------------------------------- exclusive or

  /** Exclusive or of the low `n` bits. */
  function XorBits(a: nat, b: nat, n: nat): (r: nat)
    ensures r < Pow2(n)
    decreases n
  {
    if n == 0 then 0 else 2 * XorBits(a / 2, b / 2, n - 1) + (a + b) % 2
  }

  lemma {:induction false} XorBitsCancel(a: nat, t: nat, n: nat)
    requires a < Pow2(n)
    ensures XorBits(XorBits(a, t, n), t, n) == a
    decreases n
  {
    if n > 0 {
      XorBitsCancel(a / 2, t / 2, n - 1);
      LowBitCancels(XorBits(a / 2, t / 2, n - 1), a, t);
    }
  }

  lemma LowBitCancels(y: nat, a: nat, t: nat)
    ensures (2 * y + (a + t) % 2) / 2 == y
    ensures (2 * y + (a + t) % 2 + t) % 2 == a % 2
  {
  }

  function XorByte(a: byte, b: byte): byte
  {
    Pow2Values();
    XorBits(a, b, 8)
  }

  lemma XorByteCancel(a: byte, t: byte)
    ensures XorByte(XorByte(a, t), t) == a
  {
    hide XorBits, Pow2;
    Pow2Values();
    XorBitsCancel(a, t, 8);
  }

  function Xor(a: NodeId, b: NodeId): NodeId
  {
    if ValidId(a) && ValidId(b) then seq(ID_SIZE, i requires 0 <= i < ID_SIZE => XorByte(a[i], b[i])) else []
  }

  method XorIds(a: NodeId, b: NodeId) returns (r: NodeId)
    ensures r == Xor(a, b)
  {
    hide XorByte;
    if !ValidId(a) || !ValidId(b) {
      return [];
    }
    var out := new byte[20];
    for i := 0 to ID_SIZE
      invariant forall j :: 0 <= j < i ==> out[j] == XorByte(a[j], b[j])
    {
      out[i] := XorByte(a[i], b[i]);
    }
    r := out[..];
    assert r == Xor(a, b);
  }

  /** Two identifiers at the same place relative to a third are the same. */
  lemma XorInjective(a: NodeId, b: NodeId, t: NodeId)
    requires ValidId(a) && ValidId(b) && ValidId(t) && Xor(a, t) == Xor(b, t)
    ensures a == b
  {
    hide XorByte;
    forall i | 0 <= i < ID_SIZE
      ensures a[i] == b[i]
    {
      XorByteCancel(a[i], t[i]);
      XorByteCancel(b[i], t[i]);
      assert Xor(a, t)[i] == XorByte(a[i], t[i]) && Xor(b, t)[i] == XorByte(b[i], t[i]);
    }
  }

  // ---------------------------------------------------------------- order

  /** The number whose big-endian bytes are `s`. */
  function Value(s: seq<byte>): (v: nat)
    ensures v < Pow2(8 * |s|)
  {
    if s == [] then 0 else
      Shifted(s[0], 8 * (|s| - 1));
      Pow2Values();
      s[0] as int * Pow2(8 * (|s| - 1)) + Value(s[1..])
  }

  lemma Shifted(x: byte, m: nat)
    ensures x as int * Pow2(m) + Pow2(m) <= Pow2(8 + m)
    ensures x as int * Pow2(m) >= 0
  {
    hide Pow2;
    Pow2Values();
    Pow2Add(8, m);
    MulMonotonic(x as int + 1, 256, Pow2(m));
  }

  /** Byte-string comparison, as `std::string` orders identifiers. */
  predicate LexLess(a: seq<byte>, b: seq<byte>)
  {
    if b == [] then false
    else if a == [] then true
    else if a[0] != b[0] then a[0] < b[0]
    else LexLess(a[1..], b[1..])
  }

  lemma {:induction false} LexIsNumeric(a: seq<byte>, b: seq<byte>)
    requires |a| == |b|
    ensures LexLess(a, b) <==> Value(a) < Value(b)
  {
    if a != [] {
      var p := Pow2(8 * (|a| - 1));
      LexIsNumeric(a[1..], b[1..]);
      LeadingByte(a[0], b[0], p, Value(a[1..]), Value(b[1..]));
    }
  }

  lemma LeadingByte(x: byte, y: byte, p: nat, u: nat, v: nat)
    requires u < p && v < p
    ensures x < y ==> x as int * p + u < y as int * p + v
    ensures y < x ==> y as int * p + v < x as int * p + u
    ensures x == y ==> (x as int * p + u < y as int * p + v <==> u < v)
  {
    if x < y { MulMonotonic(x as int + 1, y as int, p); }
    if y < x { MulMonotonic(y as int + 1, x as int, p); }
  }

  lemma {:induction false} ValueInjective(a: seq<byte>, b: seq<byte>)
    requires |a| == |b| && Value(a) == Value(b)
    ensures a == b
  {
    if a != [] {
      LeadingByte(a[0], b[0], Pow2(8 * (|a| - 1)), Value(a[1..]), Value(b[1..]));
      ValueInjective(a[1..], b[1..]);
      assert a == [a[0]] + a[1..] && b == [b[0]] + b[1..];
    }
  }

  /** The XOR distance as a number; 0 when either identifier is invalid. */
  function Distance(a: NodeId, b: NodeId): nat
  {
    Value(Xor(a, b))
  }

  lemma DistanceInjective(a: NodeId, b: NodeId, t: NodeId)
    requires ValidId(a) && ValidId(b) && ValidId(t) && Distance(a, t) == Distance(b, t)
    ensures a == b
  {
    hide XorByte;
    ValueInjective(Xor(a, t), Xor(b, t));
    XorInjective(a, b, t);
  }

  /** Comparing XOR results as byte strings compares distances. */
  lemma ComparesDistance(a: NodeId, b: NodeId, t: NodeId)
    requires ValidId(a) && ValidId(b)
    ensures LexLess(Xor(a, t), Xor(b, t)) <==> Distance(a, t) < Distance(b, t)
  {
    hide XorByte;
    LexIsNumeric(Xor(a, t), Xor(b, t));
  }

  // ---------------------------------------------------------------- buckets

  /** Position of the highest one bit, or -1. */
  function TopBit(d: nat): (i: int)
    ensures i >= -1 && (i == -1 <==> d == 0)
    ensures d > 0 ==> Pow2(i) <= d < Pow2(i + 1)
  {
    if d == 0 then -1 else 1 + TopBit(d / 2)
  }

  lemma TopBitUnique(d: nat, i: nat)
    requires Pow2(i) <= d < Pow2(i + 1)
    ensures TopBit(d) == i
  {
    hide TopBit;
    if TopBit(d) < i { Pow2Monotonic(TopBit(d) + 1, i); }
    if TopBit(d) > i { Pow2Monotonic(i + 1, TopBit(d)); }
  }

  lemma TopBitShifted(x: nat, m: nat, rest: nat)
    requires x > 0 && rest < Pow2(m)
    ensures TopBit(x * Pow2(m) + rest) == TopBit(x) + m
  {
    hide TopBit, Pow2;
    var b := TopBit(x);
    Pow2Add(b, m);
    Pow2Add(b + 1, m);
    MulMonotonic(Pow2(b), x, Pow2(m));
    MulMonotonic(x + 1, Pow2(b + 1), Pow2(m));
    TopBitUnique(x * Pow2(m) + rest, b + m);
  }

  lemma ValueStep(s: seq<byte>)
    requires s != []
    ensures Value(s) == s[0] as int * Pow2(8 * (|s| - 1)) + Value(s[1..])
  {
  }

  /** Leading zero bytes add nothing. */
  lemma ValueOfTail(x: seq<byte>, i: nat)
    requires i < |x| && Value(x) == Value(x[i..])
    ensures x[i] == 0 ==> Value(x) == Value(x[i + 1..])
    ensures x[i] > 0 ==> TopBit(Value(x)) == TopBit(x[i]) + 8 * (|x| - 1 - i)
  {
    hide TopBit, Pow2, Value;
    var s, m := x[i..], 8 * (|x| - 1 - i);
    assert s[1..] == x[i + 1..] && s[0] == x[i];
    ValueStep(s);
    TopOfLeading(s[0], m, Value(s[1..]));
  }

  lemma TopOfLeading(x: byte, m: nat, rest: nat)
    requires rest < Pow2(m)
    ensures x == 0 ==> x as int * Pow2(m) + rest == rest
    ensures x > 0 ==> x as int * Pow2(m) + rest >= 0 && TopBit(x as int * Pow2(m) + rest) == TopBit(x) + m
  {
    hide TopBit, Pow2;
    if x > 0 {
      MulMonotonic(0, x as int, Pow2(m));
      TopBitShifted(x, m, rest);
    }
  }

  predicate BitSet(x: byte, b: nat) { Shr(x, b) % 2 == 1 }

  lemma HighBit(x: byte, b: nat)
    requires x < Pow2(b + 1)
    ensures BitSet(x, b) ==> TopBit(x) == b
    ensures !BitSet(x, b) ==> x < Pow2(b)
  {
    hide TopBit;
    var q, r := DivMod(x, Pow2(b));
    assert q >= 2 ==> q * Pow2(b) >= 2 * Pow2(b) by { if q >= 2 { MulMonotonic(2, q, Pow2(b)); } }
    if q == 1 { TopBitUnique(x, b); }
  }

  /** Counts the leading bits in which two identifiers agree. */
  method CommonPrefixLength(a: NodeId, b: NodeId) returns (bits: nat)
    ensures ValidId(a) && ValidId(b) ==> bits == BUCKET_COUNT - 1 - TopBit(Distance(a, b))
    ensures !(ValidId(a) && ValidId(b)) ==> bits == 0
  {
    hide TopBit, XorByte, Value, BitSet, Pow2;
    if !ValidId(a) || !ValidId(b) {
      return 0;
    }
    bits := 0;
    ghost var x := Xor(a, b);
    assert x[0..] == x;
    for i := 0 to ID_SIZE
      invariant bits == 8 * i && Value(x) == Value(x[i..])
    {
      var v := XorByte(a[i], b[i]);
      ValueOfTail(x, i);
      if v == 0 {
        bits := bits + 8;
        continue;
      }
      var bit := LeadingZeros(v);
      return bits + bit;
    }
    assert Value(x[ID_SIZE..]) == 0 by { ValueNone(); }
  }

  lemma ValueNone()
    ensures Value([]) == 0
  {
  }

  method LeadingZeros(x: byte) returns (zeros: nat)
    requires x > 0
    ensures zeros == 7 - TopBit(x)
  {
    hide TopBit, BitSet;
    zeros := 0;
    var b := 7;
    Pow2Values();
    while b >= 0
      invariant -1 <= b <= 7 && zeros == 7 - b && x < Pow2(b + 1)
    {
      HighBit(x, b);
      if BitSet(x, b) {
        return;
      }
      zeros := zeros + 1;
      b := b - 1;
    }
  }

  /** The bucket of `other` seen from `self`; an invalid identifier falls into the last one. */
  function BucketIndex(self: NodeId, other: NodeId): int
  {
    if ValidId(self) && ValidId(other) then TopBit(Distance(self, other)) else BUCKET_COUNT - 1
  }

  method BucketFor(self: NodeId, other: NodeId) returns (bi: int)
    ensures bi == BucketIndex(self, other)
    ensures bi == -1 <==> (ValidId(self) && self == other)
    ensures -1 <= bi < BUCKET_COUNT && (!ValidId(self) || !ValidId(other) ==> bi == BUCKET_COUNT - 1)
    ensures ValidId(self) && ValidId(other) && bi >= 0 ==> Pow2(bi) <= Distance(self, other) < Pow2(bi + 1)
  {
    hide TopBit, Distance;
    var cpl := CommonPrefixLength(self, other);
    DistanceZero(self, other);
    if cpl >= BUCKET_COUNT {
      return -1;
    }
    return BUCKET_COUNT - 1 - cpl;
  }

  lemma DistanceZero(a: NodeId, b: NodeId)
    ensures ValidId(a) && ValidId(b) ==> (Distance(a, b) == 0 <==> a == b)
  {
    hide XorByte, Value;
    if ValidId(a) && ValidId(b) {
      SelfDistance(b);
      if Distance(a, b) == 0 { DistanceInjective(a, b, b); }
    }
  }

  lemma SelfDistance(a: NodeId)
    ensures Distance(a, a) == 0
  {
    forall x: byte ensures XorByte(x, x) == 0 { XorSelf(x, 8); }
    if ValidId(a) {
      assert forall i :: 0 <= i < |Xor(a, a)| ==> Xor(a, a)[i] == 0;
      ZeroValue(Xor(a, a));
    }
  }

  lemma {:induction false} XorSelf(a: nat, n: nat)
    ensures XorBits(a, a, n) == 0
    decreases n
  {
    if n > 0 { XorSelf(a / 2, n - 1); }
  }

  lemma {:induction false} ZeroValue(s: seq<byte>)
    requires forall i :: 0 <= i < |s| ==> s[i] == 0
    ensures Value(s) == 0
  {
    if s != [] { ZeroValue(s[1..]); }
  }
}
