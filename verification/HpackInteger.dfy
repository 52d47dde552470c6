/**
 Prefix integers of HPACK (section 5.1 of RFC 7541): the specification of what the
 encoder emits and what the decoder accepts, the loops that compute them, and the round trip.
 */
module HpackInteger {
  import opened Bytes

  datatype Decoded = Bad | Good(value: nat, pos: nat)

  function MaxPrefix(prefixBits: nat): nat { Pow2(prefixBits) - 1 }

  /** Seven bits per byte, least significant group first, high bit set on all but the last. */
  function EncodeTail(v: nat): (s: seq<byte>)
    ensures |s| >= 1
  {
    if v < 128 then [v] else [128 + v % 128] + EncodeTail(v / 128)
  }

  /** `firstByte` carries the representation's pattern bits above an all-zero prefix. */
  predicate PatternByte(firstByte: byte, prefixBits: nat)
  {
    1 <= prefixBits <= 7 && firstByte as int % Pow2(prefixBits) == 0 && firstByte as int + MaxPrefix(prefixBits) < 256
  }

  function Encode(value: nat, prefixBits: nat, firstByte: byte): (s: seq<byte>)
    requires PatternByte(firstByte, prefixBits)
    ensures |s| >= 1
    ensures s[0] as int == firstByte as int + Min(value, MaxPrefix(prefixBits))
  {
    if value < MaxPrefix(prefixBits) then
      [firstByte as int + value]
    else
      [firstByte as int + MaxPrefix(prefixBits)] + EncodeTail(value - MaxPrefix(prefixBits))
  }

  /** Continuation bytes: 32-bit wrap-around addition, and at most five of them. */
  function DecodeTail(data: seq<byte>, pos: nat, v: nat, m: nat): (d: Decoded)
    ensures d.Good? ==> pos < d.pos <= |data| && d.value < TWO_32
    decreases |data| - pos
  {
    if pos >= |data| then Bad
    else
      var b := data[pos];
      var next := (v + (b % 128) * Pow2(m)) % TWO_32;
      if b < 128 then Good(next, pos + 1)
      else if m + 7 > 28 then Bad
      else DecodeTail(data, pos + 1, next, m + 7)
  }

  function Decode(data: seq<byte>, pos: nat, prefixBits: nat): (d: Decoded)
    requires 1 <= prefixBits <= 7
    ensures d.Good? ==> pos < d.pos <= |data|
  {
    if pos >= |data| then Bad
    else
      var v := data[pos] as int % Pow2(prefixBits);
      if v < MaxPrefix(prefixBits) then Good(v, pos + 1)
      else DecodeTail(data, pos + 1, v, 0)
  }

  lemma DivStep(w: nat, m: nat)
    ensures w * Pow2(m) == (w % 128) * Pow2(m) + (w / 128) * Pow2(m + 7)
  {
    Pow2Add(m, 7);
    Pow2Values();
    assert w == 128 * (w / 128) + w % 128;
    calc {
      w * Pow2(m);
      (128 * (w / 128) + w % 128) * Pow2(m);
      128 * (w / 128) * Pow2(m) + (w % 128) * Pow2(m);
      (w / 128) * (128 * Pow2(m)) + (w % 128) * Pow2(m);
    }
  }

  /** Six groups of seven bits would not fit a 32-bit word. */
  lemma FewGroups(w: nat, m: nat)
    requires w >= 128 && w * Pow2(m) < TWO_32
    ensures m + 7 < 32
  {
    hide Pow2;
    Pow2Words();
    if m >= 25 { Pow2Monotonic(25, m); }
    MulMonotonic(128, w, Pow2(m));
  }

  // One step of each, so that the inductions below need not unfold them.

  lemma EncodeTailStep(w: nat)
    ensures EncodeTail(w) == if w < 128 then [w] else [128 + w % 128] + EncodeTail(w / 128)
  {
  }

  lemma DecodeTailStep(data: seq<byte>, pos: nat, v: nat, m: nat)
    requires pos < |data|
    ensures var b := data[pos];
      var next := (v + (b % 128) * Pow2(m)) % TWO_32;
      DecodeTail(data, pos, v, m) ==
        if b < 128 then Good(next, pos + 1) else if m + 7 > 28 then Bad else DecodeTail(data, pos + 1, next, m + 7)
  {
  }

  lemma SmallRest(n: nat)
    requires n < TWO_32
    ensures n % TWO_32 == n
  {
  }

  lemma SplitSum(v: nat, w: nat, m: nat)
    requires v + w * Pow2(m) < TWO_32
    ensures var low, high := (w % 128) * Pow2(m), (w / 128) * Pow2(m + 7);
      0 <= low && 0 <= high && v + w * Pow2(m) == v + low + high && (v + low) % TWO_32 == v + low
  {
    hide Pow2;
    DivStep(w, m);
    SmallRest(v + (w % 128) * Pow2(m));
  }

  lemma {:induction false} TailRoundTrip(data: seq<byte>, pos: nat, v: nat, m: nat, w: nat)
    requires pos <= |data| && EncodeTail(w) <= data[pos..]
    requires m % 7 == 0 && v + w * Pow2(m) < TWO_32
    ensures DecodeTail(data, pos, v, m) == Good(v + w * Pow2(m), pos + |EncodeTail(w)|)
    decreases w
  {
    hide Pow2, EncodeTail, DecodeTail;
    EncodeTailStep(w);
    assert data[pos] == data[pos..][0] == EncodeTail(w)[0];
    DecodeTailStep(data, pos, v, m);
    SplitSum(v, w, m);
    if w >= 128 {
      var low := (w % 128) * Pow2(m);
      FewGroups(w, m);
      assert EncodeTail(w)[1..] == EncodeTail(w / 128);
      assert data[pos + 1..] == data[pos..][1..];
      TailRoundTrip(data, pos + 1, v + low, m + 7, w / 128);
    } else {
      assert w % 128 == w;
    }
  }

  // ---------------------------------------------------------------- without the wrap-around

  /** The number the continuation bytes spell, however great. */
  function WideTail(data: seq<byte>, pos: nat, v: nat, m: nat): nat
    decreases |data| - pos
  {
    if pos >= |data| then v
    else
      var next := v + (data[pos] % 128) * Pow2(m);
      if data[pos] < 128 then next else WideTail(data, pos + 1, next, m + 7)
  }

  function Wide(data: seq<byte>, pos: nat, prefixBits: nat): nat
    requires 1 <= prefixBits <= 7 && pos < |data|
  {
    var v := data[pos] as int % Pow2(prefixBits);
    if v < MaxPrefix(prefixBits) then v else WideTail(data, pos + 1, v, 0)
  }

  lemma {:induction false} TailWraps(data: seq<byte>, pos: nat, v: nat, w: nat, m: nat)
    requires v == w % TWO_32 && DecodeTail(data, pos, v, m).Good?
    ensures DecodeTail(data, pos, v, m).value == WideTail(data, pos, w, m) % TWO_32
    decreases |data| - pos
  {
    hide Pow2;
    var add := (data[pos] % 128) * Pow2(m);
    RestThenAdd(w, add);
    if data[pos] >= 128 { TailWraps(data, pos + 1, (v + add) % TWO_32, w + add, m + 7); }
  }

  /** An accepted integer is the one spelled, wrapped to 32 bits: right exactly if that is below 2^32. */
  lemma IntegerExactly(data: seq<byte>, pos: nat, prefixBits: nat)
    requires 1 <= prefixBits <= 7 && Decode(data, pos, prefixBits).Good?
    ensures var value, wide := Decode(data, pos, prefixBits).value, Wide(data, pos, prefixBits);
      value == wide % TWO_32 && (value == wide <==> wide < TWO_32)
  {
    hide Pow2, DecodeTail, WideTail;
    SmallPrefix(data[pos], prefixBits);
    var v := data[pos] as int % Pow2(prefixBits);
    if v >= MaxPrefix(prefixBits) { TailWraps(data, pos + 1, v, v, 0); }
  }

  lemma SmallPrefix(b: byte, prefixBits: nat)
    requires 1 <= prefixBits <= 7
    ensures 0 <= b as int % Pow2(prefixBits) < TWO_32 && (b as int % Pow2(prefixBits)) % TWO_32 == b as int % Pow2(prefixBits)
  {
    Pow2Values();
    Pow2Monotonic(prefixBits, 7);
  }

  /** Five full continuation bytes spell 2^35 + 30, which is read as 30 and not refused. */
  lemma IntegerWraps()
    ensures Decode([0x3f, 0xff, 0xff, 0xff, 0xff, 0x7f], 0, 5) == Good(30, 6)
  {
    hide Pow2, DecodeTail;
    var data: seq<byte> := [0x3f, 0xff, 0xff, 0xff, 0xff, 0x7f];
    SevenBitPowers();
    DecodeTailStep(data, 5, 268435486, 28);
    assert DecodeTail(data, 5, 268435486, 28) == Good(30, 6);
    DecodeTailStep(data, 4, 2097182, 21);
    assert DecodeTail(data, 4, 2097182, 21) == Good(30, 6);
    DecodeTailStep(data, 3, 16414, 14);
    assert DecodeTail(data, 3, 16414, 14) == Good(30, 6);
    DecodeTailStep(data, 2, 158, 7);
    DecodeTailStep(data, 1, 31, 0);
  }

  lemma SevenBitPowers()
    ensures Pow2(0) == 1 && Pow2(5) == 32 && Pow2(7) == 128 && Pow2(14) == 16384
    ensures Pow2(21) == 2097152 && Pow2(28) == 268435456
  {
    Pow2Values();
    assert Pow2(5) == 32 && Pow2(7) == 128;
    hide Pow2;
    Pow2Zero();
    Pow2Add(7, 7);
    Pow2Add(7, 14);
    Pow2Add(7, 21);
  }

  /** Decoding undoes encoding for every 32-bit value, wherever the bytes sit in a longer buffer. */
  lemma RoundTrip(data: seq<byte>, pos: nat, value: nat, prefixBits: nat, firstByte: byte)
    requires PatternByte(firstByte, prefixBits) && value < TWO_32
    requires pos <= |data| && Encode(value, prefixBits, firstByte) <= data[pos..]
    ensures Decode(data, pos, prefixBits) == Good(value, pos + |Encode(value, prefixBits, firstByte)|)
  {
    hide Pow2, DecodeTail, EncodeTail;
    var e := Encode(value, prefixBits, firstByte);
    var mp := MaxPrefix(prefixBits);
    assert data[pos] == data[pos..][0] == e[0];
    LowBits(firstByte, prefixBits, Min(value, mp));
    if value >= mp {
      assert e[1..] == EncodeTail(value - mp);
      assert data[pos + 1..] == data[pos..][1..];
      assert Pow2(0) == 1 by { Pow2Zero(); }
      TailRoundTrip(data, pos + 1, mp, 0, value - mp);
    }
  }

  lemma LowBits(firstByte: byte, prefixBits: nat, low: nat)
    requires PatternByte(firstByte, prefixBits) && low <= MaxPrefix(prefixBits)
    ensures (firstByte as int + low) % Pow2(prefixBits) == low
  {
    hide Pow2;
    var p := Pow2(prefixBits);
    var k, r := DivMod(firstByte, p);
    DivUnique(firstByte as int + low, p, k, low);
  }

  /** The encoder's loop: appends the encoding to the output buffer. */
  method EncodeInteger(out: seq<byte>, value: nat, prefixBits: nat, firstByte: byte) returns (r: seq<byte>)
    requires PatternByte(firstByte, prefixBits)
    ensures r == out + Encode(value, prefixBits, firstByte)
  {
    hide Pow2, EncodeTail;
    var maxPrefix := MaxPrefix(prefixBits);
    if value < maxPrefix {
      return out + [firstByte as int + value];
    }
    r := AppendTail(out + [firstByte as int + maxPrefix], value - maxPrefix);
  }

  method AppendTail(out: seq<byte>, value: nat) returns (r: seq<byte>)
    ensures r == out + EncodeTail(value)
  {
    r := out;
    var v := value;
    while v >= 128
      invariant r + EncodeTail(v) == out + EncodeTail(value)
    {
      assert EncodeTail(v) == [128 + v % 128] + EncodeTail(v / 128);
      r := r + [128 + v % 128];
      v := v / 128;
    }
    r := r + [v];
  }

  /** The decoder's loop: reads at `pos` and leaves the position just past the integer. */
  method DecodeInteger(data: seq<byte>, pos: nat, prefixBits: nat) returns (ok: bool, value: nat, next: nat)
    requires 1 <= prefixBits <= 7
    ensures ok == Decode(data, pos, prefixBits).Good?
    ensures ok ==> Decode(data, pos, prefixBits) == Good(value, next)
  {
    ok, value, next := false, 0, pos;
    if pos >= |data| { return; }
    var maxPrefix := Pow2(prefixBits) - 1;
    var v: nat := data[pos] as int % Pow2(prefixBits);
    next := pos + 1;
    if v < maxPrefix {
      return true, v, next;
    }
    var m := 0;
    while next < |data|
      invariant pos < next <= |data|
      invariant Decode(data, pos, prefixBits) == DecodeTail(data, next, v, m)
    {
      var b := data[next];
      next := next + 1;
      v := (v + (b % 128) * Pow2(m)) % TWO_32;
      m := m + 7;
      if b < 128 {
        return true, v, next;
      }
      if m > 28 { return false, 0, next; }
    }
    return false, 0, next;
  }
}
