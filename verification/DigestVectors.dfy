/**
 The standards' own examples: the digests of the three bytes "abc" in RFC 1321 (appendix A.5) and in the
 examples of FIPS 180-4, round by round.
 */
module DigestVectors {
  import opened Bytes
  import opened DigestTransforms
  import opened Digest

  function Abc(): seq<Octet> { [0x61, 0x62, 0x63] }

  function Octets(n: nat): seq<Octet> { seq(n, _ => 0 as Octet) }

  /** "abc" with its padding, the length last or, for MD5, first. */
  function ShaBlock(): (b: seq<Octet>)
    ensures |b| == 64
  {
    [0x61, 0x62, 0x63, 0x80] + Octets(59) + [0x18]
  }

  function Md5Block(): (b: seq<Octet>)
    ensures |b| == 64
  {
    [0x61, 0x62, 0x63, 0x80] + Octets(52) + [0x18] + Octets(7)
  }

  lemma LengthOfAbc()
    ensures BeBytes(24, 8) == Octets(7) + [0x18] && LeBytes(24, 8) == [0x18] + Octets(7)
  {
    NoLength(7);
    assert OctetOf(24) == 0x18;
  }

  lemma {:induction false} NoLength(n: nat)
    ensures BeBytes(0, n) == Octets(n) && LeBytes(0, n) == Octets(n)
  {
    if n > 0 {
      NoLength(n - 1);
      assert OctetOf(0) == 0;
      assert Octets(n) == Octets(n - 1) + [0] && Octets(n) == [0] + Octets(n - 1);
    }
  }

  lemma PaddedAbc(kind: Kind)
    ensures Abc() + Padding(kind, 3) == if kind == Md5 then Md5Block() else ShaBlock()
  {
    hide BeBytes, LeBytes;
    LengthOfAbc();
    assert Zeros(52) == Octets(52) && Octets(59) == Octets(52) + Octets(7);
    assert ZeroFill(3) == 52 && 8 * 3 % TWO_64 == 24;
  }

  /** The sixteen words of the block for SHA. */
  function ShaWord(t: nat): Word { if t == 0 then 0x61626380 else if t == 15 then 0x18 else 0 }

  lemma ShaLoads(t: nat)
    requires t < 16
    ensures LoadBe32(ShaBlock(), 4 * t) == ShaWord(t)
  {
    var b := ShaBlock();
    assert forall i :: 4 <= i < 63 ==> b[i] == 0;
    assert b[0] == 0x61 && b[1] == 0x62 && b[2] == 0x63 && b[3] == 0x80 && b[63] == 0x18;
  }

  // ---------------------------------------------------------------- the message schedule of SHA-256

  lemma {:induction false} W256Stable(block: seq<Octet>, n: nat, t: nat)
    requires |block| == 64 && t < n
    ensures Sha256Schedule(block, n)[t] == Sha256Schedule(block, t + 1)[t]
  {
    if t < n - 1 { W256Stable(block, n - 1, t); }
  }

  function W256(t: nat): Word
    requires t < 64
  {
    Sha256Schedule(ShaBlock(), 64)[t]
  }

  lemma W256First(t: nat)
    requires t < 16
    ensures W256(t) == ShaWord(t)
  {
    hide LoadBe32, ShaBlock, ShaWord;
    W256Stable(ShaBlock(), 64, t);
    ShaLoads(t);
  }

  lemma W256Next(t: nat)
    requires 16 <= t < 64
    ensures W256(t) == Sha256NextWord(W256(t - 2), W256(t - 7), W256(t - 15), W256(t - 16))
  {
    hide ShaBlock, LoadBe32, Rotl, Xor, Sha256NextWord;
    W256Stable(ShaBlock(), 64, t);
    W256Stable(ShaBlock(), 64, t - 2); W256Stable(ShaBlock(), t, t - 2);
    W256Stable(ShaBlock(), 64, t - 7); W256Stable(ShaBlock(), t, t - 7);
    W256Stable(ShaBlock(), 64, t - 15); W256Stable(ShaBlock(), t, t - 15);
    W256Stable(ShaBlock(), 64, t - 16); W256Stable(ShaBlock(), t, t - 16);
  }

  lemma W256From0()
    ensures W256(0) == 0x61626380 && W256(1) == 0x00000000 && W256(2) == 0x00000000 && W256(3) == 0x00000000
    ensures W256(4) == 0x00000000 && W256(5) == 0x00000000 && W256(6) == 0x00000000 && W256(7) == 0x00000000
  {
    hide W256;
    W256First(0); W256First(1); W256First(2); W256First(3);
    W256First(4); W256First(5); W256First(6); W256First(7);
  }

  lemma W256From8()
    ensures W256(8) == 0x00000000 && W256(9) == 0x00000000 && W256(10) == 0x00000000 && W256(11) == 0x00000000
    ensures W256(12) == 0x00000000 && W256(13) == 0x00000000 && W256(14) == 0x00000000 && W256(15) == 0x00000018
  {
    hide W256;
    W256First(8); W256First(9); W256First(10); W256First(11);
    W256First(12); W256First(13); W256First(14); W256First(15);
  }

  lemma W256From16()
    ensures W256(16) == 0x61626380 && W256(17) == 0x000f0000 && W256(18) == 0x7da86405 && W256(19) == 0x600003c6
    ensures W256(20) == 0x3e9d7b78 && W256(21) == 0x0183fc00 && W256(22) == 0x12dcbfdb && W256(23) == 0xe2e2c38e
  {
    hide W256;
    W256From0(); W256From8();
    W256Next(16); assert W256(16) == 0x61626380; W256Next(17); assert W256(17) == 0x000f0000;
    W256Next(18); assert W256(18) == 0x7da86405; W256Next(19); assert W256(19) == 0x600003c6;
    W256Next(20); assert W256(20) == 0x3e9d7b78; W256Next(21); assert W256(21) == 0x0183fc00;
    W256Next(22); assert W256(22) == 0x12dcbfdb; W256Next(23); assert W256(23) == 0xe2e2c38e;
  }

  lemma W256From24()
    ensures W256(24) == 0xc8215c1a && W256(25) == 0xb73679a2 && W256(26) == 0xe5bc3909 && W256(27) == 0x32663c5b
    ensures W256(28) == 0x9d209d67 && W256(29) == 0xec8726cb && W256(30) == 0x702138a4 && W256(31) == 0xd3b7973b
  {
    hide W256;
    W256From8(); W256From16();
    W256Next(24); assert W256(24) == 0xc8215c1a; W256Next(25); assert W256(25) == 0xb73679a2;
    W256Next(26); assert W256(26) == 0xe5bc3909; W256Next(27); assert W256(27) == 0x32663c5b;
    W256Next(28); assert W256(28) == 0x9d209d67; W256Next(29); assert W256(29) == 0xec8726cb;
    W256Next(30); assert W256(30) == 0x702138a4; W256Next(31); assert W256(31) == 0xd3b7973b;
  }

  lemma W256From32()
    ensures W256(32) == 0x93f5997f && W256(33) == 0x3b68ba73 && W256(34) == 0xaff4ffc1 && W256(35) == 0xf10a5c62
    ensures W256(36) == 0x0a8b3996 && W256(37) == 0x72af830a && W256(38) == 0x9409e33e && W256(39) == 0x24641522
  {
    hide W256;
    W256From16(); W256From24();
    W256Next(32); assert W256(32) == 0x93f5997f; W256Next(33); assert W256(33) == 0x3b68ba73;
    W256Next(34); assert W256(34) == 0xaff4ffc1; W256Next(35); assert W256(35) == 0xf10a5c62;
    W256Next(36); assert W256(36) == 0x0a8b3996; W256Next(37); assert W256(37) == 0x72af830a;
    W256Next(38); assert W256(38) == 0x9409e33e; W256Next(39); assert W256(39) == 0x24641522;
  }

  lemma W256From40()
    ensures W256(40) == 0x9f47bf94 && W256(41) == 0xf0a64f5a && W256(42) == 0x3e246a79 && W256(43) == 0x27333ba3
    ensures W256(44) == 0x0c4763f2 && W256(45) == 0x840abf27 && W256(46) == 0x7a290d5d && W256(47) == 0x065c43da
  {
    hide W256;
    W256From24(); W256From32();
    W256Next(40); assert W256(40) == 0x9f47bf94; W256Next(41); assert W256(41) == 0xf0a64f5a;
    W256Next(42); assert W256(42) == 0x3e246a79; W256Next(43); assert W256(43) == 0x27333ba3;
    W256Next(44); assert W256(44) == 0x0c4763f2; W256Next(45); assert W256(45) == 0x840abf27;
    W256Next(46); assert W256(46) == 0x7a290d5d; W256Next(47); assert W256(47) == 0x065c43da;
  }

  lemma W256From48()
    ensures W256(48) == 0xfb3e89cb && W256(49) == 0xcc7617db && W256(50) == 0xb9e66c34 && W256(51) == 0xa9993667
    ensures W256(52) == 0x84badedd && W256(53) == 0xc21462bc && W256(54) == 0x1487472c && W256(55) == 0xb20f7a99
  {
    hide W256;
    W256From32(); W256From40();
    W256Next(48); assert W256(48) == 0xfb3e89cb; W256Next(49); assert W256(49) == 0xcc7617db;
    W256Next(50); assert W256(50) == 0xb9e66c34; W256Next(51); assert W256(51) == 0xa9993667;
    W256Next(52); assert W256(52) == 0x84badedd; W256Next(53); assert W256(53) == 0xc21462bc;
    W256Next(54); assert W256(54) == 0x1487472c; W256Next(55); assert W256(55) == 0xb20f7a99;
  }

  lemma W256From56()
    ensures W256(56) == 0xef57b9cd && W256(57) == 0xebe6b238 && W256(58) == 0x9fe3095e && W256(59) == 0x78bc8d4b
    ensures W256(60) == 0xa43fcf15 && W256(61) == 0x668b2ff8 && W256(62) == 0xeeaba2cc && W256(63) == 0x12b1edeb
  {
    hide W256;
    W256From40(); W256From48();
    W256Next(56); assert W256(56) == 0xef57b9cd; W256Next(57); assert W256(57) == 0xebe6b238;
    W256Next(58); assert W256(58) == 0x9fe3095e; W256Next(59); assert W256(59) == 0x78bc8d4b;
    W256Next(60); assert W256(60) == 0xa43fcf15; W256Next(61); assert W256(61) == 0x668b2ff8;
    W256Next(62); assert W256(62) == 0xeeaba2cc; W256Next(63); assert W256(63) == 0x12b1edeb;
  }


  // ---------------------------------------------------------------- the message schedule of SHA-1

  lemma {:induction false} W1Stable(block: seq<Octet>, n: nat, t: nat)
    requires |block| == 64 && t < n
    ensures Sha1Schedule(block, n)[t] == Sha1Schedule(block, t + 1)[t]
  {
    if t < n - 1 { W1Stable(block, n - 1, t); }
  }

  function W1(t: nat): Word
    requires t < 80
  {
    Sha1Schedule(ShaBlock(), 80)[t]
  }

  lemma W1First(t: nat)
    requires t < 16
    ensures W1(t) == ShaWord(t)
  {
    hide LoadBe32, ShaBlock, ShaWord;
    W1Stable(ShaBlock(), 80, t);
    ShaLoads(t);
  }

  lemma W1Next(t: nat)
    requires 16 <= t < 80
    ensures W1(t) == Rotl(Xor(Xor3(W1(t - 3), W1(t - 8), W1(t - 14)), W1(t - 16)), 1)
  {
    hide ShaBlock, LoadBe32, Rotl, Xor, Sha256NextWord;
    W1Stable(ShaBlock(), 80, t);
    W1Stable(ShaBlock(), 80, t - 3); W1Stable(ShaBlock(), t, t - 3);
    W1Stable(ShaBlock(), 80, t - 8); W1Stable(ShaBlock(), t, t - 8);
    W1Stable(ShaBlock(), 80, t - 14); W1Stable(ShaBlock(), t, t - 14);
    W1Stable(ShaBlock(), 80, t - 16); W1Stable(ShaBlock(), t, t - 16);
  }

  lemma W1From0()
    ensures W1(0) == 0x61626380 && W1(1) == 0x00000000 && W1(2) == 0x00000000 && W1(3) == 0x00000000
    ensures W1(4) == 0x00000000 && W1(5) == 0x00000000 && W1(6) == 0x00000000 && W1(7) == 0x00000000
  {
    hide W1;
    W1First(0); W1First(1); W1First(2); W1First(3);
    W1First(4); W1First(5); W1First(6); W1First(7);
  }

  lemma W1From8()
    ensures W1(8) == 0x00000000 && W1(9) == 0x00000000 && W1(10) == 0x00000000 && W1(11) == 0x00000000
    ensures W1(12) == 0x00000000 && W1(13) == 0x00000000 && W1(14) == 0x00000000 && W1(15) == 0x00000018
  {
    hide W1;
    W1First(8); W1First(9); W1First(10); W1First(11);
    W1First(12); W1First(13); W1First(14); W1First(15);
  }

  lemma W1From16()
    ensures W1(16) == 0xc2c4c700 && W1(17) == 0x00000000 && W1(18) == 0x00000030 && W1(19) == 0x85898e01
    ensures W1(20) == 0x00000000 && W1(21) == 0x00000060 && W1(22) == 0x0b131c03 && W1(23) == 0x00000030
  {
    hide W1;
    W1From0(); W1From8();
    W1Next(16); assert W1(16) == 0xc2c4c700; W1Next(17); assert W1(17) == 0x00000000;
    W1Next(18); assert W1(18) == 0x00000030; W1Next(19); assert W1(19) == 0x85898e01;
    W1Next(20); assert W1(20) == 0x00000000; W1Next(21); assert W1(21) == 0x00000060;
    W1Next(22); assert W1(22) == 0x0b131c03; W1Next(23); assert W1(23) == 0x00000030;
  }

  lemma W1From24()
    ensures W1(24) == 0x85898ec1 && W1(25) == 0x16263806 && W1(26) == 0x00000000 && W1(27) == 0x00000180
    ensures W1(28) == 0x2c4c700c && W1(29) == 0x000000f0 && W1(30) == 0x93afb507 && W1(31) == 0x5898e048
  {
    hide W1;
    W1From8(); W1From16();
    W1Next(24); assert W1(24) == 0x85898ec1; W1Next(25); assert W1(25) == 0x16263806;
    W1Next(26); assert W1(26) == 0x00000000; W1Next(27); assert W1(27) == 0x00000180;
    W1Next(28); assert W1(28) == 0x2c4c700c; W1Next(29); assert W1(29) == 0x000000f0;
    W1Next(30); assert W1(30) == 0x93afb507; W1Next(31); assert W1(31) == 0x5898e048;
  }

  lemma W1From32()
    ensures W1(32) == 0x8e9a9202 && W1(33) == 0x00000600 && W1(34) == 0xb131c0f0 && W1(35) == 0x16263bc6
    ensures W1(36) == 0x4ebed41e && W1(37) == 0x626380a1 && W1(38) == 0x16263806 && W1(39) == 0x000018c0
  {
    hide W1;
    W1From16(); W1From24();
    W1Next(32); assert W1(32) == 0x8e9a9202; W1Next(33); assert W1(33) == 0x00000600;
    W1Next(34); assert W1(34) == 0xb131c0f0; W1Next(35); assert W1(35) == 0x16263bc6;
    W1Next(36); assert W1(36) == 0x4ebed41e; W1Next(37); assert W1(37) == 0x626380a1;
    W1Next(38); assert W1(38) == 0x16263806; W1Next(39); assert W1(39) == 0x000018c0;
  }

  lemma W1From40()
    ensures W1(40) == 0xd2e138c4 && W1(41) == 0x00000f00 && W1(42) == 0x3afb5079 && W1(43) == 0x898e04e5
    ensures W1(44) == 0xe2ba3c2b && W1(45) == 0x000060c0 && W1(46) == 0x053a37cd && W1(47) == 0x74458547
  {
    hide W1;
    W1From24(); W1From32();
    W1Next(40); assert W1(40) == 0xd2e138c4; W1Next(41); assert W1(41) == 0x00000f00;
    W1Next(42); assert W1(42) == 0x3afb5079; W1Next(43); assert W1(43) == 0x898e04e5;
    W1Next(44); assert W1(44) == 0xe2ba3c2b; W1Next(45); assert W1(45) == 0x000060c0;
    W1Next(46); assert W1(46) == 0x053a37cd; W1Next(47); assert W1(47) == 0x74458547;
  }

  lemma W1From48()
    ensures W1(48) == 0xda9415ed && W1(49) == 0x26380a16 && W1(50) == 0x626383a1 && W1(51) == 0x4ebf54de
    ensures W1(52) == 0x3835b44b && W1(53) == 0x0000f600 && W1(54) == 0x1e84c7a3 && W1(55) == 0x98e04d98
  {
    hide W1;
    W1From32(); W1From40();
    W1Next(48); assert W1(48) == 0xda9415ed; W1Next(49); assert W1(49) == 0x26380a16;
    W1Next(50); assert W1(50) == 0x626383a1; W1Next(51); assert W1(51) == 0x4ebf54de;
    W1Next(52); assert W1(52) == 0x3835b44b; W1Next(53); assert W1(53) == 0x0000f600;
    W1Next(54); assert W1(54) == 0x1e84c7a3; W1Next(55); assert W1(55) == 0x98e04d98;
  }

  lemma W1From56()
    ensures W1(56) == 0x651d16a0 && W1(57) == 0x62658ca1 && W1(58) == 0x458544d6 && W1(59) == 0x44584cb7
    ensures W1(60) == 0x7ba06619 && W1(61) == 0x6380aea2 && W1(62) == 0x0ae55269 && W1(63) == 0x627b49a1
  {
    hide W1;
    W1From40(); W1From48();
    W1Next(56); assert W1(56) == 0x651d16a0; W1Next(57); assert W1(57) == 0x62658ca1;
    W1Next(58); assert W1(58) == 0x458544d6; W1Next(59); assert W1(59) == 0x44584cb7;
    W1Next(60); assert W1(60) == 0x7ba06619; W1Next(61); assert W1(61) == 0x6380aea2;
    W1Next(62); assert W1(62) == 0x0ae55269; W1Next(63); assert W1(63) == 0x627b49a1;
  }

  lemma W1From64()
    ensures W1(64) == 0x7cd45c9d && W1(65) == 0x000f0000 && W1(66) == 0xfb50753a && W1(67) == 0xec6765e8
    ensures W1(68) == 0xba3c2be2 && W1(69) == 0x0060c000 && W1(70) == 0x3a37cd05 && W1(71) == 0x458546f4
  {
    hide W1;
    W1From48(); W1From56();
    W1Next(64); assert W1(64) == 0x7cd45c9d; W1Next(65); assert W1(65) == 0x000f0000;
    W1Next(66); assert W1(66) == 0xfb50753a; W1Next(67); assert W1(67) == 0xec6765e8;
    W1Next(68); assert W1(68) == 0xba3c2be2; W1Next(69); assert W1(69) == 0x0060c000;
    W1Next(70); assert W1(70) == 0x3a37cd05; W1Next(71); assert W1(71) == 0x458546f4;
  }

  lemma W1From72()
    ensures W1(72) == 0xb8599dd6 && W1(73) == 0x380a1a26 && W1(74) == 0x01e02203 && W1(75) == 0xe7cc3456
    ensures W1(76) == 0xe6e60b69 && W1(77) == 0x00f60a00 && W1(78) == 0x5795ef4f && W1(79) == 0x822e0879
  {
    hide W1;
    W1From56(); W1From64();
    W1Next(72); assert W1(72) == 0xb8599dd6; W1Next(73); assert W1(73) == 0x380a1a26;
    W1Next(74); assert W1(74) == 0x01e02203; W1Next(75); assert W1(75) == 0xe7cc3456;
    W1Next(76); assert W1(76) == 0xe6e60b69; W1Next(77); assert W1(77) == 0x00f60a00;
    W1Next(78); assert W1(78) == 0x5795ef4f; W1Next(79); assert W1(79) == 0x822e0879;
  }

  // ---------------------------------------------------------------- the rounds of SHA-256

  lemma Sha256Row(row: nat, col: nat)
    requires row < 8 && col < 8
    ensures Sha256K()[8 * row + col] == Sha256KRow(row)[col]
  {
    hide Sha256KRow;
  }

  function At256(t: nat): Eight
    requires t <= 64
  {
    Sha256Rounds(Sha256K(), Sha256Schedule(ShaBlock(), 64), Eight(0x6a09e667, 0xbb67ae85, 0x3c6ef372, 0xa54ff53a, 0x510e527f, 0x9b05688c, 0x1f83d9ab, 0x5be0cd19), t)
  }

  lemma Sha256Turn(t: nat, v: Eight, k: Word, w: Word, next: Eight)
    requires t < 64 && (t == 0 || At256(t) == v) && (t == 0 ==> v == Eight(0x6a09e667, 0xbb67ae85, 0x3c6ef372, 0xa54ff53a, 0x510e527f, 0x9b05688c, 0x1f83d9ab, 0x5be0cd19))
    requires Sha256KRow(t / 8)[t % 8] == k && W256(t) == w && Sha256Step(v, k, w) == next
    ensures At256(t + 1) == next
  {
    hide Sha256Step, Sha256K, Sha256KRow, Sha256Schedule, ShaBlock;
    Sha256Row(t / 8, t % 8);
    assert t == 0 ==> At256(0) == v;
    assert At256(t + 1) == Sha256Step(At256(t), Sha256K()[t], Sha256Schedule(ShaBlock(), 64)[t]);
  }

  lemma Sha256Round4()
    ensures At256(4) == Eight(0xd550f666, 0xc8c347a7, 0x5a6ad9ad, 0x5d6aebcd, 0x24e00850, 0xf92939eb, 0x78ce7989, 0xfa2a4622)
  {
    hide At256, W256;
    W256From0();
    Sha256Turn(0, Eight(0x6a09e667, 0xbb67ae85, 0x3c6ef372, 0xa54ff53a, 0x510e527f, 0x9b05688c, 0x1f83d9ab, 0x5be0cd19), 0x428a2f98, 0x61626380,
               Eight(0x5d6aebcd, 0x6a09e667, 0xbb67ae85, 0x3c6ef372, 0xfa2a4622, 0x510e527f, 0x9b05688c, 0x1f83d9ab));
    Sha256Turn(1, Eight(0x5d6aebcd, 0x6a09e667, 0xbb67ae85, 0x3c6ef372, 0xfa2a4622, 0x510e527f, 0x9b05688c, 0x1f83d9ab), 0x71374491, 0x00000000,
               Eight(0x5a6ad9ad, 0x5d6aebcd, 0x6a09e667, 0xbb67ae85, 0x78ce7989, 0xfa2a4622, 0x510e527f, 0x9b05688c));
    Sha256Turn(2, Eight(0x5a6ad9ad, 0x5d6aebcd, 0x6a09e667, 0xbb67ae85, 0x78ce7989, 0xfa2a4622, 0x510e527f, 0x9b05688c), 0xb5c0fbcf, 0x00000000,
               Eight(0xc8c347a7, 0x5a6ad9ad, 0x5d6aebcd, 0x6a09e667, 0xf92939eb, 0x78ce7989, 0xfa2a4622, 0x510e527f));
    Sha256Turn(3, Eight(0xc8c347a7, 0x5a6ad9ad, 0x5d6aebcd, 0x6a09e667, 0xf92939eb, 0x78ce7989, 0xfa2a4622, 0x510e527f), 0xe9b5dba5, 0x00000000,
               Eight(0xd550f666, 0xc8c347a7, 0x5a6ad9ad, 0x5d6aebcd, 0x24e00850, 0xf92939eb, 0x78ce7989, 0xfa2a4622));
  }

  lemma Sha256Round8()
    ensures At256(8) == Eight(0x85a07b5f, 0xe5030380, 0x2b4209f5, 0x04409a6a, 0x0c657a79, 0x9b27a401, 0x714260ad, 0x43ada245)
  {
    hide At256, W256;
    Sha256Round4();
    W256From0();
    Sha256Turn(4, Eight(0xd550f666, 0xc8c347a7, 0x5a6ad9ad, 0x5d6aebcd, 0x24e00850, 0xf92939eb, 0x78ce7989, 0xfa2a4622), 0x3956c25b, 0x00000000,
               Eight(0x04409a6a, 0xd550f666, 0xc8c347a7, 0x5a6ad9ad, 0x43ada245, 0x24e00850, 0xf92939eb, 0x78ce7989));
    Sha256Turn(5, Eight(0x04409a6a, 0xd550f666, 0xc8c347a7, 0x5a6ad9ad, 0x43ada245, 0x24e00850, 0xf92939eb, 0x78ce7989), 0x59f111f1, 0x00000000,
               Eight(0x2b4209f5, 0x04409a6a, 0xd550f666, 0xc8c347a7, 0x714260ad, 0x43ada245, 0x24e00850, 0xf92939eb));
    Sha256Turn(6, Eight(0x2b4209f5, 0x04409a6a, 0xd550f666, 0xc8c347a7, 0x714260ad, 0x43ada245, 0x24e00850, 0xf92939eb), 0x923f82a4, 0x00000000,
               Eight(0xe5030380, 0x2b4209f5, 0x04409a6a, 0xd550f666, 0x9b27a401, 0x714260ad, 0x43ada245, 0x24e00850));
    Sha256Turn(7, Eight(0xe5030380, 0x2b4209f5, 0x04409a6a, 0xd550f666, 0x9b27a401, 0x714260ad, 0x43ada245, 0x24e00850), 0xab1c5ed5, 0x00000000,
               Eight(0x85a07b5f, 0xe5030380, 0x2b4209f5, 0x04409a6a, 0x0c657a79, 0x9b27a401, 0x714260ad, 0x43ada245));
  }

  lemma Sha256Round12()
    ensures At256(12) == Eight(0xf71fc5a9, 0x4798a3f4, 0x8c87346b, 0x8e04ecb9, 0x816fd6e9, 0x436b23e8, 0x1cc92596, 0x32ca2d8c)
  {
    hide At256, W256;
    Sha256Round8();
    W256From8();
    Sha256Turn(8, Eight(0x85a07b5f, 0xe5030380, 0x2b4209f5, 0x04409a6a, 0x0c657a79, 0x9b27a401, 0x714260ad, 0x43ada245), 0xd807aa98, 0x00000000,
               Eight(0x8e04ecb9, 0x85a07b5f, 0xe5030380, 0x2b4209f5, 0x32ca2d8c, 0x0c657a79, 0x9b27a401, 0x714260ad));
    Sha256Turn(9, Eight(0x8e04ecb9, 0x85a07b5f, 0xe5030380, 0x2b4209f5, 0x32ca2d8c, 0x0c657a79, 0x9b27a401, 0x714260ad), 0x12835b01, 0x00000000,
               Eight(0x8c87346b, 0x8e04ecb9, 0x85a07b5f, 0xe5030380, 0x1cc92596, 0x32ca2d8c, 0x0c657a79, 0x9b27a401));
    Sha256Turn(10, Eight(0x8c87346b, 0x8e04ecb9, 0x85a07b5f, 0xe5030380, 0x1cc92596, 0x32ca2d8c, 0x0c657a79, 0x9b27a401), 0x243185be, 0x00000000,
               Eight(0x4798a3f4, 0x8c87346b, 0x8e04ecb9, 0x85a07b5f, 0x436b23e8, 0x1cc92596, 0x32ca2d8c, 0x0c657a79));
    Sha256Turn(11, Eight(0x4798a3f4, 0x8c87346b, 0x8e04ecb9, 0x85a07b5f, 0x436b23e8, 0x1cc92596, 0x32ca2d8c, 0x0c657a79), 0x550c7dc3, 0x00000000,
               Eight(0xf71fc5a9, 0x4798a3f4, 0x8c87346b, 0x8e04ecb9, 0x816fd6e9, 0x436b23e8, 0x1cc92596, 0x32ca2d8c));
  }

  lemma Sha256Round16()
    ensures At256(16) == Eight(0xb0fa238e, 0xc0645fde, 0xd932eb16, 0x87912990, 0x07590dcd, 0x0b92f20c, 0x745a48de, 0x1e578218)
  {
    hide At256, W256;
    Sha256Round12();
    W256From8();
    Sha256Turn(12, Eight(0xf71fc5a9, 0x4798a3f4, 0x8c87346b, 0x8e04ecb9, 0x816fd6e9, 0x436b23e8, 0x1cc92596, 0x32ca2d8c), 0x72be5d74, 0x00000000,
               Eight(0x87912990, 0xf71fc5a9, 0x4798a3f4, 0x8c87346b, 0x1e578218, 0x816fd6e9, 0x436b23e8, 0x1cc92596));
    Sha256Turn(13, Eight(0x87912990, 0xf71fc5a9, 0x4798a3f4, 0x8c87346b, 0x1e578218, 0x816fd6e9, 0x436b23e8, 0x1cc92596), 0x80deb1fe, 0x00000000,
               Eight(0xd932eb16, 0x87912990, 0xf71fc5a9, 0x4798a3f4, 0x745a48de, 0x1e578218, 0x816fd6e9, 0x436b23e8));
    Sha256Turn(14, Eight(0xd932eb16, 0x87912990, 0xf71fc5a9, 0x4798a3f4, 0x745a48de, 0x1e578218, 0x816fd6e9, 0x436b23e8), 0x9bdc06a7, 0x00000000,
               Eight(0xc0645fde, 0xd932eb16, 0x87912990, 0xf71fc5a9, 0x0b92f20c, 0x745a48de, 0x1e578218, 0x816fd6e9));
    Sha256Turn(15, Eight(0xc0645fde, 0xd932eb16, 0x87912990, 0xf71fc5a9, 0x0b92f20c, 0x745a48de, 0x1e578218, 0x816fd6e9), 0xc19bf174, 0x00000018,
               Eight(0xb0fa238e, 0xc0645fde, 0xd932eb16, 0x87912990, 0x07590dcd, 0x0b92f20c, 0x745a48de, 0x1e578218));
  }

  lemma Sha256Round20()
    ensures At256(20) == Eight(0xe1f20c33, 0xfe777bbf, 0xc2fbd9d1, 0x21da9a9b, 0xb0638179, 0xcc899961, 0x846ee454, 0x8034229c)
  {
    hide At256, W256;
    Sha256Round16();
    W256From16();
    Sha256Turn(16, Eight(0xb0fa238e, 0xc0645fde, 0xd932eb16, 0x87912990, 0x07590dcd, 0x0b92f20c, 0x745a48de, 0x1e578218), 0xe49b69c1, 0x61626380,
               Eight(0x21da9a9b, 0xb0fa238e, 0xc0645fde, 0xd932eb16, 0x8034229c, 0x07590dcd, 0x0b92f20c, 0x745a48de));
    Sha256Turn(17, Eight(0x21da9a9b, 0xb0fa238e, 0xc0645fde, 0xd932eb16, 0x8034229c, 0x07590dcd, 0x0b92f20c, 0x745a48de), 0xefbe4786, 0x000f0000,
               Eight(0xc2fbd9d1, 0x21da9a9b, 0xb0fa238e, 0xc0645fde, 0x846ee454, 0x8034229c, 0x07590dcd, 0x0b92f20c));
    Sha256Turn(18, Eight(0xc2fbd9d1, 0x21da9a9b, 0xb0fa238e, 0xc0645fde, 0x846ee454, 0x8034229c, 0x07590dcd, 0x0b92f20c), 0x0fc19dc6, 0x7da86405,
               Eight(0xfe777bbf, 0xc2fbd9d1, 0x21da9a9b, 0xb0fa238e, 0xcc899961, 0x846ee454, 0x8034229c, 0x07590dcd));
    Sha256Turn(19, Eight(0xfe777bbf, 0xc2fbd9d1, 0x21da9a9b, 0xb0fa238e, 0xcc899961, 0x846ee454, 0x8034229c, 0x07590dcd), 0x240ca1cc, 0x600003c6,
               Eight(0xe1f20c33, 0xfe777bbf, 0xc2fbd9d1, 0x21da9a9b, 0xb0638179, 0xcc899961, 0x846ee454, 0x8034229c));
  }

  lemma Sha256Round24()
    ensures At256(24) == Eight(0xc5d53d8d, 0xa7a3623f, 0xc2606d6d, 0x9dc68b63, 0xaa47c347, 0x49f5114a, 0xe1257970, 0x8ada8930)
  {
    hide At256, W256;
    Sha256Round20();
    W256From16();
    Sha256Turn(20, Eight(0xe1f20c33, 0xfe777bbf, 0xc2fbd9d1, 0x21da9a9b, 0xb0638179, 0xcc899961, 0x846ee454, 0x8034229c), 0x2de92c6f, 0x3e9d7b78,
               Eight(0x9dc68b63, 0xe1f20c33, 0xfe777bbf, 0xc2fbd9d1, 0x8ada8930, 0xb0638179, 0xcc899961, 0x846ee454));
    Sha256Turn(21, Eight(0x9dc68b63, 0xe1f20c33, 0xfe777bbf, 0xc2fbd9d1, 0x8ada8930, 0xb0638179, 0xcc899961, 0x846ee454), 0x4a7484aa, 0x0183fc00,
               Eight(0xc2606d6d, 0x9dc68b63, 0xe1f20c33, 0xfe777bbf, 0xe1257970, 0x8ada8930, 0xb0638179, 0xcc899961));
    Sha256Turn(22, Eight(0xc2606d6d, 0x9dc68b63, 0xe1f20c33, 0xfe777bbf, 0xe1257970, 0x8ada8930, 0xb0638179, 0xcc899961), 0x5cb0a9dc, 0x12dcbfdb,
               Eight(0xa7a3623f, 0xc2606d6d, 0x9dc68b63, 0xe1f20c33, 0x49f5114a, 0xe1257970, 0x8ada8930, 0xb0638179));
    Sha256Turn(23, Eight(0xa7a3623f, 0xc2606d6d, 0x9dc68b63, 0xe1f20c33, 0x49f5114a, 0xe1257970, 0x8ada8930, 0xb0638179), 0x76f988da, 0xe2e2c38e,
               Eight(0xc5d53d8d, 0xa7a3623f, 0xc2606d6d, 0x9dc68b63, 0xaa47c347, 0x49f5114a, 0xe1257970, 0x8ada8930));
  }

  lemma Sha256Round28()
    ensures At256(28) == Eight(0x77d37528, 0xb62ec4bc, 0xcde8037d, 0x1c2c2838, 0xedffbff8, 0xc74c6516, 0x14383d8e, 0x2823ef91)
  {
    hide At256, W256;
    Sha256Round24();
    W256From24();
    Sha256Turn(24, Eight(0xc5d53d8d, 0xa7a3623f, 0xc2606d6d, 0x9dc68b63, 0xaa47c347, 0x49f5114a, 0xe1257970, 0x8ada8930), 0x983e5152, 0xc8215c1a,
               Eight(0x1c2c2838, 0xc5d53d8d, 0xa7a3623f, 0xc2606d6d, 0x2823ef91, 0xaa47c347, 0x49f5114a, 0xe1257970));
    Sha256Turn(25, Eight(0x1c2c2838, 0xc5d53d8d, 0xa7a3623f, 0xc2606d6d, 0x2823ef91, 0xaa47c347, 0x49f5114a, 0xe1257970), 0xa831c66d, 0xb73679a2,
               Eight(0xcde8037d, 0x1c2c2838, 0xc5d53d8d, 0xa7a3623f, 0x14383d8e, 0x2823ef91, 0xaa47c347, 0x49f5114a));
    Sha256Turn(26, Eight(0xcde8037d, 0x1c2c2838, 0xc5d53d8d, 0xa7a3623f, 0x14383d8e, 0x2823ef91, 0xaa47c347, 0x49f5114a), 0xb00327c8, 0xe5bc3909,
               Eight(0xb62ec4bc, 0xcde8037d, 0x1c2c2838, 0xc5d53d8d, 0xc74c6516, 0x14383d8e, 0x2823ef91, 0xaa47c347));
    Sha256Turn(27, Eight(0xb62ec4bc, 0xcde8037d, 0x1c2c2838, 0xc5d53d8d, 0xc74c6516, 0x14383d8e, 0x2823ef91, 0xaa47c347), 0xbf597fc7, 0x32663c5b,
               Eight(0x77d37528, 0xb62ec4bc, 0xcde8037d, 0x1c2c2838, 0xedffbff8, 0xc74c6516, 0x14383d8e, 0x2823ef91));
  }

  lemma Sha256Round32()
    ensures At256(32) == Eight(0x73b33bf5, 0xea992a22, 0xa0060b30, 0x363482c9, 0xba591112, 0x0109ab3a, 0xade79437, 0x6112a3b7)
  {
    hide At256, W256;
    Sha256Round28();
    W256From24();
    Sha256Turn(28, Eight(0x77d37528, 0xb62ec4bc, 0xcde8037d, 0x1c2c2838, 0xedffbff8, 0xc74c6516, 0x14383d8e, 0x2823ef91), 0xc6e00bf3, 0x9d209d67,
               Eight(0x363482c9, 0x77d37528, 0xb62ec4bc, 0xcde8037d, 0x6112a3b7, 0xedffbff8, 0xc74c6516, 0x14383d8e));
    Sha256Turn(29, Eight(0x363482c9, 0x77d37528, 0xb62ec4bc, 0xcde8037d, 0x6112a3b7, 0xedffbff8, 0xc74c6516, 0x14383d8e), 0xd5a79147, 0xec8726cb,
               Eight(0xa0060b30, 0x363482c9, 0x77d37528, 0xb62ec4bc, 0xade79437, 0x6112a3b7, 0xedffbff8, 0xc74c6516));
    Sha256Turn(30, Eight(0xa0060b30, 0x363482c9, 0x77d37528, 0xb62ec4bc, 0xade79437, 0x6112a3b7, 0xedffbff8, 0xc74c6516), 0x06ca6351, 0x702138a4,
               Eight(0xea992a22, 0xa0060b30, 0x363482c9, 0x77d37528, 0x0109ab3a, 0xade79437, 0x6112a3b7, 0xedffbff8));
    Sha256Turn(31, Eight(0xea992a22, 0xa0060b30, 0x363482c9, 0x77d37528, 0x0109ab3a, 0xade79437, 0x6112a3b7, 0xedffbff8), 0x14292967, 0xd3b7973b,
               Eight(0x73b33bf5, 0xea992a22, 0xa0060b30, 0x363482c9, 0xba591112, 0x0109ab3a, 0xade79437, 0x6112a3b7));
  }

  lemma Sha256Round36()
    ensures At256(36) == Eight(0x65a0cfe4, 0xa9a7738c, 0xfe604df5, 0x98e12507, 0xf4b002d6, 0x085f3833, 0x59249dd3, 0x9cd9f5f6)
  {
    hide At256, W256;
    Sha256Round32();
    W256From32();
    Sha256Turn(32, Eight(0x73b33bf5, 0xea992a22, 0xa0060b30, 0x363482c9, 0xba591112, 0x0109ab3a, 0xade79437, 0x6112a3b7), 0x27b70a85, 0x93f5997f,
               Eight(0x98e12507, 0x73b33bf5, 0xea992a22, 0xa0060b30, 0x9cd9f5f6, 0xba591112, 0x0109ab3a, 0xade79437));
    Sha256Turn(33, Eight(0x98e12507, 0x73b33bf5, 0xea992a22, 0xa0060b30, 0x9cd9f5f6, 0xba591112, 0x0109ab3a, 0xade79437), 0x2e1b2138, 0x3b68ba73,
               Eight(0xfe604df5, 0x98e12507, 0x73b33bf5, 0xea992a22, 0x59249dd3, 0x9cd9f5f6, 0xba591112, 0x0109ab3a));
    Sha256Turn(34, Eight(0xfe604df5, 0x98e12507, 0x73b33bf5, 0xea992a22, 0x59249dd3, 0x9cd9f5f6, 0xba591112, 0x0109ab3a), 0x4d2c6dfc, 0xaff4ffc1,
               Eight(0xa9a7738c, 0xfe604df5, 0x98e12507, 0x73b33bf5, 0x085f3833, 0x59249dd3, 0x9cd9f5f6, 0xba591112));
    Sha256Turn(35, Eight(0xa9a7738c, 0xfe604df5, 0x98e12507, 0x73b33bf5, 0x085f3833, 0x59249dd3, 0x9cd9f5f6, 0xba591112), 0x53380d13, 0xf10a5c62,
               Eight(0x65a0cfe4, 0xa9a7738c, 0xfe604df5, 0x98e12507, 0xf4b002d6, 0x085f3833, 0x59249dd3, 0x9cd9f5f6));
  }

  lemma Sha256Round40()
    ensures At256(40) == Eight(0x79ea687a, 0x6dc57a8a, 0x34df1604, 0x41a65cb1, 0x1efbc0a0, 0xf0781bc8, 0xa507a53d, 0x0772a26b)
  {
    hide At256, W256;
    Sha256Round36();
    W256From32();
    Sha256Turn(36, Eight(0x65a0cfe4, 0xa9a7738c, 0xfe604df5, 0x98e12507, 0xf4b002d6, 0x085f3833, 0x59249dd3, 0x9cd9f5f6), 0x650a7354, 0x0a8b3996,
               Eight(0x41a65cb1, 0x65a0cfe4, 0xa9a7738c, 0xfe604df5, 0x0772a26b, 0xf4b002d6, 0x085f3833, 0x59249dd3));
    Sha256Turn(37, Eight(0x41a65cb1, 0x65a0cfe4, 0xa9a7738c, 0xfe604df5, 0x0772a26b, 0xf4b002d6, 0x085f3833, 0x59249dd3), 0x766a0abb, 0x72af830a,
               Eight(0x34df1604, 0x41a65cb1, 0x65a0cfe4, 0xa9a7738c, 0xa507a53d, 0x0772a26b, 0xf4b002d6, 0x085f3833));
    Sha256Turn(38, Eight(0x34df1604, 0x41a65cb1, 0x65a0cfe4, 0xa9a7738c, 0xa507a53d, 0x0772a26b, 0xf4b002d6, 0x085f3833), 0x81c2c92e, 0x9409e33e,
               Eight(0x6dc57a8a, 0x34df1604, 0x41a65cb1, 0x65a0cfe4, 0xf0781bc8, 0xa507a53d, 0x0772a26b, 0xf4b002d6));
    Sha256Turn(39, Eight(0x6dc57a8a, 0x34df1604, 0x41a65cb1, 0x65a0cfe4, 0xf0781bc8, 0xa507a53d, 0x0772a26b, 0xf4b002d6), 0x92722c85, 0x24641522,
               Eight(0x79ea687a, 0x6dc57a8a, 0x34df1604, 0x41a65cb1, 0x1efbc0a0, 0xf0781bc8, 0xa507a53d, 0x0772a26b));
  }

  lemma Sha256Round44()
    ensures At256(44) == Eight(0x9d4baf93, 0x17aa0dfe, 0xdf46652f, 0xd6670766, 0xfda24c2e, 0xdecd4715, 0x838b2711, 0x26352d63)
  {
    hide At256, W256;
    Sha256Round40();
    W256From40();
    Sha256Turn(40, Eight(0x79ea687a, 0x6dc57a8a, 0x34df1604, 0x41a65cb1, 0x1efbc0a0, 0xf0781bc8, 0xa507a53d, 0x0772a26b), 0xa2bfe8a1, 0x9f47bf94,
               Eight(0xd6670766, 0x79ea687a, 0x6dc57a8a, 0x34df1604, 0x26352d63, 0x1efbc0a0, 0xf0781bc8, 0xa507a53d));
    Sha256Turn(41, Eight(0xd6670766, 0x79ea687a, 0x6dc57a8a, 0x34df1604, 0x26352d63, 0x1efbc0a0, 0xf0781bc8, 0xa507a53d), 0xa81a664b, 0xf0a64f5a,
               Eight(0xdf46652f, 0xd6670766, 0x79ea687a, 0x6dc57a8a, 0x838b2711, 0x26352d63, 0x1efbc0a0, 0xf0781bc8));
    Sha256Turn(42, Eight(0xdf46652f, 0xd6670766, 0x79ea687a, 0x6dc57a8a, 0x838b2711, 0x26352d63, 0x1efbc0a0, 0xf0781bc8), 0xc24b8b70, 0x3e246a79,
               Eight(0x17aa0dfe, 0xdf46652f, 0xd6670766, 0x79ea687a, 0xdecd4715, 0x838b2711, 0x26352d63, 0x1efbc0a0));
    Sha256Turn(43, Eight(0x17aa0dfe, 0xdf46652f, 0xd6670766, 0x79ea687a, 0xdecd4715, 0x838b2711, 0x26352d63, 0x1efbc0a0), 0xc76c51a3, 0x27333ba3,
               Eight(0x9d4baf93, 0x17aa0dfe, 0xdf46652f, 0xd6670766, 0xfda24c2e, 0xdecd4715, 0x838b2711, 0x26352d63));
  }

  lemma Sha256Round48()
    ensures At256(48) == Eight(0x4172328d, 0xa14c14b0, 0x72ab4b91, 0x26628815, 0xfecf0bc6, 0xd57b94a9, 0xb7755da1, 0xa80f11f0)
  {
    hide At256, W256;
    Sha256Round44();
    W256From40();
    Sha256Turn(44, Eight(0x9d4baf93, 0x17aa0dfe, 0xdf46652f, 0xd6670766, 0xfda24c2e, 0xdecd4715, 0x838b2711, 0x26352d63), 0xd192e819, 0x0c4763f2,
               Eight(0x26628815, 0x9d4baf93, 0x17aa0dfe, 0xdf46652f, 0xa80f11f0, 0xfda24c2e, 0xdecd4715, 0x838b2711));
    Sha256Turn(45, Eight(0x26628815, 0x9d4baf93, 0x17aa0dfe, 0xdf46652f, 0xa80f11f0, 0xfda24c2e, 0xdecd4715, 0x838b2711), 0xd6990624, 0x840abf27,
               Eight(0x72ab4b91, 0x26628815, 0x9d4baf93, 0x17aa0dfe, 0xb7755da1, 0xa80f11f0, 0xfda24c2e, 0xdecd4715));
    Sha256Turn(46, Eight(0x72ab4b91, 0x26628815, 0x9d4baf93, 0x17aa0dfe, 0xb7755da1, 0xa80f11f0, 0xfda24c2e, 0xdecd4715), 0xf40e3585, 0x7a290d5d,
               Eight(0xa14c14b0, 0x72ab4b91, 0x26628815, 0x9d4baf93, 0xd57b94a9, 0xb7755da1, 0xa80f11f0, 0xfda24c2e));
    Sha256Turn(47, Eight(0xa14c14b0, 0x72ab4b91, 0x26628815, 0x9d4baf93, 0xd57b94a9, 0xb7755da1, 0xa80f11f0, 0xfda24c2e), 0x106aa070, 0x065c43da,
               Eight(0x4172328d, 0xa14c14b0, 0x72ab4b91, 0x26628815, 0xfecf0bc6, 0xd57b94a9, 0xb7755da1, 0xa80f11f0));
  }

  lemma Sha256Round52()
    ensures At256(52) == Eight(0x886e7a22, 0x7a0508a1, 0xf11bfaa8, 0x05757ceb, 0x49231c1e, 0x52f1ccf7, 0x6e5c390c, 0xbd714038)
  {
    hide At256, W256;
    Sha256Round48();
    W256From48();
    Sha256Turn(48, Eight(0x4172328d, 0xa14c14b0, 0x72ab4b91, 0x26628815, 0xfecf0bc6, 0xd57b94a9, 0xb7755da1, 0xa80f11f0), 0x19a4c116, 0xfb3e89cb,
               Eight(0x05757ceb, 0x4172328d, 0xa14c14b0, 0x72ab4b91, 0xbd714038, 0xfecf0bc6, 0xd57b94a9, 0xb7755da1));
    Sha256Turn(49, Eight(0x05757ceb, 0x4172328d, 0xa14c14b0, 0x72ab4b91, 0xbd714038, 0xfecf0bc6, 0xd57b94a9, 0xb7755da1), 0x1e376c08, 0xcc7617db,
               Eight(0xf11bfaa8, 0x05757ceb, 0x4172328d, 0xa14c14b0, 0x6e5c390c, 0xbd714038, 0xfecf0bc6, 0xd57b94a9));
    Sha256Turn(50, Eight(0xf11bfaa8, 0x05757ceb, 0x4172328d, 0xa14c14b0, 0x6e5c390c, 0xbd714038, 0xfecf0bc6, 0xd57b94a9), 0x2748774c, 0xb9e66c34,
               Eight(0x7a0508a1, 0xf11bfaa8, 0x05757ceb, 0x4172328d, 0x52f1ccf7, 0x6e5c390c, 0xbd714038, 0xfecf0bc6));
    Sha256Turn(51, Eight(0x7a0508a1, 0xf11bfaa8, 0x05757ceb, 0x4172328d, 0x52f1ccf7, 0x6e5c390c, 0xbd714038, 0xfecf0bc6), 0x34b0bcb5, 0xa9993667,
               Eight(0x886e7a22, 0x7a0508a1, 0xf11bfaa8, 0x05757ceb, 0x49231c1e, 0x52f1ccf7, 0x6e5c390c, 0xbd714038));
  }

  lemma Sha256Round56()
    ensures At256(56) == Eight(0x38cc9913, 0x3ec45cdb, 0xf5702fdb, 0x101fd28f, 0x54cb266b, 0xe50e1b4f, 0x9f4787c3, 0x529e7d00)
  {
    hide At256, W256;
    Sha256Round52();
    W256From48();
    Sha256Turn(52, Eight(0x886e7a22, 0x7a0508a1, 0xf11bfaa8, 0x05757ceb, 0x49231c1e, 0x52f1ccf7, 0x6e5c390c, 0xbd714038), 0x391c0cb3, 0x84badedd,
               Eight(0x101fd28f, 0x886e7a22, 0x7a0508a1, 0xf11bfaa8, 0x529e7d00, 0x49231c1e, 0x52f1ccf7, 0x6e5c390c));
    Sha256Turn(53, Eight(0x101fd28f, 0x886e7a22, 0x7a0508a1, 0xf11bfaa8, 0x529e7d00, 0x49231c1e, 0x52f1ccf7, 0x6e5c390c), 0x4ed8aa4a, 0xc21462bc,
               Eight(0xf5702fdb, 0x101fd28f, 0x886e7a22, 0x7a0508a1, 0x9f4787c3, 0x529e7d00, 0x49231c1e, 0x52f1ccf7));
    Sha256Turn(54, Eight(0xf5702fdb, 0x101fd28f, 0x886e7a22, 0x7a0508a1, 0x9f4787c3, 0x529e7d00, 0x49231c1e, 0x52f1ccf7), 0x5b9cca4f, 0x1487472c,
               Eight(0x3ec45cdb, 0xf5702fdb, 0x101fd28f, 0x886e7a22, 0xe50e1b4f, 0x9f4787c3, 0x529e7d00, 0x49231c1e));
    Sha256Turn(55, Eight(0x3ec45cdb, 0xf5702fdb, 0x101fd28f, 0x886e7a22, 0xe50e1b4f, 0x9f4787c3, 0x529e7d00, 0x49231c1e), 0x682e6ff3, 0xb20f7a99,
               Eight(0x38cc9913, 0x3ec45cdb, 0xf5702fdb, 0x101fd28f, 0x54cb266b, 0xe50e1b4f, 0x9f4787c3, 0x529e7d00));
  }

  lemma Sha256Round60()
    ensures At256(60) == Eight(0xb6ae8fff, 0xffb70472, 0xc062d46f, 0xfcd1887b, 0xb21bad3d, 0x6d83bfc6, 0x7e44008e, 0x9b5e906c)
  {
    hide At256, W256;
    Sha256Round56();
    W256From56();
    Sha256Turn(56, Eight(0x38cc9913, 0x3ec45cdb, 0xf5702fdb, 0x101fd28f, 0x54cb266b, 0xe50e1b4f, 0x9f4787c3, 0x529e7d00), 0x748f82ee, 0xef57b9cd,
               Eight(0xfcd1887b, 0x38cc9913, 0x3ec45cdb, 0xf5702fdb, 0x9b5e906c, 0x54cb266b, 0xe50e1b4f, 0x9f4787c3));
    Sha256Turn(57, Eight(0xfcd1887b, 0x38cc9913, 0x3ec45cdb, 0xf5702fdb, 0x9b5e906c, 0x54cb266b, 0xe50e1b4f, 0x9f4787c3), 0x78a5636f, 0xebe6b238,
               Eight(0xc062d46f, 0xfcd1887b, 0x38cc9913, 0x3ec45cdb, 0x7e44008e, 0x9b5e906c, 0x54cb266b, 0xe50e1b4f));
    Sha256Turn(58, Eight(0xc062d46f, 0xfcd1887b, 0x38cc9913, 0x3ec45cdb, 0x7e44008e, 0x9b5e906c, 0x54cb266b, 0xe50e1b4f), 0x84c87814, 0x9fe3095e,
               Eight(0xffb70472, 0xc062d46f, 0xfcd1887b, 0x38cc9913, 0x6d83bfc6, 0x7e44008e, 0x9b5e906c, 0x54cb266b));
    Sha256Turn(59, Eight(0xffb70472, 0xc062d46f, 0xfcd1887b, 0x38cc9913, 0x6d83bfc6, 0x7e44008e, 0x9b5e906c, 0x54cb266b), 0x8cc70208, 0x78bc8d4b,
               Eight(0xb6ae8fff, 0xffb70472, 0xc062d46f, 0xfcd1887b, 0xb21bad3d, 0x6d83bfc6, 0x7e44008e, 0x9b5e906c));
  }

  lemma Sha256Round64()
    ensures At256(64) == Eight(0x506e3058, 0xd39a2165, 0x04d24d6c, 0xb85e2ce9, 0x5ef50f24, 0xfb121210, 0x948d25b6, 0x961f4894)
  {
    hide At256, W256;
    Sha256Round60();
    W256From56();
    Sha256Turn(60, Eight(0xb6ae8fff, 0xffb70472, 0xc062d46f, 0xfcd1887b, 0xb21bad3d, 0x6d83bfc6, 0x7e44008e, 0x9b5e906c), 0x90befffa, 0xa43fcf15,
               Eight(0xb85e2ce9, 0xb6ae8fff, 0xffb70472, 0xc062d46f, 0x961f4894, 0xb21bad3d, 0x6d83bfc6, 0x7e44008e));
    Sha256Turn(61, Eight(0xb85e2ce9, 0xb6ae8fff, 0xffb70472, 0xc062d46f, 0x961f4894, 0xb21bad3d, 0x6d83bfc6, 0x7e44008e), 0xa4506ceb, 0x668b2ff8,
               Eight(0x04d24d6c, 0xb85e2ce9, 0xb6ae8fff, 0xffb70472, 0x948d25b6, 0x961f4894, 0xb21bad3d, 0x6d83bfc6));
    Sha256Turn(62, Eight(0x04d24d6c, 0xb85e2ce9, 0xb6ae8fff, 0xffb70472, 0x948d25b6, 0x961f4894, 0xb21bad3d, 0x6d83bfc6), 0xbef9a3f7, 0xeeaba2cc,
               Eight(0xd39a2165, 0x04d24d6c, 0xb85e2ce9, 0xb6ae8fff, 0xfb121210, 0x948d25b6, 0x961f4894, 0xb21bad3d));
    Sha256Turn(63, Eight(0xd39a2165, 0x04d24d6c, 0xb85e2ce9, 0xb6ae8fff, 0xfb121210, 0x948d25b6, 0x961f4894, 0xb21bad3d), 0xc67178f2, 0x12b1edeb,
               Eight(0x506e3058, 0xd39a2165, 0x04d24d6c, 0xb85e2ce9, 0x5ef50f24, 0xfb121210, 0x948d25b6, 0x961f4894));
  }

  // ---------------------------------------------------------------- the rounds of SHA-1

  function At1(t: nat): Five
    requires t <= 80
  {
    Sha1Rounds(Sha1Schedule(ShaBlock(), 80), Five(0x67452301, 0xefcdab89, 0x98badcfe, 0x10325476, 0xc3d2e1f0), t)
  }

  lemma Sha1Turn(t: nat, v: Five, w: Word, next: Five)
    requires t < 80 && (t == 0 || At1(t) == v) && (t == 0 ==> v == Five(0x67452301, 0xefcdab89, 0x98badcfe, 0x10325476, 0xc3d2e1f0))
    requires W1(t) == w && Sha1Step(v, t, w) == next
    ensures At1(t + 1) == next
  {
    hide Sha1Step, Sha1Schedule, ShaBlock;
    assert t == 0 ==> At1(0) == v;
    assert At1(t + 1) == Sha1Step(At1(t), t, Sha1Schedule(ShaBlock(), 80)[t]);
  }

  lemma Sha1Round8()
    ensures At1(8) == Five(0x9e8c07d4, 0x993e30c1, 0x0ff1f290, 0xb3f52677, 0xf3763846)
  {
    hide At1, W1;
    W1From0();
    Sha1Turn(0, Five(0x67452301, 0xefcdab89, 0x98badcfe, 0x10325476, 0xc3d2e1f0), 0x61626380, Five(0x0116fc33, 0x67452301, 0x7bf36ae2, 0x98badcfe, 0x10325476));
    Sha1Turn(1, Five(0x0116fc33, 0x67452301, 0x7bf36ae2, 0x98badcfe, 0x10325476), 0x00000000, Five(0x8990536d, 0x0116fc33, 0x59d148c0, 0x7bf36ae2, 0x98badcfe));
    Sha1Turn(2, Five(0x8990536d, 0x0116fc33, 0x59d148c0, 0x7bf36ae2, 0x98badcfe), 0x00000000, Five(0xa1390f08, 0x8990536d, 0xc045bf0c, 0x59d148c0, 0x7bf36ae2));
    Sha1Turn(3, Five(0xa1390f08, 0x8990536d, 0xc045bf0c, 0x59d148c0, 0x7bf36ae2), 0x00000000, Five(0xcdd8e11b, 0xa1390f08, 0x626414db, 0xc045bf0c, 0x59d148c0));
    Sha1Turn(4, Five(0xcdd8e11b, 0xa1390f08, 0x626414db, 0xc045bf0c, 0x59d148c0), 0x00000000, Five(0xcfd499de, 0xcdd8e11b, 0x284e43c2, 0x626414db, 0xc045bf0c));
    Sha1Turn(5, Five(0xcfd499de, 0xcdd8e11b, 0x284e43c2, 0x626414db, 0xc045bf0c), 0x00000000, Five(0x3fc7ca40, 0xcfd499de, 0xf3763846, 0x284e43c2, 0x626414db));
    Sha1Turn(6, Five(0x3fc7ca40, 0xcfd499de, 0xf3763846, 0x284e43c2, 0x626414db), 0x00000000, Five(0x993e30c1, 0x3fc7ca40, 0xb3f52677, 0xf3763846, 0x284e43c2));
    Sha1Turn(7, Five(0x993e30c1, 0x3fc7ca40, 0xb3f52677, 0xf3763846, 0x284e43c2), 0x00000000, Five(0x9e8c07d4, 0x993e30c1, 0x0ff1f290, 0xb3f52677, 0xf3763846));
  }

  lemma Sha1Round16()
    ensures At1(16) == Five(0x20bdd62f, 0x196bee77, 0x644a3da5, 0x1181ed99, 0x18c623f9)
  {
    hide At1, W1;
    Sha1Round8();
    W1From8();
    Sha1Turn(8, Five(0x9e8c07d4, 0x993e30c1, 0x0ff1f290, 0xb3f52677, 0xf3763846), 0x00000000, Five(0x4b6ae328, 0x9e8c07d4, 0x664f8c30, 0x0ff1f290, 0xb3f52677));
    Sha1Turn(9, Five(0x4b6ae328, 0x9e8c07d4, 0x664f8c30, 0x0ff1f290, 0xb3f52677), 0x00000000, Five(0x8351f929, 0x4b6ae328, 0x27a301f5, 0x664f8c30, 0x0ff1f290));
    Sha1Turn(10, Five(0x8351f929, 0x4b6ae328, 0x27a301f5, 0x664f8c30, 0x0ff1f290), 0x00000000, Five(0xfbda9e89, 0x8351f929, 0x12dab8ca, 0x27a301f5, 0x664f8c30));
    Sha1Turn(11, Five(0xfbda9e89, 0x8351f929, 0x12dab8ca, 0x27a301f5, 0x664f8c30), 0x00000000, Five(0x63188fe4, 0xfbda9e89, 0x60d47e4a, 0x12dab8ca, 0x27a301f5));
    Sha1Turn(12, Five(0x63188fe4, 0xfbda9e89, 0x60d47e4a, 0x12dab8ca, 0x27a301f5), 0x00000000, Five(0x4607b664, 0x63188fe4, 0x7ef6a7a2, 0x60d47e4a, 0x12dab8ca));
    Sha1Turn(13, Five(0x4607b664, 0x63188fe4, 0x7ef6a7a2, 0x60d47e4a, 0x12dab8ca), 0x00000000, Five(0x9128f695, 0x4607b664, 0x18c623f9, 0x7ef6a7a2, 0x60d47e4a));
    Sha1Turn(14, Five(0x9128f695, 0x4607b664, 0x18c623f9, 0x7ef6a7a2, 0x60d47e4a), 0x00000000, Five(0x196bee77, 0x9128f695, 0x1181ed99, 0x18c623f9, 0x7ef6a7a2));
    Sha1Turn(15, Five(0x196bee77, 0x9128f695, 0x1181ed99, 0x18c623f9, 0x7ef6a7a2), 0x00000018, Five(0x20bdd62f, 0x196bee77, 0x644a3da5, 0x1181ed99, 0x18c623f9));
  }

  lemma Sha1Round24()
    ensures At1(24) == Five(0xd541f12d, 0x21283486, 0x0ce88eff, 0x868dec32, 0x7f67875f)
  {
    hide At1, W1;
    Sha1Round16();
    W1From16();
    Sha1Turn(16, Five(0x20bdd62f, 0x196bee77, 0x644a3da5, 0x1181ed99, 0x18c623f9), 0xc2c4c700, Five(0x4e925823, 0x20bdd62f, 0xc65afb9d, 0x644a3da5, 0x1181ed99));
    Sha1Turn(17, Five(0x4e925823, 0x20bdd62f, 0xc65afb9d, 0x644a3da5, 0x1181ed99), 0x00000000, Five(0x82aa6728, 0x4e925823, 0xc82f758b, 0xc65afb9d, 0x644a3da5));
    Sha1Turn(18, Five(0x82aa6728, 0x4e925823, 0xc82f758b, 0xc65afb9d, 0x644a3da5), 0x00000030, Five(0xdc64901d, 0x82aa6728, 0xd3a49608, 0xc82f758b, 0xc65afb9d));
    Sha1Turn(19, Five(0xdc64901d, 0x82aa6728, 0xd3a49608, 0xc82f758b, 0xc65afb9d), 0x85898e01, Five(0xfd9e1d7d, 0xdc64901d, 0x20aa99ca, 0xd3a49608, 0xc82f758b));
    Sha1Turn(20, Five(0xfd9e1d7d, 0xdc64901d, 0x20aa99ca, 0xd3a49608, 0xc82f758b), 0x00000000, Five(0x1a37b0ca, 0xfd9e1d7d, 0x77192407, 0x20aa99ca, 0xd3a49608));
    Sha1Turn(21, Five(0x1a37b0ca, 0xfd9e1d7d, 0x77192407, 0x20aa99ca, 0xd3a49608), 0x00000060, Five(0x33a23bfc, 0x1a37b0ca, 0x7f67875f, 0x77192407, 0x20aa99ca));
    Sha1Turn(22, Five(0x33a23bfc, 0x1a37b0ca, 0x7f67875f, 0x77192407, 0x20aa99ca), 0x0b131c03, Five(0x21283486, 0x33a23bfc, 0x868dec32, 0x7f67875f, 0x77192407));
    Sha1Turn(23, Five(0x21283486, 0x33a23bfc, 0x868dec32, 0x7f67875f, 0x77192407), 0x00000030, Five(0xd541f12d, 0x21283486, 0x0ce88eff, 0x868dec32, 0x7f67875f));
  }

  lemma Sha1Round32()
    ensures At1(32) == Five(0x3b845d33, 0x1267b407, 0x717eebd7, 0xa0dc2d4b, 0xd2aa1365)
  {
    hide At1, W1;
    Sha1Round24();
    W1From24();
    Sha1Turn(24, Five(0xd541f12d, 0x21283486, 0x0ce88eff, 0x868dec32, 0x7f67875f), 0x85898ec1, Five(0xc7567dc6, 0xd541f12d, 0x884a0d21, 0x0ce88eff, 0x868dec32));
    Sha1Turn(25, Five(0xc7567dc6, 0xd541f12d, 0x884a0d21, 0x0ce88eff, 0x868dec32), 0x16263806, Five(0x48413ba4, 0xc7567dc6, 0x75507c4b, 0x884a0d21, 0x0ce88eff));
    Sha1Turn(26, Five(0x48413ba4, 0xc7567dc6, 0x75507c4b, 0x884a0d21, 0x0ce88eff), 0x00000000, Five(0xbe35fbd5, 0x48413ba4, 0xb1d59f71, 0x75507c4b, 0x884a0d21));
    Sha1Turn(27, Five(0xbe35fbd5, 0x48413ba4, 0xb1d59f71, 0x75507c4b, 0x884a0d21), 0x00000180, Five(0x4aa84d97, 0xbe35fbd5, 0x12104ee9, 0xb1d59f71, 0x75507c4b));
    Sha1Turn(28, Five(0x4aa84d97, 0xbe35fbd5, 0x12104ee9, 0xb1d59f71, 0x75507c4b), 0x2c4c700c, Five(0x8370b52e, 0x4aa84d97, 0x6f8d7ef5, 0x12104ee9, 0xb1d59f71));
    Sha1Turn(29, Five(0x8370b52e, 0x4aa84d97, 0x6f8d7ef5, 0x12104ee9, 0xb1d59f71), 0x000000f0, Five(0xc5fbaf5d, 0x8370b52e, 0xd2aa1365, 0x6f8d7ef5, 0x12104ee9));
    Sha1Turn(30, Five(0xc5fbaf5d, 0x8370b52e, 0xd2aa1365, 0x6f8d7ef5, 0x12104ee9), 0x93afb507, Five(0x1267b407, 0xc5fbaf5d, 0xa0dc2d4b, 0xd2aa1365, 0x6f8d7ef5));
    Sha1Turn(31, Five(0x1267b407, 0xc5fbaf5d, 0xa0dc2d4b, 0xd2aa1365, 0x6f8d7ef5), 0x5898e048, Five(0x3b845d33, 0x1267b407, 0x717eebd7, 0xa0dc2d4b, 0xd2aa1365));
  }

  lemma Sha1Round40()
    ensures At1(40) == Five(0x32de1cba, 0x4c986405, 0xf718e5cf, 0x03d447f6, 0xf72eec32)
  {
    hide At1, W1;
    Sha1Round32();
    W1From32();
    Sha1Turn(32, Five(0x3b845d33, 0x1267b407, 0x717eebd7, 0xa0dc2d4b, 0xd2aa1365), 0x8e9a9202, Five(0x046faa0a, 0x3b845d33, 0xc499ed01, 0x717eebd7, 0xa0dc2d4b));
    Sha1Turn(33, Five(0x046faa0a, 0x3b845d33, 0xc499ed01, 0x717eebd7, 0xa0dc2d4b), 0x00000600, Five(0x2c0ebc11, 0x046faa0a, 0xcee1174c, 0xc499ed01, 0x717eebd7));
    Sha1Turn(34, Five(0x2c0ebc11, 0x046faa0a, 0xcee1174c, 0xc499ed01, 0x717eebd7), 0xb131c0f0, Five(0x21796ad4, 0x2c0ebc11, 0x811bea82, 0xcee1174c, 0xc499ed01));
    Sha1Turn(35, Five(0x21796ad4, 0x2c0ebc11, 0x811bea82, 0xcee1174c, 0xc499ed01), 0x16263bc6, Five(0xdcbbb0cb, 0x21796ad4, 0x4b03af04, 0x811bea82, 0xcee1174c));
    Sha1Turn(36, Five(0xdcbbb0cb, 0x21796ad4, 0x4b03af04, 0x811bea82, 0xcee1174c), 0x4ebed41e, Five(0x0f511fd8, 0xdcbbb0cb, 0x085e5ab5, 0x4b03af04, 0x811bea82));
    Sha1Turn(37, Five(0x0f511fd8, 0xdcbbb0cb, 0x085e5ab5, 0x4b03af04, 0x811bea82), 0x626380a1, Five(0xdc63973f, 0x0f511fd8, 0xf72eec32, 0x085e5ab5, 0x4b03af04));
    Sha1Turn(38, Five(0xdc63973f, 0x0f511fd8, 0xf72eec32, 0x085e5ab5, 0x4b03af04), 0x16263806, Five(0x4c986405, 0xdc63973f, 0x03d447f6, 0xf72eec32, 0x085e5ab5));
    Sha1Turn(39, Five(0x4c986405, 0xdc63973f, 0x03d447f6, 0xf72eec32, 0x085e5ab5), 0x000018c0, Five(0x32de1cba, 0x4c986405, 0xf718e5cf, 0x03d447f6, 0xf72eec32));
  }

  lemma Sha1Round48()
    ensures At1(48) == Five(0xbead02ca, 0xa01b846c, 0x8714787c, 0x503ca382, 0xfb86c6ab)
  {
    hide At1, W1;
    Sha1Round40();
    W1From40();
    Sha1Turn(40, Five(0x32de1cba, 0x4c986405, 0xf718e5cf, 0x03d447f6, 0xf72eec32), 0xd2e138c4, Five(0xfc87dedf, 0x32de1cba, 0x53261901, 0xf718e5cf, 0x03d447f6));
    Sha1Turn(41, Five(0xfc87dedf, 0x32de1cba, 0x53261901, 0xf718e5cf, 0x03d447f6), 0x00000f00, Five(0x970a0d5c, 0xfc87dedf, 0x8cb7872e, 0x53261901, 0xf718e5cf));
    Sha1Turn(42, Five(0x970a0d5c, 0xfc87dedf, 0x8cb7872e, 0x53261901, 0xf718e5cf), 0x3afb5079, Five(0x7f193dc5, 0x970a0d5c, 0xff21f7b7, 0x8cb7872e, 0x53261901));
    Sha1Turn(43, Five(0x7f193dc5, 0x970a0d5c, 0xff21f7b7, 0x8cb7872e, 0x53261901), 0x898e04e5, Five(0xee1b1aaf, 0x7f193dc5, 0x25c28357, 0xff21f7b7, 0x8cb7872e));
    Sha1Turn(44, Five(0xee1b1aaf, 0x7f193dc5, 0x25c28357, 0xff21f7b7, 0x8cb7872e), 0xe2ba3c2b, Five(0x40f28e09, 0xee1b1aaf, 0x5fc64f71, 0x25c28357, 0xff21f7b7));
    Sha1Turn(45, Five(0x40f28e09, 0xee1b1aaf, 0x5fc64f71, 0x25c28357, 0xff21f7b7), 0x000060c0, Five(0x1c51e1f2, 0x40f28e09, 0xfb86c6ab, 0x5fc64f71, 0x25c28357));
    Sha1Turn(46, Five(0x1c51e1f2, 0x40f28e09, 0xfb86c6ab, 0x5fc64f71, 0x25c28357), 0x053a37cd, Five(0xa01b846c, 0x1c51e1f2, 0x503ca382, 0xfb86c6ab, 0x5fc64f71));
    Sha1Turn(47, Five(0xa01b846c, 0x1c51e1f2, 0x503ca382, 0xfb86c6ab, 0x5fc64f71), 0x74458547, Five(0xbead02ca, 0xa01b846c, 0x8714787c, 0x503ca382, 0xfb86c6ab));
  }

  lemma Sha1Round56()
    ensures At1(56) == Five(0x5e6456af, 0x7b71f76d, 0x09fa7c76, 0x792410db, 0x8e11eb59)
  {
    hide At1, W1;
    Sha1Round48();
    W1From48();
    Sha1Turn(48, Five(0xbead02ca, 0xa01b846c, 0x8714787c, 0x503ca382, 0xfb86c6ab), 0xda9415ed, Five(0xbaf39337, 0xbead02ca, 0x2806e11b, 0x8714787c, 0x503ca382));
    Sha1Turn(49, Five(0xbaf39337, 0xbead02ca, 0x2806e11b, 0x8714787c, 0x503ca382), 0x26380a16, Five(0x120731c5, 0xbaf39337, 0xafab40b2, 0x2806e11b, 0x8714787c));
    Sha1Turn(50, Five(0x120731c5, 0xbaf39337, 0xafab40b2, 0x2806e11b, 0x8714787c), 0x626383a1, Five(0x641db2ce, 0x120731c5, 0xeebce4cd, 0xafab40b2, 0x2806e11b));
    Sha1Turn(51, Five(0x641db2ce, 0x120731c5, 0xeebce4cd, 0xafab40b2, 0x2806e11b), 0x4ebf54de, Five(0x3847ad66, 0x641db2ce, 0x4481cc71, 0xeebce4cd, 0xafab40b2));
    Sha1Turn(52, Five(0x3847ad66, 0x641db2ce, 0x4481cc71, 0xeebce4cd, 0xafab40b2), 0x3835b44b, Five(0xe490436d, 0x3847ad66, 0x99076cb3, 0x4481cc71, 0xeebce4cd));
    Sha1Turn(53, Five(0xe490436d, 0x3847ad66, 0x99076cb3, 0x4481cc71, 0xeebce4cd), 0x0000f600, Five(0x27e9f1d8, 0xe490436d, 0x8e11eb59, 0x99076cb3, 0x4481cc71));
    Sha1Turn(54, Five(0x27e9f1d8, 0xe490436d, 0x8e11eb59, 0x99076cb3, 0x4481cc71), 0x1e84c7a3, Five(0x7b71f76d, 0x27e9f1d8, 0x792410db, 0x8e11eb59, 0x99076cb3));
    Sha1Turn(55, Five(0x7b71f76d, 0x27e9f1d8, 0x792410db, 0x8e11eb59, 0x99076cb3), 0x98e04d98, Five(0x5e6456af, 0x7b71f76d, 0x09fa7c76, 0x792410db, 0x8e11eb59));
  }

  lemma Sha1Round64()
    ensures At1(64) == Five(0x6b61c9e1, 0xb66c020b, 0x9523272c, 0xf5d5b051, 0x8fd4b796)
  {
    hide At1, W1;
    Sha1Round56();
    W1From56();
    Sha1Turn(56, Five(0x5e6456af, 0x7b71f76d, 0x09fa7c76, 0x792410db, 0x8e11eb59), 0x651d16a0, Five(0xc846093f, 0x5e6456af, 0x5edc7ddb, 0x09fa7c76, 0x792410db));
    Sha1Turn(57, Five(0xc846093f, 0x5e6456af, 0x5edc7ddb, 0x09fa7c76, 0x792410db), 0x62658ca1, Five(0xd262ff50, 0xc846093f, 0xd79915ab, 0x5edc7ddb, 0x09fa7c76));
    Sha1Turn(58, Five(0xd262ff50, 0xc846093f, 0xd79915ab, 0x5edc7ddb, 0x09fa7c76), 0x458544d6, Five(0x09d785fd, 0xd262ff50, 0xf211824f, 0xd79915ab, 0x5edc7ddb));
    Sha1Turn(59, Five(0x09d785fd, 0xd262ff50, 0xf211824f, 0xd79915ab, 0x5edc7ddb), 0x44584cb7, Five(0x3f52de5a, 0x09d785fd, 0x3498bfd4, 0xf211824f, 0xd79915ab));
    Sha1Turn(60, Five(0x3f52de5a, 0x09d785fd, 0x3498bfd4, 0xf211824f, 0xd79915ab), 0x7ba06619, Five(0xd756c147, 0x3f52de5a, 0x4275e17f, 0x3498bfd4, 0xf211824f));
    Sha1Turn(61, Five(0xd756c147, 0x3f52de5a, 0x4275e17f, 0x3498bfd4, 0xf211824f), 0x6380aea2, Five(0x548c9cb2, 0xd756c147, 0x8fd4b796, 0x4275e17f, 0x3498bfd4));
    Sha1Turn(62, Five(0x548c9cb2, 0xd756c147, 0x8fd4b796, 0x4275e17f, 0x3498bfd4), 0x0ae55269, Five(0xb66c020b, 0x548c9cb2, 0xf5d5b051, 0x8fd4b796, 0x4275e17f));
    Sha1Turn(63, Five(0xb66c020b, 0x548c9cb2, 0xf5d5b051, 0x8fd4b796, 0x4275e17f), 0x627b49a1, Five(0x6b61c9e1, 0xb66c020b, 0x9523272c, 0xf5d5b051, 0x8fd4b796));
  }

  lemma Sha1Round72()
    ensures At1(72) == Five(0x39859de7, 0xc199f8c7, 0x8fc96230, 0x125c24f0, 0xde37534a)
  {
    hide At1, W1;
    Sha1Round64();
    W1From64();
    Sha1Turn(64, Five(0x6b61c9e1, 0xb66c020b, 0x9523272c, 0xf5d5b051, 0x8fd4b796), 0x7cd45c9d, Five(0x19dfa7ac, 0x6b61c9e1, 0xed9b0082, 0x9523272c, 0xf5d5b051));
    Sha1Turn(65, Five(0x19dfa7ac, 0x6b61c9e1, 0xed9b0082, 0x9523272c, 0xf5d5b051), 0x000f0000, Five(0x101655f9, 0x19dfa7ac, 0x5ad87278, 0xed9b0082, 0x9523272c));
    Sha1Turn(66, Five(0x101655f9, 0x19dfa7ac, 0x5ad87278, 0xed9b0082, 0x9523272c), 0xfb50753a, Five(0x0c3df2b4, 0x101655f9, 0x0677e9eb, 0x5ad87278, 0xed9b0082));
    Sha1Turn(67, Five(0x0c3df2b4, 0x101655f9, 0x0677e9eb, 0x5ad87278, 0xed9b0082), 0xec6765e8, Five(0x78dd4d2b, 0x0c3df2b4, 0x4405957e, 0x0677e9eb, 0x5ad87278));
    Sha1Turn(68, Five(0x78dd4d2b, 0x0c3df2b4, 0x4405957e, 0x0677e9eb, 0x5ad87278), 0xba3c2be2, Five(0x497093c0, 0x78dd4d2b, 0x030f7cad, 0x4405957e, 0x0677e9eb));
    Sha1Turn(69, Five(0x497093c0, 0x78dd4d2b, 0x030f7cad, 0x4405957e, 0x0677e9eb), 0x0060c000, Five(0x3f2588c2, 0x497093c0, 0xde37534a, 0x030f7cad, 0x4405957e));
    Sha1Turn(70, Five(0x3f2588c2, 0x497093c0, 0xde37534a, 0x030f7cad, 0x4405957e), 0x3a37cd05, Five(0xc199f8c7, 0x3f2588c2, 0x125c24f0, 0xde37534a, 0x030f7cad));
    Sha1Turn(71, Five(0xc199f8c7, 0x3f2588c2, 0x125c24f0, 0xde37534a, 0x030f7cad), 0x458546f4, Five(0x39859de7, 0xc199f8c7, 0x8fc96230, 0x125c24f0, 0xde37534a));
  }

  lemma Sha1Round80()
    ensures At1(80) == Five(0x42541b35, 0x5738d5e1, 0x21834873, 0x681e6df6, 0xd8fdf6ad)
  {
    hide At1, W1;
    Sha1Round72();
    W1From72();
    Sha1Turn(72, Five(0x39859de7, 0xc199f8c7, 0x8fc96230, 0x125c24f0, 0xde37534a), 0xb8599dd6, Five(0xedb42de4, 0x39859de7, 0xf0667e31, 0x8fc96230, 0x125c24f0));
    Sha1Turn(73, Five(0xedb42de4, 0x39859de7, 0xf0667e31, 0x8fc96230, 0x125c24f0), 0x380a1a26, Five(0x11793f6f, 0xedb42de4, 0xce616779, 0xf0667e31, 0x8fc96230));
    Sha1Turn(74, Five(0x11793f6f, 0xedb42de4, 0xce616779, 0xf0667e31, 0x8fc96230), 0x01e02203, Five(0x5ee76897, 0x11793f6f, 0x3b6d0b79, 0xce616779, 0xf0667e31));
    Sha1Turn(75, Five(0x5ee76897, 0x11793f6f, 0x3b6d0b79, 0xce616779, 0xf0667e31), 0xe7cc3456, Five(0x63f7dab7, 0x5ee76897, 0xc45e4fdb, 0x3b6d0b79, 0xce616779));
    Sha1Turn(76, Five(0x63f7dab7, 0x5ee76897, 0xc45e4fdb, 0x3b6d0b79, 0xce616779), 0xe6e60b69, Five(0xa079b7d9, 0x63f7dab7, 0xd7b9da25, 0xc45e4fdb, 0x3b6d0b79));
    Sha1Turn(77, Five(0xa079b7d9, 0x63f7dab7, 0xd7b9da25, 0xc45e4fdb, 0x3b6d0b79), 0x00f60a00, Five(0x860d21cc, 0xa079b7d9, 0xd8fdf6ad, 0xd7b9da25, 0xc45e4fdb));
    Sha1Turn(78, Five(0x860d21cc, 0xa079b7d9, 0xd8fdf6ad, 0xd7b9da25, 0xc45e4fdb), 0x5795ef4f, Five(0x5738d5e1, 0x860d21cc, 0x681e6df6, 0xd8fdf6ad, 0xd7b9da25));
    Sha1Turn(79, Five(0x5738d5e1, 0x860d21cc, 0x681e6df6, 0xd8fdf6ad, 0xd7b9da25), 0x822e0879, Five(0x42541b35, 0x5738d5e1, 0x21834873, 0x681e6df6, 0xd8fdf6ad));
  }

  // ---------------------------------------------------------------- the rounds of MD5

  /** The sixteen words of the block for MD5. */
  function Md5Word(t: nat): Word { if t == 0 then 0x80636261 else if t == 14 then 0x18 else 0 }

  lemma {:induction false} Md5Loaded(block: seq<Octet>, n: nat, t: nat)
    requires |block| == 64 && t < n <= 16
    ensures Md5Words(block, n)[t] == LoadLe32(block, 4 * t)
  {
    hide LoadLe32;
    if t < n - 1 { Md5Loaded(block, n - 1, t); }
  }

  lemma Md5Loads(t: nat)
    requires t < 16
    ensures Md5Words(Md5Block(), 16)[t] == Md5Word(t)
  {
    hide Md5Words;
    Md5Loaded(Md5Block(), 16, t);
    var b := Md5Block();
    assert forall i :: 4 <= i < 64 && i != 56 ==> b[i] == 0;
    assert b[0] == 0x61 && b[1] == 0x62 && b[2] == 0x63 && b[3] == 0x80 && b[56] == 0x18;
  }

  lemma Md5Row(row: nat, col: nat)
    requires row < 8 && col < 8
    ensures Md5K()[8 * row + col] == Md5KRow(row)[col]
  {
    hide Md5KRow;
  }

  function At5(t: nat): Four
    requires t <= 64
  {
    Md5Rounds(Md5K(), Md5Words(Md5Block(), 16), Four(0x67452301, 0xefcdab89, 0x98badcfe, 0x10325476), t)
  }

  lemma Md5Turn(t: nat, v: Four, f: Word, k: Word, m: Word, s: Word, b: Word)
    requires t < 64 && (t == 0 || At5(t) == v) && (t == 0 ==> v == Four(0x67452301, 0xefcdab89, 0x98badcfe, 0x10325476))
    requires Md5KRow(t / 8)[t % 8] == k && Md5Word(Md5Index(t)) == m && Md5Shift(t) == s && s < 32
    requires Md5F(t, v.b, v.c, v.d) == f && Add(v.b, Rotl(Add(Add(Add(v.a, f), k), m), s)) == b
    ensures At5(t + 1) == Four(v.d, b, v.b, v.c)
  {
    hide Md5K, Md5KRow, Md5Words, Md5Word, Md5Index, Md5F, Md5Shift, Rotl, Md5Block;
    Md5Row(t / 8, t % 8);
    Md5Loads(Md5Index(t));
    assert t == 0 ==> At5(0) == v;
    assert At5(t + 1) == Md5Step(At5(t), t, Md5K()[t], Md5Words(Md5Block(), 16)[Md5Index(t)]);
  }

  lemma Md5Round4()
    ensures At5(4) == Four(0xd6d117b4, 0x7ad956f2, 0x2f6fbd72, 0x344a8432)
  {
    hide At5;
    Md5Turn(0, Four(0x67452301, 0xefcdab89, 0x98badcfe, 0x10325476), 0x98badcfe, 0xd76aa478, 0x80636261, 7, 0xd6d117b4);
    Md5Turn(1, Four(0x10325476, 0xd6d117b4, 0xefcdab89, 0x98badcfe), 0xceebcbca, 0xe8c7b756, 0x00000000, 12, 0x344a8432);
    Md5Turn(2, Four(0x98badcfe, 0x344a8432, 0xd6d117b4, 0xefcdab89), 0xdfc52fb9, 0x242070db, 0x00000000, 17, 0x2f6fbd72);
    Md5Turn(3, Four(0xefcdab89, 0x2f6fbd72, 0x344a8432, 0xd6d117b4), 0xf4da86b6, 0xc1bdceee, 0x00000000, 22, 0x7ad956f2);
  }

  lemma Md5Round8()
    ensures At5(8) == Four(0xc73741ef, 0x928d99f6, 0x207dc67b, 0x8bac3051)
  {
    hide At5;
    Md5Round4();
    Md5Turn(4, Four(0xd6d117b4, 0x7ad956f2, 0x2f6fbd72, 0x344a8432), 0x2e4b9472, 0xf57c0faf, 0x00000000, 7, 0xc73741ef);
    Md5Turn(5, Four(0x344a8432, 0xc73741ef, 0x7ad956f2, 0x2f6fbd72), 0x6a59fcf2, 0x4787c62a, 0x00000000, 12, 0x8bac3051);
    Md5Turn(6, Four(0x2f6fbd72, 0x8bac3051, 0xc73741ef, 0x7ad956f2), 0xf37546e3, 0xa8304613, 0x00000000, 17, 0x207dc67b);
    Md5Turn(7, Four(0x7ad956f2, 0x207dc67b, 0x8bac3051, 0xc73741ef), 0xc72e01d5, 0xfd469501, 0x00000000, 22, 0x928d99f6);
  }

  lemma Md5Round12()
    ensures At5(12) == Four(0x854b3712, 0x5ed49596, 0x3020401c, 0x74e2f284)
  {
    hide At5;
    Md5Round8();
    Md5Turn(8, Four(0xc73741ef, 0x928d99f6, 0x207dc67b, 0x8bac3051), 0x092da073, 0x698098d8, 0x00000000, 7, 0x854b3712);
    Md5Turn(9, Four(0x8bac3051, 0x854b3712, 0x928d99f6, 0x207dc67b), 0xa03dd17b, 0x8b44f7af, 0x00000000, 12, 0x74e2f284);
    Md5Turn(10, Four(0x207dc67b, 0x74e2f284, 0x854b3712, 0x928d99f6), 0x864f3b72, 0xffff5bb1, 0x00000000, 17, 0x3020401c);
    Md5Turn(11, Four(0x928d99f6, 0x3020401c, 0x74e2f284, 0x854b3712), 0xb56b7706, 0x895cd7be, 0x00000000, 22, 0x5ed49596);
  }

  lemma Md5Round16()
    ensures At5(16) == Four(0xdda9b9a6, 0x72aff2e0, 0xe396856b, 0xa1051895)
  {
    hide At5;
    Md5Round12();
    Md5Turn(12, Four(0x854b3712, 0x5ed49596, 0x3020401c, 0x74e2f284), 0x30226214, 0x6b901122, 0x00000000, 7, 0xdda9b9a6);
    Md5Turn(13, Four(0x74e2f284, 0xdda9b9a6, 0x5ed49596, 0x3020401c), 0x7c80d19e, 0xfd987193, 0x00000000, 12, 0xa1051895);
    Md5Turn(14, Four(0x3020401c, 0xa1051895, 0xdda9b9a6, 0x5ed49596), 0xdfd19d86, 0xa679438e, 0x00000018, 17, 0xe396856b);
    Md5Turn(15, Four(0x5ed49596, 0xe396856b, 0xa1051895, 0xdda9b9a6), 0xbd2d3885, 0x49b40821, 0x00000000, 22, 0x72aff2e0);
  }

  lemma Md5Round20()
    ensures At5(20) == Four(0x3e9e9126, 0xb5b204e4, 0xe25e1652, 0x4a1d804e)
  {
    hide At5;
    Md5Round16();
    Md5Turn(16, Four(0xdda9b9a6, 0x72aff2e0, 0xe396856b, 0xa1051895), 0x629795ea, 0xf61e2562, 0x00000000, 5, 0x3e9e9126);
    Md5Turn(17, Four(0xa1051895, 0x3e9e9126, 0x72aff2e0, 0xe396856b), 0x32bff3a2, 0xc040b340, 0x00000000, 9, 0x4a1d804e);
    Md5Turn(18, Four(0xe396856b, 0x4a1d804e, 0x3e9e9126, 0x72aff2e0), 0x4e1d8146, 0x265e5a51, 0x00000000, 14, 0xe25e1652);
    Md5Turn(19, Four(0x72aff2e0, 0xe25e1652, 0x4a1d804e, 0x3e9e9126), 0x621f104a, 0xe9b6c7aa, 0x80636261, 20, 0xb5b204e4);
  }

  lemma Md5Round24()
    ensures At5(24) == Four(0x59a8ffda, 0x47092c07, 0xabfc7920, 0x6d002f1e)
  {
    hide At5;
    Md5Round20();
    Md5Turn(20, Four(0x3e9e9126, 0xb5b204e4, 0xe25e1652, 0x4a1d804e), 0xa0521654, 0xd62f105d, 0x00000000, 5, 0x59a8ffda);
    Md5Turn(21, Four(0x4a1d804e, 0x59a8ffda, 0xb5b204e4, 0xe25e1652), 0x55a816f6, 0x02441453, 0x00000000, 9, 0x6d002f1e);
    Md5Turn(22, Four(0xe25e1652, 0x6d002f1e, 0x59a8ffda, 0xb5b204e4), 0x6d08ff1e, 0xd8a1e681, 0x00000000, 14, 0xabfc7920);
    Md5Turn(23, Four(0xb5b204e4, 0xabfc7920, 0x6d002f1e, 0x59a8ffda), 0x2da87904, 0xe7d3fbc8, 0x00000000, 20, 0x47092c07);
  }

  lemma Md5Round28()
    ensures At5(28) == Four(0xb7f268cf, 0x786acb8f, 0xfe1623b1, 0x09388eff)
  {
    hide At5;
    Md5Round24();
    Md5Turn(24, Four(0x59a8ffda, 0x47092c07, 0xabfc7920, 0x6d002f1e), 0xc7fc7c26, 0x21e1cde6, 0x00000000, 5, 0xb7f268cf);
    Md5Turn(25, Four(0x6d002f1e, 0xb7f268cf, 0x47092c07, 0xabfc7920), 0xe7f16c07, 0xc33707d6, 0x00000018, 9, 0x09388eff);
    Md5Turn(26, Four(0xabfc7920, 0x09388eff, 0xb7f268cf, 0x47092c07), 0xb1fa4ccf, 0xf4d50d87, 0x00000000, 14, 0xfe1623b1);
    Md5Turn(27, Four(0x47092c07, 0xfe1623b1, 0x09388eff, 0xb7f268cf), 0xbe1aa6b1, 0x455a14ed, 0x00000000, 20, 0x786acb8f);
  }

  lemma Md5Round32()
    ensures At5(32) == Four(0x790a77fb, 0x726342d3, 0xa62884aa, 0x9f47e4f8)
  {
    hide At5;
    Md5Round28();
    Md5Turn(28, Four(0xb7f268cf, 0x786acb8f, 0xfe1623b1, 0x09388eff), 0xfe2eab8f, 0xa9e3e905, 0x00000000, 5, 0x790a77fb);
    Md5Turn(29, Four(0x09388eff, 0x790a77fb, 0x786acb8f, 0xfe1623b1), 0x786aebbf, 0xfcefa3f8, 0x00000000, 9, 0x9f47e4f8);
    Md5Turn(30, Four(0xfe1623b1, 0x9f47e4f8, 0x790a77fb, 0x786acb8f), 0x1942f4f8, 0x676f02d9, 0x00000000, 14, 0xa62884aa);
    Md5Turn(31, Four(0x786acb8f, 0xa62884aa, 0x9f47e4f8, 0x790a77fb), 0xa64d84aa, 0x8d2a4c8a, 0x00000000, 20, 0x726342d3);
  }

  lemma Md5Round36()
    ensures At5(36) == Four(0xb3707ebf, 0x3b0875c7, 0x8d212ff5, 0x60127b2e)
  {
    hide At5;
    Md5Round32();
    Md5Turn(32, Four(0x790a77fb, 0x726342d3, 0xa62884aa, 0x9f47e4f8), 0x4b0c2281, 0xfffa3942, 0x00000000, 4, 0xb3707ebf);
    Md5Turn(33, Four(0x9f47e4f8, 0xb3707ebf, 0x726342d3, 0xa62884aa), 0x673bb8c6, 0x8771f681, 0x00000000, 11, 0x60127b2e);
    Md5Turn(34, Four(0xa62884aa, 0x60127b2e, 0xb3707ebf, 0x726342d3), 0xa1014742, 0x6d9d6122, 0x00000000, 16, 0x8d212ff5);
    Md5Turn(35, Four(0x726342d3, 0x8d212ff5, 0x60127b2e, 0xb3707ebf), 0x5e432a64, 0xfde5380c, 0x00000018, 23, 0x3b0875c7);
  }

  lemma Md5Round40()
    ensures At5(40) == Four(0x21b117b9, 0x5a2f5ea5, 0x3575227e, 0x6e7429d5)
  {
    hide At5;
    Md5Round36();
    Md5Turn(36, Four(0xb3707ebf, 0x3b0875c7, 0x8d212ff5, 0x60127b2e), 0xd63b211c, 0xa4beea44, 0x00000000, 4, 0x21b117b9);
    Md5Turn(37, Four(0x60127b2e, 0x21b117b9, 0x3b0875c7, 0x8d212ff5), 0x97984d8b, 0x4bdecfa9, 0x00000000, 11, 0x6e7429d5);
    Md5Turn(38, Four(0x8d212ff5, 0x6e7429d5, 0x21b117b9, 0x3b0875c7), 0x74cd4bab, 0xf6bb4b60, 0x00000000, 16, 0x3575227e);
    Md5Turn(39, Four(0x3b0875c7, 0x3575227e, 0x6e7429d5, 0x21b117b9), 0x7ab01c12, 0xbebfbc70, 0x00000000, 23, 0x5a2f5ea5);
  }

  lemma Md5Round44()
    ensures At5(44) == Four(0x11de1779, 0x4c6124f4, 0x31c465ca, 0xfadcaa38)
  {
    hide At5;
    Md5Round40();
    Md5Turn(40, Four(0x21b117b9, 0x5a2f5ea5, 0x3575227e, 0x6e7429d5), 0x012e550e, 0x289b7ec6, 0x00000000, 4, 0x11de1779);
    Md5Turn(41, Four(0x6e7429d5, 0x11de1779, 0x5a2f5ea5, 0x3575227e), 0x7e846ba2, 0xeaa127fa, 0x80636261, 11, 0xfadcaa38);
    Md5Turn(42, Four(0x3575227e, 0xfadcaa38, 0x11de1779, 0x5a2f5ea5), 0xb12de3e4, 0xd4ef3085, 0x00000000, 16, 0x31c465ca);
    Md5Turn(43, Four(0x5a2f5ea5, 0x31c465ca, 0xfadcaa38, 0x11de1779), 0xdac6d88b, 0x04881d05, 0x00000000, 23, 0x4c6124f4);
  }

  lemma Md5Round48()
    ensures At5(48) == Four(0x7f2e507b, 0x7beb9700, 0x8fae6399, 0x99d9679d)
  {
    hide At5;
    Md5Round44();
    Md5Turn(44, Four(0x11de1779, 0x4c6124f4, 0x31c465ca, 0xfadcaa38), 0x8779eb06, 0xd9d4d039, 0x00000000, 4, 0x7f2e507b);
    Md5Turn(45, Four(0xfadcaa38, 0x7f2e507b, 0x4c6124f4, 0x31c465ca), 0x028b1145, 0xe6db99e5, 0x00000000, 11, 0x99d9679d);
    Md5Turn(46, Four(0x31c465ca, 0x99d9679d, 0x7f2e507b, 0x4c6124f4), 0xaa961312, 0x1fa27cf8, 0x00000000, 16, 0x8fae6399);
    Md5Turn(47, Four(0x4c6124f4, 0x8fae6399, 0x99d9679d, 0x7f2e507b), 0x6959547f, 0xc4ac5665, 0x00000000, 23, 0x7beb9700);
  }

  lemma Md5Round52()
    ensures At5(52) == Four(0x7b201df8, 0x8bf025c4, 0xb298cefd, 0xf4e8e96e)
  {
    hide At5;
    Md5Round48();
    Md5Turn(48, Four(0x7f2e507b, 0x7beb9700, 0x8fae6399, 0x99d9679d), 0xf041fcfb, 0xf4292244, 0x80636261, 6, 0x7b201df8);
    Md5Turn(49, Four(0x99d9679d, 0x7b201df8, 0x7beb9700, 0x8fae6399), 0x009a0afe, 0x432aff97, 0x00000000, 10, 0xf4e8e96e);
    Md5Turn(50, Four(0x8fae6399, 0xf4e8e96e, 0x7b201df8, 0x7beb9700), 0x8fdcf407, 0xab9423a7, 0x00000018, 15, 0xb298cefd);
    Md5Turn(51, Four(0x7beb9700, 0xb298cefd, 0xf4e8e96e, 0x7b201df8), 0x42370791, 0xfc93a039, 0x00000000, 21, 0x8bf025c4);
  }

  lemma Md5Round56()
    ensures At5(56) == Four(0x06cc5e8a, 0x3bfa2c27, 0x7d632dd0, 0x5b0d97aa)
  {
    hide At5;
    Md5Round52();
    Md5Turn(52, Four(0x7b201df8, 0x8bf025c4, 0xb298cefd, 0xf4e8e96e), 0x396ff928, 0x655b59c3, 0x00000000, 6, 0x06cc5e8a);
    Md5Turn(53, Four(0xf4e8e96e, 0x06cc5e8a, 0x8bf025c4, 0xb298cefd), 0xc41f5a4e, 0x8f0ccc92, 0x00000000, 10, 0x5b0d97aa);
    Md5Turn(54, Four(0xb298cefd, 0x5b0d97aa, 0x06cc5e8a, 0x8bf025c4), 0x79c38131, 0xffeff47d, 0x00000000, 15, 0x7d632dd0);
    Md5Turn(55, Four(0x8bf025c4, 0x7d632dd0, 0x5b0d97aa, 0x06cc5e8a), 0xa67e3a5f, 0x85845dd1, 0x00000000, 21, 0x3bfa2c27);
  }

  lemma Md5Round60()
    ensures At5(60) == Four(0x7f81cc35, 0x7327d604, 0x4f9dbe3f, 0x094454ab)
  {
    hide At5;
    Md5Round56();
    Md5Turn(56, Four(0x06cc5e8a, 0x3bfa2c27, 0x7d632dd0, 0x5b0d97aa), 0xc29941a7, 0x6fa87e4f, 0x00000000, 6, 0x7f81cc35);
    Md5Turn(57, Four(0x5b0d97aa, 0x7f81cc35, 0x3bfa2c27, 0x7d632dd0), 0xc467f218, 0xfe2ce6e0, 0x00000000, 10, 0x094454ab);
    Md5Turn(58, Four(0x7d632dd0, 0x094454ab, 0x7f81cc35, 0x3bfa2c27), 0xb2c41bce, 0xa3014314, 0x00000000, 15, 0x4f9dbe3f);
    Md5Turn(59, Four(0x3bfa2c27, 0x4f9dbe3f, 0x094454ab, 0x7f81cc35), 0xc6bbeb54, 0x4e0811a1, 0x00000000, 21, 0x7327d604);
  }

  lemma Md5Round64()
    ensures At5(64) == Four(0x310ade8f, 0xc08226b3, 0xe484b9d8, 0x624d8cb2)
  {
    hide At5;
    Md5Round60();
    Md5Turn(60, Four(0x7f81cc35, 0x7327d604, 0x4f9dbe3f, 0x094454ab), 0xb822416b, 0xf7537e82, 0x00000000, 6, 0x310ade8f);
    Md5Turn(61, Four(0x094454ab, 0x310ade8f, 0x7327d604, 0x4f9dbe3f), 0xc24d09cb, 0xbd3af235, 0x00000000, 10, 0x624d8cb2);
    Md5Turn(62, Four(0x4f9dbe3f, 0x624d8cb2, 0x310ade8f, 0x7327d604), 0xdfd77374, 0x2ad7d2bb, 0x00000000, 15, 0xe484b9d8);
    Md5Turn(63, Four(0x7327d604, 0xe484b9d8, 0x624d8cb2, 0x310ade8f), 0x8cb8354a, 0xeb86d391, 0x00000000, 21, 0xc08226b3);
  }

  // ---------------------------------------------------------------- the digests

  lemma OneBlock(kind: Kind)
    ensures var block := if kind == Md5 then Md5Block() else ShaBlock();
      Chain(kind, Initial(kind), block) == Compress(kind, Initial(kind), block)
  {
    hide Compress, ShaBlock, Md5Block, Initial;
    var block := if kind == Md5 then Md5Block() else ShaBlock();
    assert block[..64] == block && block[64..] == [];
  }

  lemma Dispatch(kind: Kind)
    ensures kind == Md5 ==> Compress(kind, Initial(kind), Md5Block()) == Md5Compress(Initial(kind), Md5Block())
    ensures kind == Sha1 ==> Compress(kind, Initial(kind), ShaBlock()) == Sha1Compress(Initial(kind), ShaBlock())
    ensures kind == Sha256 ==> Compress(kind, Initial(kind), ShaBlock()) == Sha256Compress(Initial(kind), ShaBlock())
  {
    hide Md5Compress, Sha1Compress, Sha256Compress, ShaBlock, Md5Block, Initial;
  }

  lemma OutputNone(kind: Kind)
    ensures Output(kind, []) == []
  {
  }

  lemma Sha256Compressed()
    ensures Sha256Compress(Initial(Sha256), ShaBlock()) == [0xba7816bf, 0x8f01cfea, 0x414140de, 0x5dae2223, 0xb00361a3, 0x96177a9c, 0xb410ff61, 0xf20015ad]
  {
    hide Sha256Rounds, Sha256Schedule, ShaBlock, Sha256K;
    Sha256Round64();
  }

  lemma Sha256Written()
    ensures Output(Sha256, [0xba7816bf, 0x8f01cfea, 0x414140de, 0x5dae2223, 0xb00361a3, 0x96177a9c, 0xb410ff61, 0xf20015ad]) ==
      [0xba, 0x78, 0x16, 0xbf, 0x8f, 0x01, 0xcf, 0xea, 0x41, 0x41, 0x40, 0xde, 0x5d, 0xae, 0x22, 0x23] +
      [0xb0, 0x03, 0x61, 0xa3, 0x96, 0x17, 0x7a, 0x9c, 0xb4, 0x10, 0xff, 0x61, 0xf2, 0x00, 0x15, 0xad]
  {
    hide Output;
    var st: seq<Word>, d: seq<Octet> := [], [];
    OutputNone(Sha256);
    OutputMore(Sha256, st, 0xba7816bf); st, d := st + [0xba7816bf], d + [0xba, 0x78, 0x16, 0xbf];
    assert StoreBe32(0xba7816bf) == [0xba, 0x78, 0x16, 0xbf];
    OutputMore(Sha256, st, 0x8f01cfea); st, d := st + [0x8f01cfea], d + [0x8f, 0x01, 0xcf, 0xea];
    assert StoreBe32(0x8f01cfea) == [0x8f, 0x01, 0xcf, 0xea];
    OutputMore(Sha256, st, 0x414140de); st, d := st + [0x414140de], d + [0x41, 0x41, 0x40, 0xde];
    assert StoreBe32(0x414140de) == [0x41, 0x41, 0x40, 0xde];
    OutputMore(Sha256, st, 0x5dae2223); st, d := st + [0x5dae2223], d + [0x5d, 0xae, 0x22, 0x23];
    assert StoreBe32(0x5dae2223) == [0x5d, 0xae, 0x22, 0x23];
    OutputMore(Sha256, st, 0xb00361a3); st, d := st + [0xb00361a3], d + [0xb0, 0x03, 0x61, 0xa3];
    assert StoreBe32(0xb00361a3) == [0xb0, 0x03, 0x61, 0xa3];
    OutputMore(Sha256, st, 0x96177a9c); st, d := st + [0x96177a9c], d + [0x96, 0x17, 0x7a, 0x9c];
    assert StoreBe32(0x96177a9c) == [0x96, 0x17, 0x7a, 0x9c];
    OutputMore(Sha256, st, 0xb410ff61); st, d := st + [0xb410ff61], d + [0xb4, 0x10, 0xff, 0x61];
    assert StoreBe32(0xb410ff61) == [0xb4, 0x10, 0xff, 0x61];
    OutputMore(Sha256, st, 0xf20015ad); st, d := st + [0xf20015ad], d + [0xf2, 0x00, 0x15, 0xad];
    assert StoreBe32(0xf20015ad) == [0xf2, 0x00, 0x15, 0xad];
    assert st == [0xba7816bf, 0x8f01cfea, 0x414140de, 0x5dae2223, 0xb00361a3, 0x96177a9c, 0xb410ff61, 0xf20015ad];
  }

  /** The example of FIPS 180-4 for SHA-256. */
  lemma Sha256OfAbc()
    ensures Digest.Digest(Sha256, Abc()) ==
      [0xba, 0x78, 0x16, 0xbf, 0x8f, 0x01, 0xcf, 0xea, 0x41, 0x41, 0x40, 0xde, 0x5d, 0xae, 0x22, 0x23] +
      [0xb0, 0x03, 0x61, 0xa3, 0x96, 0x17, 0x7a, 0x9c, 0xb4, 0x10, 0xff, 0x61, 0xf2, 0x00, 0x15, 0xad]
  {
    hide Compress, Sha256Compress, ShaBlock, Md5Block, Padding, Output, Chain;
    PaddedAbc(Sha256);
    OneBlock(Sha256);
    assert Compress(Sha256, Initial(Sha256), ShaBlock()) == Sha256Compress(Initial(Sha256), ShaBlock()) by { Dispatch(Sha256); }
    Sha256Compressed();
    assert |Abc()| == 3 && DigestBytes(Sha256) / 4 == 8;
    Sha256Written();
    var st := Chain(Sha256, Initial(Sha256), Abc() + Padding(Sha256, |Abc()|));
    assert st == [0xba7816bf, 0x8f01cfea, 0x414140de, 0x5dae2223, 0xb00361a3, 0x96177a9c, 0xb410ff61, 0xf20015ad];
    assert Digest.Digest(Sha256, Abc()) == Output(Sha256, st[..8]);
    assert st[..8] == [0xba7816bf, 0x8f01cfea, 0x414140de, 0x5dae2223, 0xb00361a3, 0x96177a9c, 0xb410ff61, 0xf20015ad];
  }

  lemma Sha1Compressed()
    ensures Sha1Compress(Initial(Sha1), ShaBlock()) == [0xa9993e36, 0x4706816a, 0xba3e2571, 0x7850c26c, 0x9cd0d89d, 0x00000000, 0x00000000, 0x00000000]
  {
    hide Sha1Rounds, Sha1Schedule, ShaBlock;
    Sha1Round80();
  }

  lemma Sha1Written()
    ensures Output(Sha1, [0xa9993e36, 0x4706816a, 0xba3e2571, 0x7850c26c, 0x9cd0d89d]) ==
      [0xa9, 0x99, 0x3e, 0x36, 0x47, 0x06, 0x81, 0x6a, 0xba, 0x3e, 0x25, 0x71, 0x78, 0x50, 0xc2, 0x6c] +
      [0x9c, 0xd0, 0xd8, 0x9d]
  {
    hide Output;
    var st: seq<Word>, d: seq<Octet> := [], [];
    OutputNone(Sha1);
    OutputMore(Sha1, st, 0xa9993e36); st, d := st + [0xa9993e36], d + [0xa9, 0x99, 0x3e, 0x36];
    assert StoreBe32(0xa9993e36) == [0xa9, 0x99, 0x3e, 0x36];
    OutputMore(Sha1, st, 0x4706816a); st, d := st + [0x4706816a], d + [0x47, 0x06, 0x81, 0x6a];
    assert StoreBe32(0x4706816a) == [0x47, 0x06, 0x81, 0x6a];
    OutputMore(Sha1, st, 0xba3e2571); st, d := st + [0xba3e2571], d + [0xba, 0x3e, 0x25, 0x71];
    assert StoreBe32(0xba3e2571) == [0xba, 0x3e, 0x25, 0x71];
    OutputMore(Sha1, st, 0x7850c26c); st, d := st + [0x7850c26c], d + [0x78, 0x50, 0xc2, 0x6c];
    assert StoreBe32(0x7850c26c) == [0x78, 0x50, 0xc2, 0x6c];
    OutputMore(Sha1, st, 0x9cd0d89d); st, d := st + [0x9cd0d89d], d + [0x9c, 0xd0, 0xd8, 0x9d];
    assert StoreBe32(0x9cd0d89d) == [0x9c, 0xd0, 0xd8, 0x9d];
    assert st == [0xa9993e36, 0x4706816a, 0xba3e2571, 0x7850c26c, 0x9cd0d89d];
  }

  /** The example of FIPS 180-4 for SHA-1. */
  lemma Sha1OfAbc()
    ensures Digest.Digest(Sha1, Abc()) ==
      [0xa9, 0x99, 0x3e, 0x36, 0x47, 0x06, 0x81, 0x6a, 0xba, 0x3e, 0x25, 0x71, 0x78, 0x50, 0xc2, 0x6c] +
      [0x9c, 0xd0, 0xd8, 0x9d]
  {
    hide Compress, Sha1Compress, ShaBlock, Md5Block, Padding, Output, Chain;
    PaddedAbc(Sha1);
    OneBlock(Sha1);
    assert Compress(Sha1, Initial(Sha1), ShaBlock()) == Sha1Compress(Initial(Sha1), ShaBlock()) by { Dispatch(Sha1); }
    Sha1Compressed();
    assert |Abc()| == 3 && DigestBytes(Sha1) / 4 == 5;
    Sha1Written();
    var st := Chain(Sha1, Initial(Sha1), Abc() + Padding(Sha1, |Abc()|));
    assert st == [0xa9993e36, 0x4706816a, 0xba3e2571, 0x7850c26c, 0x9cd0d89d, 0x00000000, 0x00000000, 0x00000000];
    assert Digest.Digest(Sha1, Abc()) == Output(Sha1, st[..5]);
    assert st[..5] == [0xa9993e36, 0x4706816a, 0xba3e2571, 0x7850c26c, 0x9cd0d89d];
  }

  lemma Md5Compressed()
    ensures Md5Compress(Initial(Md5), Md5Block()) == [0x98500190, 0xb04fd23c, 0x7d3f96d6, 0x727fe128, 0x00000000, 0x00000000, 0x00000000, 0x00000000]
  {
    hide Md5Rounds, Md5Words, Md5Block, Md5K;
    Md5Round64();
  }

  lemma Md5Written()
    ensures Output(Md5, [0x98500190, 0xb04fd23c, 0x7d3f96d6, 0x727fe128]) ==
      [0x90, 0x01, 0x50, 0x98, 0x3c, 0xd2, 0x4f, 0xb0, 0xd6, 0x96, 0x3f, 0x7d, 0x28, 0xe1, 0x7f, 0x72]
  {
    hide Output;
    var st: seq<Word>, d: seq<Octet> := [], [];
    OutputNone(Md5);
    OutputMore(Md5, st, 0x98500190); st, d := st + [0x98500190], d + [0x90, 0x01, 0x50, 0x98];
    assert StoreLe32(0x98500190) == [0x90, 0x01, 0x50, 0x98];
    OutputMore(Md5, st, 0xb04fd23c); st, d := st + [0xb04fd23c], d + [0x3c, 0xd2, 0x4f, 0xb0];
    assert StoreLe32(0xb04fd23c) == [0x3c, 0xd2, 0x4f, 0xb0];
    OutputMore(Md5, st, 0x7d3f96d6); st, d := st + [0x7d3f96d6], d + [0xd6, 0x96, 0x3f, 0x7d];
    assert StoreLe32(0x7d3f96d6) == [0xd6, 0x96, 0x3f, 0x7d];
    OutputMore(Md5, st, 0x727fe128); st, d := st + [0x727fe128], d + [0x28, 0xe1, 0x7f, 0x72];
    assert StoreLe32(0x727fe128) == [0x28, 0xe1, 0x7f, 0x72];
    assert st == [0x98500190, 0xb04fd23c, 0x7d3f96d6, 0x727fe128];
  }

  /** The example of RFC 1321. */
  lemma Md5OfAbc()
    ensures Digest.Digest(Md5, Abc()) ==
      [0x90, 0x01, 0x50, 0x98, 0x3c, 0xd2, 0x4f, 0xb0, 0xd6, 0x96, 0x3f, 0x7d, 0x28, 0xe1, 0x7f, 0x72]
  {
    hide Compress, Md5Compress, ShaBlock, Md5Block, Padding, Output, Chain;
    PaddedAbc(Md5);
    OneBlock(Md5);
    assert Compress(Md5, Initial(Md5), Md5Block()) == Md5Compress(Initial(Md5), Md5Block()) by { Dispatch(Md5); }
    Md5Compressed();
    assert |Abc()| == 3 && DigestBytes(Md5) / 4 == 4;
    Md5Written();
    var st := Chain(Md5, Initial(Md5), Abc() + Padding(Md5, |Abc()|));
    assert st == [0x98500190, 0xb04fd23c, 0x7d3f96d6, 0x727fe128, 0x00000000, 0x00000000, 0x00000000, 0x00000000];
    assert Digest.Digest(Md5, Abc()) == Output(Md5, st[..4]);
    assert st[..4] == [0x98500190, 0xb04fd23c, 0x7d3f96d6, 0x727fe128];
  }
}
