/**
 Where the constants of the SHA functions come from (sections 4.2 and 5.3 of FIPS 180-4): bits of the roots
 of the first primes.
 */
module DigestConstants {
  import opened Bytes
  import opened DigestTransforms
  import opened Digest

  // ---------------------------------------------------------------- the first primes

  ghost predicate IsPrime(p: nat)
  {
    p >= 2 && forall a: nat, b: nat :: a >= 2 && b >= 2 ==> a * b != p
  }

  function PrimeRow(row: nat): (r: seq<nat>)
    ensures |r| == 8
  {
    if row == 0 then [2, 3, 5, 7, 11, 13, 17, 19]
    else if row == 1 then [23, 29, 31, 37, 41, 43, 47, 53]
    else if row == 2 then [59, 61, 67, 71, 73, 79, 83, 89]
    else if row == 3 then [97, 101, 103, 107, 109, 113, 127, 131]
    else if row == 4 then [137, 139, 149, 151, 157, 163, 167, 173]
    else if row == 5 then [179, 181, 191, 193, 197, 199, 211, 223]
    else if row == 6 then [227, 229, 233, 239, 241, 251, 257, 263]
    else [269, 271, 277, 281, 283, 293, 307, 311]
  }

  /** The i-th prime, counted from 0. */
  function Prime(i: nat): nat
    requires i < 64
  {
    PrimeRow(i / 8)[i % 8]
  }

  lemma Divides(a: nat, b: nat)
    requires a > 0
    ensures (a * b) % a == 0
  {
    DivUnique(a * b, a, b, 0);
  }

  /** Below 19 * 19 the primes up to 17 are enough to try. */
  lemma SmallPrime(p: nat)
    requires 2 <= p < 361
    requires forall q :: q in {2, 3, 5, 7, 11, 13, 17} ==> p == q || p % q != 0
    ensures IsPrime(p)
  {
    forall a: nat, b: nat | a >= 2 && b >= 2 ensures a * b != p {
      if a * b == p {
        var small, large := if a <= b then a else b, if a <= b then b else a;
        if small >= 19 { MulMonotonic(19, small, 19); MulMonotonic(19, large, small); }
        assert small * large == p;
        SmallFactor(small, large, p);
      }
    }
  }

  lemma SmallFactor(a: nat, b: nat, p: nat)
    requires 2 <= a < 19 && 2 <= b && a * b == p
    ensures exists q :: q in {2, 3, 5, 7, 11, 13, 17} && p != q && p % q == 0
  {
    var q := if a % 2 == 0 then 2 else if a % 3 == 0 then 3 else if a % 5 == 0 then 5 else if a % 7 == 0 then 7 else a;
    assert q in {2, 3, 5, 7, 11, 13, 17} && a % q == 0;
    var c := a / q;
    assert a == q * c;
    assert p == q * (c * b);
    Divides(q, c * b);
    assert c * b >= b >= 2;
  }

  lemma PrimesOf0()
    ensures forall j :: 0 <= j < 8 ==> IsPrime(PrimeRow(0)[j])
  {
    hide IsPrime;
    SmallPrime(2); SmallPrime(3); SmallPrime(5); SmallPrime(7); SmallPrime(11); SmallPrime(13); SmallPrime(17); SmallPrime(19);
  }

  lemma PrimesOf1()
    ensures forall j :: 0 <= j < 8 ==> IsPrime(PrimeRow(1)[j])
  {
    hide IsPrime;
    SmallPrime(23); SmallPrime(29); SmallPrime(31); SmallPrime(37); SmallPrime(41); SmallPrime(43); SmallPrime(47); SmallPrime(53);
  }

  lemma PrimesOf2()
    ensures forall j :: 0 <= j < 8 ==> IsPrime(PrimeRow(2)[j])
  {
    hide IsPrime;
    SmallPrime(59); SmallPrime(61); SmallPrime(67); SmallPrime(71); SmallPrime(73); SmallPrime(79); SmallPrime(83); SmallPrime(89);
  }

  lemma PrimesOf3()
    ensures forall j :: 0 <= j < 8 ==> IsPrime(PrimeRow(3)[j])
  {
    hide IsPrime;
    SmallPrime(97); SmallPrime(101); SmallPrime(103); SmallPrime(107); SmallPrime(109); SmallPrime(113); SmallPrime(127); SmallPrime(131);
  }

  lemma PrimesOf4()
    ensures forall j :: 0 <= j < 8 ==> IsPrime(PrimeRow(4)[j])
  {
    hide IsPrime;
    SmallPrime(137); SmallPrime(139); SmallPrime(149); SmallPrime(151); SmallPrime(157); SmallPrime(163); SmallPrime(167); SmallPrime(173);
  }

  lemma PrimesOf5()
    ensures forall j :: 0 <= j < 8 ==> IsPrime(PrimeRow(5)[j])
  {
    hide IsPrime;
    SmallPrime(179); SmallPrime(181); SmallPrime(191); SmallPrime(193); SmallPrime(197); SmallPrime(199); SmallPrime(211); SmallPrime(223);
  }

  lemma PrimesOf6()
    ensures forall j :: 0 <= j < 8 ==> IsPrime(PrimeRow(6)[j])
  {
    hide IsPrime;
    SmallPrime(227); SmallPrime(229); SmallPrime(233); SmallPrime(239); SmallPrime(241); SmallPrime(251); SmallPrime(257); SmallPrime(263);
  }

  lemma PrimesOf7()
    ensures forall j :: 0 <= j < 8 ==> IsPrime(PrimeRow(7)[j])
  {
    hide IsPrime;
    SmallPrime(269); SmallPrime(271); SmallPrime(277); SmallPrime(281); SmallPrime(283); SmallPrime(293); SmallPrime(307); SmallPrime(311);
  }

  /** They are primes, */
  lemma ArePrimes(i: nat)
    requires i < 64
    ensures IsPrime(Prime(i))
  {
    hide IsPrime, PrimeRow;
    var row := i / 8;
    if row == 0 { PrimesOf0(); } else if row == 1 { PrimesOf1(); } else if row == 2 { PrimesOf2(); }
    else if row == 3 { PrimesOf3(); } else if row == 4 { PrimesOf4(); } else if row == 5 { PrimesOf5(); }
    else if row == 6 { PrimesOf6(); } else { PrimesOf7(); }
  }

  ghost predicate Listed(n: nat) { exists i :: 0 <= i < 64 && Prime(i) == n }

  lemma NotDivided(n: nat, q: nat)
    requires IsPrime(n) && 2 <= q < n
    ensures n % q != 0
  {
    var c := n / q;
    assert n == q * c + n % q;
    assert c >= 2 ==> q * c != n;
    assert c < 2 ==> q * c <= q;
  }

  lemma Thirty0(n: nat)
    requires 18 <= n < 30 && n % 2 != 0 && n % 3 != 0 && n % 5 != 0
    requires n % 7 != 0 && n % 11 != 0 && n % 13 != 0 && n % 17 != 0
    ensures Listed(n)
  {
    assert n in {19, 23, 29};
    assert Prime(7) == 19 && Prime(8) == 23 && Prime(9) == 29;
  }

  lemma Thirty1(n: nat)
    requires 30 <= n < 60 && n % 2 != 0 && n % 3 != 0 && n % 5 != 0
    requires n % 7 != 0 && n % 11 != 0 && n % 13 != 0 && n % 17 != 0
    ensures Listed(n)
  {
    assert n in {31, 37, 41, 43, 47, 49, 53, 59};
    assert Prime(10) == 31 && Prime(11) == 37 && Prime(12) == 41 && Prime(13) == 43 && Prime(14) == 47 && Prime(15) == 53;
    assert Prime(16) == 59;
  }

  lemma Thirty2(n: nat)
    requires 60 <= n < 90 && n % 2 != 0 && n % 3 != 0 && n % 5 != 0
    requires n % 7 != 0 && n % 11 != 0 && n % 13 != 0 && n % 17 != 0
    ensures Listed(n)
  {
    assert n in {61, 67, 71, 73, 77, 79, 83, 89};
    assert Prime(17) == 61 && Prime(18) == 67 && Prime(19) == 71 && Prime(20) == 73 && Prime(21) == 79 && Prime(22) == 83;
    assert Prime(23) == 89;
  }

  lemma Thirty3(n: nat)
    requires 90 <= n < 120 && n % 2 != 0 && n % 3 != 0 && n % 5 != 0
    requires n % 7 != 0 && n % 11 != 0 && n % 13 != 0 && n % 17 != 0
    ensures Listed(n)
  {
    assert n in {91, 97, 101, 103, 107, 109, 113, 119};
    assert Prime(24) == 97 && Prime(25) == 101 && Prime(26) == 103 && Prime(27) == 107 && Prime(28) == 109 && Prime(29) == 113;
  }

  lemma Thirty4(n: nat)
    requires 120 <= n < 150 && n % 2 != 0 && n % 3 != 0 && n % 5 != 0
    requires n % 7 != 0 && n % 11 != 0 && n % 13 != 0 && n % 17 != 0
    ensures Listed(n)
  {
    assert n in {121, 127, 131, 133, 137, 139, 143, 149};
    assert Prime(30) == 127 && Prime(31) == 131 && Prime(32) == 137 && Prime(33) == 139 && Prime(34) == 149;
  }

  lemma Thirty5(n: nat)
    requires 150 <= n < 180 && n % 2 != 0 && n % 3 != 0 && n % 5 != 0
    requires n % 7 != 0 && n % 11 != 0 && n % 13 != 0 && n % 17 != 0
    ensures Listed(n)
  {
    assert n in {151, 157, 161, 163, 167, 169, 173, 179};
    assert Prime(35) == 151 && Prime(36) == 157 && Prime(37) == 163 && Prime(38) == 167 && Prime(39) == 173 && Prime(40) == 179;
  }

  lemma Thirty6(n: nat)
    requires 180 <= n < 210 && n % 2 != 0 && n % 3 != 0 && n % 5 != 0
    requires n % 7 != 0 && n % 11 != 0 && n % 13 != 0 && n % 17 != 0
    ensures Listed(n)
  {
    assert n in {181, 187, 191, 193, 197, 199, 203, 209};
    assert Prime(41) == 181 && Prime(42) == 191 && Prime(43) == 193 && Prime(44) == 197 && Prime(45) == 199;
  }

  lemma Thirty7(n: nat)
    requires 210 <= n < 240 && n % 2 != 0 && n % 3 != 0 && n % 5 != 0
    requires n % 7 != 0 && n % 11 != 0 && n % 13 != 0 && n % 17 != 0
    ensures Listed(n)
  {
    assert n in {211, 217, 221, 223, 227, 229, 233, 239};
    assert Prime(46) == 211 && Prime(47) == 223 && Prime(48) == 227 && Prime(49) == 229 && Prime(50) == 233 && Prime(51) == 239;
  }

  lemma Thirty8(n: nat)
    requires 240 <= n < 270 && n % 2 != 0 && n % 3 != 0 && n % 5 != 0
    requires n % 7 != 0 && n % 11 != 0 && n % 13 != 0 && n % 17 != 0
    ensures Listed(n)
  {
    assert n in {241, 247, 251, 253, 257, 259, 263, 269};
    assert Prime(52) == 241 && Prime(53) == 251 && Prime(54) == 257 && Prime(55) == 263 && Prime(56) == 269;
  }

  lemma Thirty9(n: nat)
    requires 270 <= n < 300 && n % 2 != 0 && n % 3 != 0 && n % 5 != 0
    requires n % 7 != 0 && n % 11 != 0 && n % 13 != 0 && n % 17 != 0
    ensures Listed(n)
  {
    assert n in {271, 277, 281, 283, 287, 289, 293, 299};
    assert Prime(57) == 271 && Prime(58) == 277 && Prime(59) == 281 && Prime(60) == 283 && Prime(61) == 293;
  }

  lemma Thirty10(n: nat)
    requires 300 <= n < 312 && n % 2 != 0 && n % 3 != 0 && n % 5 != 0
    requires n % 7 != 0 && n % 11 != 0 && n % 13 != 0 && n % 17 != 0
    ensures Listed(n)
  {
    assert n in {301, 307, 311};
    assert Prime(62) == 307 && Prime(63) == 311;
  }

  /** in order, */
  lemma InOrder(i: nat)
    requires i < 63
    ensures Prime(i) < Prime(i + 1)
  {
    var row, col := i / 8, i % 8;
    if col < 7 { assert (i + 1) / 8 == row && (i + 1) % 8 == col + 1; } else { assert (i + 1) / 8 == row + 1 && (i + 1) % 8 == 0; }
  }

  /** and all the primes up to the last: so they are the first. */
  lemma AreAllPrimes(n: nat)
    requires IsPrime(n) && n <= 311
    ensures Listed(n)
  {
    hide IsPrime, Listed;
    if n < 18 {
      SmallListed(n);
    } else {
      NotDivided(n, 2); NotDivided(n, 3); NotDivided(n, 5); NotDivided(n, 7); NotDivided(n, 11); NotDivided(n, 13);
      NotDivided(n, 17);
      if n < 30 { Thirty0(n); }
      else if n < 60 { Thirty1(n); }
      else if n < 90 { Thirty2(n); }
      else if n < 120 { Thirty3(n); }
      else if n < 150 { Thirty4(n); }
      else if n < 180 { Thirty5(n); }
      else if n < 210 { Thirty6(n); }
      else if n < 240 { Thirty7(n); }
      else if n < 270 { Thirty8(n); }
      else if n < 300 { Thirty9(n); }
      else { Thirty10(n); }
    }
  }

  lemma SmallListed(n: nat)
    requires IsPrime(n) && n < 18
    ensures Listed(n)
  {
    assert 2 * 2 == 4 && 2 * 3 == 6 && 2 * 4 == 8 && 3 * 3 == 9 && 2 * 5 == 10 && 2 * 6 == 12 && 2 * 7 == 14 && 3 * 5 == 15 && 2 * 8 == 16;
    assert Prime(0) == 2 && Prime(1) == 3 && Prime(2) == 5 && Prime(3) == 7 && Prime(4) == 11 && Prime(5) == 13 && Prime(6) == 17;
  }

  // ---------------------------------------------------------------- roots

  /** `k` is the first 32 bits of the fractional part of the cube root of `p`. */
  ghost predicate CubeRootBits(p: nat, k: Word)
  {
    exists whole: nat :: Cube(whole, p, k)
  }

  ghost predicate Cube(whole: nat, p: nat, k: Word)
  {
    var x := whole * TWO_32 + k as int;
    x * x * x <= p * TWO_32 * TWO_64 < (x + 1) * (x + 1) * (x + 1)
  }

  /** `k` is the 32 bits behind the first `skipped` of the fractional part of the square root of `p`. */
  ghost predicate SquareRootBits(p: nat, skipped: nat, k: Word)
  {
    exists before: nat :: Square(before, p, skipped, k)
  }

  ghost predicate Square(before: nat, p: nat, skipped: nat, k: Word)
  {
    var x := before * TWO_32 + k as int;
    x * x <= p * (if skipped == 0 then TWO_64 else TWO_64 * TWO_64) < (x + 1) * (x + 1)
  }

  lemma RootsOf0()
    ensures forall j :: 0 <= j < 8 ==> CubeRootBits(PrimeRow(0)[j], Sha256KRow(0)[j])
  {
    assert Cube(1, 2, 0x428a2f98);
    assert Cube(1, 3, 0x71374491);
    assert Cube(1, 5, 0xb5c0fbcf);
    assert Cube(1, 7, 0xe9b5dba5);
    assert Cube(2, 11, 0x3956c25b);
    assert Cube(2, 13, 0x59f111f1);
    assert Cube(2, 17, 0x923f82a4);
    assert Cube(2, 19, 0xab1c5ed5);
  }

  lemma RootsOf1()
    ensures forall j :: 0 <= j < 8 ==> CubeRootBits(PrimeRow(1)[j], Sha256KRow(1)[j])
  {
    assert Cube(2, 23, 0xd807aa98);
    assert Cube(3, 29, 0x12835b01);
    assert Cube(3, 31, 0x243185be);
    assert Cube(3, 37, 0x550c7dc3);
    assert Cube(3, 41, 0x72be5d74);
    assert Cube(3, 43, 0x80deb1fe);
    assert Cube(3, 47, 0x9bdc06a7);
    assert Cube(3, 53, 0xc19bf174);
  }

  lemma RootsOf2()
    ensures forall j :: 0 <= j < 8 ==> CubeRootBits(PrimeRow(2)[j], Sha256KRow(2)[j])
  {
    assert Cube(3, 59, 0xe49b69c1);
    assert Cube(3, 61, 0xefbe4786);
    assert Cube(4, 67, 0x0fc19dc6);
    assert Cube(4, 71, 0x240ca1cc);
    assert Cube(4, 73, 0x2de92c6f);
    assert Cube(4, 79, 0x4a7484aa);
    assert Cube(4, 83, 0x5cb0a9dc);
    assert Cube(4, 89, 0x76f988da);
  }

  lemma RootsOf3()
    ensures forall j :: 0 <= j < 8 ==> CubeRootBits(PrimeRow(3)[j], Sha256KRow(3)[j])
  {
    assert Cube(4, 97, 0x983e5152);
    assert Cube(4, 101, 0xa831c66d);
    assert Cube(4, 103, 0xb00327c8);
    assert Cube(4, 107, 0xbf597fc7);
    assert Cube(4, 109, 0xc6e00bf3);
    assert Cube(4, 113, 0xd5a79147);
    assert Cube(5, 127, 0x06ca6351);
    assert Cube(5, 131, 0x14292967);
  }

  lemma RootsOf4()
    ensures forall j :: 0 <= j < 8 ==> CubeRootBits(PrimeRow(4)[j], Sha256KRow(4)[j])
  {
    assert Cube(5, 137, 0x27b70a85);
    assert Cube(5, 139, 0x2e1b2138);
    assert Cube(5, 149, 0x4d2c6dfc);
    assert Cube(5, 151, 0x53380d13);
    assert Cube(5, 157, 0x650a7354);
    assert Cube(5, 163, 0x766a0abb);
    assert Cube(5, 167, 0x81c2c92e);
    assert Cube(5, 173, 0x92722c85);
  }

  lemma RootsOf5()
    ensures forall j :: 0 <= j < 8 ==> CubeRootBits(PrimeRow(5)[j], Sha256KRow(5)[j])
  {
    assert Cube(5, 179, 0xa2bfe8a1);
    assert Cube(5, 181, 0xa81a664b);
    assert Cube(5, 191, 0xc24b8b70);
    assert Cube(5, 193, 0xc76c51a3);
    assert Cube(5, 197, 0xd192e819);
    assert Cube(5, 199, 0xd6990624);
    assert Cube(5, 211, 0xf40e3585);
    assert Cube(6, 223, 0x106aa070);
  }

  lemma RootsOf6()
    ensures forall j :: 0 <= j < 8 ==> CubeRootBits(PrimeRow(6)[j], Sha256KRow(6)[j])
  {
    assert Cube(6, 227, 0x19a4c116);
    assert Cube(6, 229, 0x1e376c08);
    assert Cube(6, 233, 0x2748774c);
    assert Cube(6, 239, 0x34b0bcb5);
    assert Cube(6, 241, 0x391c0cb3);
    assert Cube(6, 251, 0x4ed8aa4a);
    assert Cube(6, 257, 0x5b9cca4f);
    assert Cube(6, 263, 0x682e6ff3);
  }

  lemma RootsOf7()
    ensures forall j :: 0 <= j < 8 ==> CubeRootBits(PrimeRow(7)[j], Sha256KRow(7)[j])
  {
    assert Cube(6, 269, 0x748f82ee);
    assert Cube(6, 271, 0x78a5636f);
    assert Cube(6, 277, 0x84c87814);
    assert Cube(6, 281, 0x8cc70208);
    assert Cube(6, 283, 0x90befffa);
    assert Cube(6, 293, 0xa4506ceb);
    assert Cube(6, 307, 0xbef9a3f7);
    assert Cube(6, 311, 0xc67178f2);
  }

  /** The constants of SHA-224 and SHA-256 are the first bits of the cube roots of the first 64 primes. */
  lemma Sha256Constants(i: nat)
    requires i < 64
    ensures CubeRootBits(Prime(i), Sha256K()[i])
  {
    hide CubeRootBits, PrimeRow, Sha256KRow;
    var row, col := i / 8, i % 8;
    assert Sha256K()[8 * row + col] == Sha256KRow(row)[col];
    if row == 0 { RootsOf0(); } else if row == 1 { RootsOf1(); } else if row == 2 { RootsOf2(); }
    else if row == 3 { RootsOf3(); } else if row == 4 { RootsOf4(); } else if row == 5 { RootsOf5(); }
    else if row == 6 { RootsOf6(); } else { RootsOf7(); }
  }

  /** The chaining starts at the first bits of the square roots of the first eight primes, or for SHA-224 at the second of the next eight. */
  lemma Sha256Start(i: nat)
    requires i < 8
    ensures SquareRootBits(Prime(i), 0, Initial(Sha256)[i]) && SquareRootBits(Prime(8 + i), 32, Initial(Sha224)[i])
  {
    hide SquareRootBits;
    Starts256();
    Starts224();
  }

  lemma Starts256()
    ensures forall i :: 0 <= i < 8 ==> SquareRootBits(PrimeRow(0)[i], 0, Initial(Sha256)[i])
  {
    assert Square(1, 2, 0, 0x6a09e667);
    assert Square(1, 3, 0, 0xbb67ae85);
    assert Square(2, 5, 0, 0x3c6ef372);
    assert Square(2, 7, 0, 0xa54ff53a);
    assert Square(3, 11, 0, 0x510e527f);
    assert Square(3, 13, 0, 0x9b05688c);
    assert Square(4, 17, 0, 0x1f83d9ab);
    assert Square(4, 19, 0, 0x5be0cd19);
  }

  lemma Starts224()
    ensures forall i :: 0 <= i < 8 ==> SquareRootBits(PrimeRow(1)[i], 32, Initial(Sha224)[i])
  {
    assert Square(20597939549, 23, 32, 0xc1059ed8);
    assert Square(23129106730, 29, 32, 0x367cd507);
    assert Square(23913365850, 31, 32, 0x3070dd17);
    assert Square(26125266136, 37, 32, 0xf70e5939);
    assert Square(27501209191, 41, 32, 0xffc00b31);
    assert Square(28163984007, 43, 32, 0x68581511);
    assert Square(29444812301, 47, 32, 0x64f98fa7);
    assert Square(31267833885, 53, 32, 0xbefa4fa4);
  }

  /** The four constants of SHA-1 are the square roots of 2, 3, 5 and 10, with thirty bits behind the point. */
  lemma Sha1Constants(t: nat)
    requires t < 80
    ensures var n, k := if t < 20 then 2 else if t < 40 then 3 else if t < 60 then 5 else 10, Sha1K(t) as int;
      k * k <= n * 0x4000_0000 * 0x4000_0000 < (k + 1) * (k + 1)
  {
    assert 0x5a827999 * 0x5a827999 <= 2 * 0x4000_0000 * 0x4000_0000 < 0x5a82799a * 0x5a82799a;
    assert 0x6ed9eba1 * 0x6ed9eba1 <= 3 * 0x4000_0000 * 0x4000_0000 < 0x6ed9eba2 * 0x6ed9eba2;
    assert 0x8f1bbcdc * 0x8f1bbcdc <= 5 * 0x4000_0000 * 0x4000_0000 < 0x8f1bbcdd * 0x8f1bbcdd;
    assert 0xca62c1d6 * 0xca62c1d6 <= 10 * 0x4000_0000 * 0x4000_0000 < 0xca62c1d7 * 0xca62c1d7;
  }
}
