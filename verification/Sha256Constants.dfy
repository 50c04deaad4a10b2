/**
 Where the constants of SHA-256 come from: sections 4.2.2 and 5.3.3 of FIPS 180-4 take the first
 32 bits of the fractional parts of cube roots and square roots of the first primes.
 */
module Sha256Constants {
  import opened Sha256Spec

  // ---- Primes, in order and with none left out ----

  predicate IsPrime(p: nat) { p >= 2 && forall d | 2 <= d < p :: p % d != 0 }

  /** How many primes there are below n. */
  function PrimesBelow(n: nat): nat {
    if n == 0 then 0 else PrimesBelow(n - 1) + if IsPrime(n - 1) then 1 else 0
  }

  /** Counting from 0: p is prime, and t primes are smaller. */
  predicate IsNthPrime(t: nat, p: nat) { IsPrime(p) && PrimesBelow(p) == t }

  /** Trial division by the primes up to 17, which settles every number below 19 * 19. */
  predicate Sieved(n: nat) {
    && n >= 2
    && (n % 2 == 0 ==> n == 2) && (n % 3 == 0 ==> n == 3) && (n % 5 == 0 ==> n == 5) && (n % 7 == 0 ==> n == 7)
    && (n % 11 == 0 ==> n == 11) && (n % 13 == 0 ==> n == 13) && (n % 17 == 0 ==> n == 17)
  }

  predicate Small(p: nat) { p == 2 || p == 3 || p == 5 || p == 7 || p == 11 || p == 13 || p == 17 }

  /** Every number from 2 to 18 has a small prime factor. */
  lemma {:induction false} SmallFactor(m: nat) returns (p: nat, k: nat)
    requires 2 <= m <= 18
    ensures Small(p) && p <= m && m == p * k
  {
    p := if m % 2 == 0 then 2 else if m % 3 == 0 then 3 else m;
    k := if m % 2 == 0 then m / 2 else if m % 3 == 0 then m / 3 else 1;
  }

  lemma {:induction false} Multiple(p: nat, x: nat)
    requires Small(p)
    ensures (p * x) % p == 0
  {
    assert (2 * x) % 2 == 0 && (3 * x) % 3 == 0 && (5 * x) % 5 == 0 && (7 * x) % 7 == 0;
    assert (11 * x) % 11 == 0 && (13 * x) % 13 == 0 && (17 * x) % 17 == 0;
  }

  lemma {:induction false} Associates(p: nat, k: nat, x: nat)
    ensures p * k * x == p * (k * x)
  {
  }

  lemma {:induction false} BothLarge(d: nat, e: nat)
    requires d >= 19 && e >= 19
    ensures d * e >= 361
  {
    assert d * e >= 19 * e;
  }

  lemma {:induction false} SievedIsPrime(n: nat)
    requires n < 361
    ensures Sieved(n) <==> IsPrime(n)
  {
    hide Sieved, IsPrime;
    if Sieved(n) {
      SievedHasNoFactor(n);
    }
    if IsPrime(n) {
      PrimeIsSieved(n);
    }
  }

  lemma {:induction false} SievedHasNoFactor(n: nat)
    requires n < 361 && Sieved(n)
    ensures IsPrime(n)
  {
    forall d | 2 <= d < n
      ensures n % d != 0
    {
      NotDivisible(n, d);
    }
  }

  lemma {:induction false} NotDivisible(n: nat, d: nat)
    requires n < 361 && Sieved(n) && 2 <= d < n
    ensures n % d != 0
  {
    hide Sieved;
    if n % d == 0 {
      NoFactors(n, d, n / d);
    }
  }

  lemma {:induction false} PrimeIsSieved(n: nat)
    requires IsPrime(n)
    ensures Sieved(n)
  {
    assert forall p | 2 <= p < n :: n % p != 0;
  }

  /** A factorisation of a number below 361 has a factor below 19, which the sieve would have found. */
  lemma {:induction false} NoFactors(n: nat, d: nat, e: nat)
    requires n < 361 && n == d * e && 2 <= d < n
    ensures !Sieved(n)
  {
    if d > 18 && e > 18 {
      BothLarge(d, e);
    }
    var m, other := if d <= 18 then d else e, if d <= 18 then e else d;
    assert m * other == n;
    var p, k := SmallFactor(m);
    Associates(p, k, other);
    Multiple(p, k * other);
  }

  predicate NoneFrom(n: nat, q: nat)
    decreases q - n
  {
    n < q ==> !Sieved(n) && NoneFrom(n + 1, q)
  }

  /** q is the first number after p that the sieve leaves. */
  predicate NextOne(p: nat, q: nat) { Sieved(q) && p < q && NoneFrom(p + 1, q) }

  lemma {:induction false} SkipComposites(n: nat, q: nat)
    requires NoneFrom(n, q) && n <= q < 361
    ensures PrimesBelow(q) == PrimesBelow(n)
    decreases q - n
  {
    if n < q {
      SievedIsPrime(n);
      hide IsPrime, Sieved;
      SkipComposites(n + 1, q);
    }
  }

  lemma {:induction false} NextPrime(t: nat, p: nat, q: nat)
    requires IsNthPrime(t, p) && NextOne(p, q) && q < 361
    ensures IsNthPrime(t + 1, q)
  {
    SievedIsPrime(q);
    hide IsPrime, Sieved, NoneFrom;
    SkipComposites(p + 1, q);
  }

  const PRIMES: seq<seq<nat>> := [
    [2, 3, 5, 7, 11, 13, 17, 19],
    [23, 29, 31, 37, 41, 43, 47, 53],
    [59, 61, 67, 71, 73, 79, 83, 89],
    [97, 101, 103, 107, 109, 113, 127, 131],
    [137, 139, 149, 151, 157, 163, 167, 173],
    [179, 181, 191, 193, 197, 199, 211, 223],
    [227, 229, 233, 239, 241, 251, 257, 263],
    [269, 271, 277, 281, 283, 293, 307, 311]
  ]

  function PrimeAt(t: nat): nat
    requires t < 64
  {
    PRIMES[t / 8][t % 8]
  }

  predicate Follows(t: nat)
    requires t < 63
  {
    NextOne(PrimeAt(t), PrimeAt(t + 1)) && PrimeAt(t + 1) < 361
  }

  lemma {:induction false} Gaps0()
    ensures Follows(0) && Follows(1) && Follows(2) && Follows(3)
  {
    assert NextOne(2, 3);
    assert NextOne(3, 5);
    assert NextOne(5, 7);
    assert NextOne(7, 11);
  }

  lemma {:induction false} Gaps1()
    ensures Follows(4) && Follows(5) && Follows(6) && Follows(7)
  {
    assert NextOne(11, 13);
    assert NextOne(13, 17);
    assert NextOne(17, 19);
    assert NextOne(19, 23);
  }

  lemma {:induction false} Gaps2()
    ensures Follows(8) && Follows(9) && Follows(10) && Follows(11)
  {
    assert NextOne(23, 29);
    assert NextOne(29, 31);
    assert NextOne(31, 37);
    assert NextOne(37, 41);
  }

  lemma {:induction false} Gaps3()
    ensures Follows(12) && Follows(13) && Follows(14) && Follows(15)
  {
    assert NextOne(41, 43);
    assert NextOne(43, 47);
    assert NextOne(47, 53);
    assert NextOne(53, 59);
  }

  lemma {:induction false} Gaps4()
    ensures Follows(16) && Follows(17) && Follows(18) && Follows(19)
  {
    assert NextOne(59, 61);
    assert NextOne(61, 67);
    assert NextOne(67, 71);
    assert NextOne(71, 73);
  }

  lemma {:induction false} Gaps5()
    ensures Follows(20) && Follows(21) && Follows(22) && Follows(23)
  {
    assert NextOne(73, 79);
    assert NextOne(79, 83);
    assert NextOne(83, 89);
    assert NextOne(89, 97);
  }

  lemma {:induction false} Gaps6()
    ensures Follows(24) && Follows(25) && Follows(26) && Follows(27)
  {
    assert NextOne(97, 101);
    assert NextOne(101, 103);
    assert NextOne(103, 107);
    assert NextOne(107, 109);
  }

  lemma {:induction false} Gaps7()
    ensures Follows(28) && Follows(29) && Follows(30) && Follows(31)
  {
    assert NextOne(109, 113);
    assert NextOne(113, 127);
    assert NextOne(127, 131);
    assert NextOne(131, 137);
  }

  lemma {:induction false} Gaps8()
    ensures Follows(32) && Follows(33) && Follows(34) && Follows(35)
  {
    assert NextOne(137, 139);
    assert NextOne(139, 149);
    assert NextOne(149, 151);
    assert NextOne(151, 157);
  }

  lemma {:induction false} Gaps9()
    ensures Follows(36) && Follows(37) && Follows(38) && Follows(39)
  {
    assert NextOne(157, 163);
    assert NextOne(163, 167);
    assert NextOne(167, 173);
    assert NextOne(173, 179);
  }

  lemma {:induction false} Gaps10()
    ensures Follows(40) && Follows(41) && Follows(42) && Follows(43)
  {
    assert NextOne(179, 181);
    assert NextOne(181, 191);
    assert NextOne(191, 193);
    assert NextOne(193, 197);
  }

  lemma {:induction false} Gaps11()
    ensures Follows(44) && Follows(45) && Follows(46) && Follows(47)
  {
    assert NextOne(197, 199);
    assert NextOne(199, 211);
    assert NextOne(211, 223);
    assert NextOne(223, 227);
  }

  lemma {:induction false} Gaps12()
    ensures Follows(48) && Follows(49) && Follows(50) && Follows(51)
  {
    assert NextOne(227, 229);
    assert NextOne(229, 233);
    assert NextOne(233, 239);
    assert NextOne(239, 241);
  }

  lemma {:induction false} Gaps13()
    ensures Follows(52) && Follows(53) && Follows(54) && Follows(55)
  {
    assert NextOne(241, 251);
    assert NextOne(251, 257);
    assert NextOne(257, 263);
    assert NextOne(263, 269);
  }

  lemma {:induction false} Gaps14()
    ensures Follows(56) && Follows(57) && Follows(58) && Follows(59)
  {
    assert NextOne(269, 271);
    assert NextOne(271, 277);
    assert NextOne(277, 281);
    assert NextOne(281, 283);
  }

  lemma {:induction false} Gaps15()
    ensures Follows(60) && Follows(61) && Follows(62)
  {
    assert NextOne(283, 293);
    assert NextOne(293, 307);
    assert NextOne(307, 311);
  }

  lemma {:induction false} PrimesFollow(t: nat)
    requires t < 63
    ensures Follows(t)
  {
    hide Follows, PrimeAt, NextOne;
    if t < 4 {
      Gaps0();
    } else if t < 8 {
      Gaps1();
    } else if t < 12 {
      Gaps2();
    } else if t < 16 {
      Gaps3();
    } else if t < 20 {
      Gaps4();
    } else if t < 24 {
      Gaps5();
    } else if t < 28 {
      Gaps6();
    } else if t < 32 {
      Gaps7();
    } else if t < 36 {
      Gaps8();
    } else if t < 40 {
      Gaps9();
    } else if t < 44 {
      Gaps10();
    } else if t < 48 {
      Gaps11();
    } else if t < 52 {
      Gaps12();
    } else if t < 56 {
      Gaps13();
    } else if t < 60 {
      Gaps14();
    } else {
      Gaps15();
    }
  }

  lemma {:induction false} PrimeAtIsNth(t: nat)
    requires t < 64
    ensures IsNthPrime(t, PrimeAt(t))
  {
    if t == 0 {
      FirstPrime();
    } else {
      hide NextOne, PrimeAt;
      PrimeAtIsNth(t - 1);
      PrimesFollow(t - 1);
      NextPrime(t - 1, PrimeAt(t - 1), PrimeAt(t));
    }
  }

  lemma {:induction false} FirstPrime()
    ensures IsNthPrime(0, PrimeAt(0))
  {
    assert PrimesBelow(1) == 0;
  }

  // ---- Roots ----

  /** r is the integer part of the cube root of p, and k the first 32 bits of its fractional part. */
  predicate CubeRootBits(p: nat, r: nat, k: nat) {
    var n := r * TWO_32 + k;
    k < TWO_32 && n * n * n <= p * TWO_32 * TWO_32 * TWO_32 < (n + 1) * (n + 1) * (n + 1)
  }

  /** r is the integer part of the square root of p, and k the first 32 bits of its fractional part. */
  predicate SquareRootBits(p: nat, r: nat, k: nat) {
    var n := r * TWO_32 + k;
    k < TWO_32 && n * n <= p * TWO_32 * TWO_32 < (n + 1) * (n + 1)
  }

  function CubeRoot(p: nat): nat {
    if p < 8 then 1 else if p < 27 then 2 else if p < 64 then 3 else if p < 125 then 4 else if p < 216 then 5 else 6
  }

  predicate Derived(t: nat)
    requires t < 64
  {
    CubeRootBits(PrimeAt(t), CubeRoot(PrimeAt(t)), K(t).bits as nat)
  }

  lemma {:induction false} Constants0()
    ensures Derived(0) && Derived(1)
  {
  }

  lemma {:induction false} Constants1()
    ensures Derived(2) && Derived(3)
  {
  }

  lemma {:induction false} Constants2()
    ensures Derived(4) && Derived(5)
  {
  }

  lemma {:induction false} Constants3()
    ensures Derived(6) && Derived(7)
  {
  }

  lemma {:induction false} Constants4()
    ensures Derived(8) && Derived(9)
  {
  }

  lemma {:induction false} Constants5()
    ensures Derived(10) && Derived(11)
  {
  }

  lemma {:induction false} Constants6()
    ensures Derived(12) && Derived(13)
  {
  }

  lemma {:induction false} Constants7()
    ensures Derived(14) && Derived(15)
  {
  }

  lemma {:induction false} Constants8()
    ensures Derived(16) && Derived(17)
  {
  }

  lemma {:induction false} Constants9()
    ensures Derived(18) && Derived(19)
  {
  }

  lemma {:induction false} Constants10()
    ensures Derived(20) && Derived(21)
  {
  }

  lemma {:induction false} Constants11()
    ensures Derived(22) && Derived(23)
  {
  }

  lemma {:induction false} Constants12()
    ensures Derived(24) && Derived(25)
  {
  }

  lemma {:induction false} Constants13()
    ensures Derived(26) && Derived(27)
  {
  }

  lemma {:induction false} Constants14()
    ensures Derived(28) && Derived(29)
  {
  }

  lemma {:induction false} Constants15()
    ensures Derived(30) && Derived(31)
  {
  }

  lemma {:induction false} Constants16()
    ensures Derived(32) && Derived(33)
  {
  }

  lemma {:induction false} Constants17()
    ensures Derived(34) && Derived(35)
  {
  }

  lemma {:induction false} Constants18()
    ensures Derived(36) && Derived(37)
  {
  }

  lemma {:induction false} Constants19()
    ensures Derived(38) && Derived(39)
  {
  }

  lemma {:induction false} Constants20()
    ensures Derived(40) && Derived(41)
  {
  }

  lemma {:induction false} Constants21()
    ensures Derived(42) && Derived(43)
  {
  }

  lemma {:induction false} Constants22()
    ensures Derived(44) && Derived(45)
  {
  }

  lemma {:induction false} Constants23()
    ensures Derived(46) && Derived(47)
  {
  }

  lemma {:induction false} Constants24()
    ensures Derived(48) && Derived(49)
  {
  }

  lemma {:induction false} Constants25()
    ensures Derived(50) && Derived(51)
  {
  }

  lemma {:induction false} Constants26()
    ensures Derived(52) && Derived(53)
  {
  }

  lemma {:induction false} Constants27()
    ensures Derived(54) && Derived(55)
  {
  }

  lemma {:induction false} Constants28()
    ensures Derived(56) && Derived(57)
  {
  }

  lemma {:induction false} Constants29()
    ensures Derived(58) && Derived(59)
  {
  }

  lemma {:induction false} Constants30()
    ensures Derived(60) && Derived(61)
  {
  }

  lemma {:induction false} Constants31()
    ensures Derived(62) && Derived(63)
  {
  }

  /** The constant that round t adds is the expansion of the cube root of the t-th prime. */
  lemma {:induction false} RoundConstantIsCubeRoot(t: nat) returns (p: nat, r: nat)
    requires t < 64
    ensures IsNthPrime(t, p) && CubeRootBits(p, r, K(t).bits as nat)
  {
    p, r := PrimeAt(t), CubeRoot(PrimeAt(t));
    PrimeAtIsNth(t);
    ConstantIsDerived(t);
  }

  lemma {:induction false} LowerConstant(t: nat)
    requires t < 32
    ensures Derived(t)
  {
    hide Derived, PrimeAt, CubeRoot, K;
    if t < 2 {
      Constants0();
    } else if t < 4 {
      Constants1();
    } else if t < 6 {
      Constants2();
    } else if t < 8 {
      Constants3();
    } else if t < 10 {
      Constants4();
    } else if t < 12 {
      Constants5();
    } else if t < 14 {
      Constants6();
    } else if t < 16 {
      Constants7();
    } else if t < 18 {
      Constants8();
    } else if t < 20 {
      Constants9();
    } else if t < 22 {
      Constants10();
    } else if t < 24 {
      Constants11();
    } else if t < 26 {
      Constants12();
    } else if t < 28 {
      Constants13();
    } else if t < 30 {
      Constants14();
    } else {
      Constants15();
    }
  }

  lemma {:induction false} UpperConstant(t: nat)
    requires 32 <= t < 64
    ensures Derived(t)
  {
    hide Derived, PrimeAt, CubeRoot, K;
    if t < 34 {
      Constants16();
    } else if t < 36 {
      Constants17();
    } else if t < 38 {
      Constants18();
    } else if t < 40 {
      Constants19();
    } else if t < 42 {
      Constants20();
    } else if t < 44 {
      Constants21();
    } else if t < 46 {
      Constants22();
    } else if t < 48 {
      Constants23();
    } else if t < 50 {
      Constants24();
    } else if t < 52 {
      Constants25();
    } else if t < 54 {
      Constants26();
    } else if t < 56 {
      Constants27();
    } else if t < 58 {
      Constants28();
    } else if t < 60 {
      Constants29();
    } else if t < 62 {
      Constants30();
    } else {
      Constants31();
    }
  }

  lemma {:induction false} ConstantIsDerived(t: nat)
    requires t < 64
    ensures Derived(t)
  {
    hide Derived;
    if t < 32 {
      LowerConstant(t);
    } else {
      UpperConstant(t);
    }
  }

  lemma {:induction false} InitialStateIsSquareRoots()
    ensures SquareRootBits(2, 1, INITIAL.a.bits as nat) && SquareRootBits(3, 1, INITIAL.b.bits as nat)
    ensures SquareRootBits(5, 2, INITIAL.c.bits as nat) && SquareRootBits(7, 2, INITIAL.d.bits as nat)
    ensures SquareRootBits(11, 3, INITIAL.e.bits as nat) && SquareRootBits(13, 3, INITIAL.f.bits as nat)
    ensures SquareRootBits(17, 4, INITIAL.g.bits as nat) && SquareRootBits(19, 4, INITIAL.h.bits as nat)
  {
  }
}
