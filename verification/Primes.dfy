/** The first 64 primes, from which SHA-256 takes its constants. */
module Primes {

  const PRIMES: seq<seq<nat>> := [
    [2, 3, 5, 7, 11, 13, 17, 19],
    [23, 29, 31, 37, 41, 43, 47, 53],
    [59, 61, 67, 71, 73, 79, 83, 89],
    [97, 101, 103, 107, 109, 113, 127, 131],
    [137, 139, 149, 151, 157, 163, 167, 173],
    [179, 181, 191, 193, 197, 199, 211, 223],
    [227, 229, 233, 239, 241, 251, 257, 263],
    [269, 271, 277, 281, 283, 293, 307, 311]]

  function Prime(t: nat): nat
    requires t < 64
  {
    PRIMES[t / 8][t % 8]
  }

  predicate IsPrime(n: nat) {
    n >= 2 && forall d :: 2 <= d < n ==> n % d != 0
  }

  /******* Divisors *******/

  lemma TimesGrows(a: nat, b: nat, d: nat)
    requires a < b
    ensures a * d + d <= b * d
  {
    assert b * d == (a + 1) * d + (b - a - 1) * d;
  }

  lemma SameRemainder(a: nat, b: nat, d: nat, r: nat, s: nat)
    requires r < d && s < d && a * d + r == b * d + s
    ensures r == s
  {
    if a < b {
      TimesGrows(a, b, d);
    } else if b < a {
      TimesGrows(b, a, d);
    }
  }

  lemma MultipleOf(d: nat, e: nat)
    requires e > 0
    ensures d * e % e == 0
  {
    var n := d * e;
    SameRemainder(n / e, d, e, n % e, 0);
  }

  lemma FactorDivides(n: nat, a: nat, b: nat)
    requires a > 0 && b > 0 && n % (a * b) == 0
    ensures n % a == 0
  {
    var k := n / (a * b);
    assert n == (a * b) * k == (b * k) * a;
    MultipleOf(b * k, a);
  }

  lemma OneIsSmall(n: nat, d: nat, e: nat)
    requires 2 <= d < n < 324 && n == d * e
    ensures 2 <= e < n && (d < 18 || e < 18)
  {
    assert e != 0 && e != 1;
    assert d * e >= 2 * e;
    assert d >= 18 && e >= 18 ==> d * e >= 18 * e >= 18 * 18;
  }

  /** The other factor divides too, and one of the two is below 18. */
  lemma Factors(n: nat, d: nat)
    requires 2 <= d < n < 324 && n % d == 0
    ensures var e := n / d; 2 <= e < n && n % e == 0 && (d < 18 || e < 18)
  {
    var e := n / d;
    assert n == d * e;
    OneIsSmall(n, d, e);
    MultipleOf(d, e);
  }

  /******* The sieve *******/

  predicate Divides(d: nat, n: nat)
    requires d > 0
  {
    n % d == 0 && d < n
  }

  /** A smaller prime up to 17 divides the number. */
  predicate Sifted(n: nat) {
    Divides(2, n) || Divides(3, n) || Divides(5, n) || Divides(7, n) || Divides(11, n) || Divides(13, n) || Divides(17, n)
  }

  /** A number with a divisor below 18 has a prime one. */
  lemma SmallDivisor(n: nat, d: nat)
    requires 2 <= d < 18 && d < n && n % d == 0
    ensures Sifted(n)
  {
    if d in {4, 6, 8, 10, 12, 14, 16} {
      FactorDivides(n, 2, d / 2);
    } else if d in {9, 15} {
      FactorDivides(n, 3, d / 3);
    }
  }

  lemma SiftedExactly(n: nat)
    requires 2 <= n < 324
    ensures IsPrime(n) <==> !Sifted(n)
  {
    hide Sifted;
    if !Sifted(n) {
      forall d | 2 <= d < n
        ensures n % d != 0
      {
        if n % d == 0 {
          Factors(n, d);
          SmallDivisor(n, if d < 18 then d else n / d);
        }
      }
    } else {
      HasDivisor(n);
    }
  }

  lemma HasDivisor(n: nat)
    requires Sifted(n)
    ensures !IsPrime(n)
  {
  }

  /** All numbers from `lo` to before `hi` are sifted out. */
  predicate AllSifted(lo: nat, hi: nat)
    decreases hi - lo
  {
    lo >= hi || (Sifted(lo) && AllSifted(lo + 1, hi))
  }

  lemma {:induction false} AllSiftedHas(lo: nat, hi: nat, n: nat)
    requires AllSifted(lo, hi) && lo <= n < hi
    ensures Sifted(n)
    decreases hi - lo
  {
    hide Sifted;
    if lo < n {
      AllSiftedHas(lo + 1, hi, n);
    }
  }

  /** Entry `t` of the table is not sifted out, and everything up to the next entry is. */
  predicate Sieved(t: nat)
    requires t < 64
  {
    && 2 <= Prime(t) < 324 && !Sifted(Prime(t))
    && (t < 63 ==> Prime(t) < Prime(t + 1) < 324 && AllSifted(Prime(t) + 1, Prime(t + 1)))
  }

  lemma Row0()
    ensures !Sifted(2) && AllSifted(3, 3)
    ensures !Sifted(3) && AllSifted(4, 5)
    ensures !Sifted(5) && AllSifted(6, 7)
    ensures !Sifted(7) && AllSifted(8, 11)
    ensures !Sifted(11) && AllSifted(12, 13)
    ensures !Sifted(13) && AllSifted(14, 17)
    ensures !Sifted(17) && AllSifted(18, 19)
    ensures !Sifted(19) && AllSifted(20, 23)
  {
  }

  lemma Row1()
    ensures !Sifted(23) && AllSifted(24, 29)
    ensures !Sifted(29) && AllSifted(30, 31)
    ensures !Sifted(31) && AllSifted(32, 37)
    ensures !Sifted(37) && AllSifted(38, 41)
    ensures !Sifted(41) && AllSifted(42, 43)
    ensures !Sifted(43) && AllSifted(44, 47)
    ensures !Sifted(47) && AllSifted(48, 53)
    ensures !Sifted(53) && AllSifted(54, 59)
  {
  }

  lemma Row2()
    ensures !Sifted(59) && AllSifted(60, 61)
    ensures !Sifted(61) && AllSifted(62, 67)
    ensures !Sifted(67) && AllSifted(68, 71)
    ensures !Sifted(71) && AllSifted(72, 73)
    ensures !Sifted(73) && AllSifted(74, 79)
    ensures !Sifted(79) && AllSifted(80, 83)
    ensures !Sifted(83) && AllSifted(84, 89)
    ensures !Sifted(89) && AllSifted(90, 97)
  {
  }

  lemma Row3()
    ensures !Sifted(97) && AllSifted(98, 101)
    ensures !Sifted(101) && AllSifted(102, 103)
    ensures !Sifted(103) && AllSifted(104, 107)
    ensures !Sifted(107) && AllSifted(108, 109)
    ensures !Sifted(109) && AllSifted(110, 113)
    ensures !Sifted(113) && AllSifted(114, 127)
    ensures !Sifted(127) && AllSifted(128, 131)
    ensures !Sifted(131) && AllSifted(132, 137)
  {
  }

  lemma Row4()
    ensures !Sifted(137) && AllSifted(138, 139)
    ensures !Sifted(139) && AllSifted(140, 149)
    ensures !Sifted(149) && AllSifted(150, 151)
    ensures !Sifted(151) && AllSifted(152, 157)
    ensures !Sifted(157) && AllSifted(158, 163)
    ensures !Sifted(163) && AllSifted(164, 167)
    ensures !Sifted(167) && AllSifted(168, 173)
    ensures !Sifted(173) && AllSifted(174, 179)
  {
  }

  lemma Row5()
    ensures !Sifted(179) && AllSifted(180, 181)
    ensures !Sifted(181) && AllSifted(182, 191)
    ensures !Sifted(191) && AllSifted(192, 193)
    ensures !Sifted(193) && AllSifted(194, 197)
    ensures !Sifted(197) && AllSifted(198, 199)
    ensures !Sifted(199) && AllSifted(200, 211)
    ensures !Sifted(211) && AllSifted(212, 223)
    ensures !Sifted(223) && AllSifted(224, 227)
  {
  }

  lemma Row6()
    ensures !Sifted(227) && AllSifted(228, 229)
    ensures !Sifted(229) && AllSifted(230, 233)
    ensures !Sifted(233) && AllSifted(234, 239)
    ensures !Sifted(239) && AllSifted(240, 241)
    ensures !Sifted(241) && AllSifted(242, 251)
    ensures !Sifted(251) && AllSifted(252, 257)
    ensures !Sifted(257) && AllSifted(258, 263)
    ensures !Sifted(263) && AllSifted(264, 269)
  {
  }

  lemma Row7()
    ensures !Sifted(269) && AllSifted(270, 271)
    ensures !Sifted(271) && AllSifted(272, 277)
    ensures !Sifted(277) && AllSifted(278, 281)
    ensures !Sifted(281) && AllSifted(282, 283)
    ensures !Sifted(283) && AllSifted(284, 293)
    ensures !Sifted(293) && AllSifted(294, 307)
    ensures !Sifted(307) && AllSifted(308, 311)
    ensures !Sifted(311)
  {
  }

  lemma SievedRow0(t: nat)
    requires 0 <= t < 8
    ensures Sieved(t)
  {
    hide Sifted, AllSifted;
    Row0();
  }

  lemma SievedRow1(t: nat)
    requires 8 <= t < 16
    ensures Sieved(t)
  {
    hide Sifted, AllSifted;
    Row1();
  }

  lemma SievedRow2(t: nat)
    requires 16 <= t < 24
    ensures Sieved(t)
  {
    hide Sifted, AllSifted;
    Row2();
  }

  lemma SievedRow3(t: nat)
    requires 24 <= t < 32
    ensures Sieved(t)
  {
    hide Sifted, AllSifted;
    Row3();
  }

  lemma SievedRow4(t: nat)
    requires 32 <= t < 40
    ensures Sieved(t)
  {
    hide Sifted, AllSifted;
    Row4();
  }

  lemma SievedRow5(t: nat)
    requires 40 <= t < 48
    ensures Sieved(t)
  {
    hide Sifted, AllSifted;
    Row5();
  }

  lemma SievedRow6(t: nat)
    requires 48 <= t < 56
    ensures Sieved(t)
  {
    hide Sifted, AllSifted;
    Row6();
  }

  lemma SievedRow7(t: nat)
    requires 56 <= t < 64
    ensures Sieved(t)
  {
    hide Sifted, AllSifted;
    Row7();
  }

  lemma AllSieved(t: nat)
    requires t < 64
    ensures Sieved(t)
  {
    hide Sieved, Prime;
    match t / 8 {
      case 0 => SievedRow0(t);
      case 1 => SievedRow1(t);
      case 2 => SievedRow2(t);
      case 3 => SievedRow3(t);
      case 4 => SievedRow4(t);
      case 5 => SievedRow5(t);
      case 6 => SievedRow6(t);
      case 7 => SievedRow7(t);
    }
  }

  /** The table holds the first 64 primes: it starts with 2, and no prime lies between two neighbours. */
  lemma TableHoldsPrimes(t: nat)
    requires t < 64
    ensures Prime(0) == 2 && IsPrime(Prime(t))
    ensures t < 63 ==> Prime(t) < Prime(t + 1) && forall n :: Prime(t) < n < Prime(t + 1) ==> !IsPrime(n)
  {
    hide IsPrime, Sifted, AllSifted;
    AllSieved(t);
    SiftedExactly(Prime(t));
    if t < 63 {
      forall n | Prime(t) < n < Prime(t + 1)
        ensures !IsPrime(n)
      {
        AllSiftedHas(Prime(t) + 1, Prime(t + 1), n);
        SiftedExactly(n);
      }
    }
  }
}
