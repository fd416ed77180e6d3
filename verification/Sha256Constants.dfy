/**
 What the constants and the byte orders of FIPS 180-4 mean: the round constants are the
 fractional parts of the cube roots of the first 64 primes (section 4.2.2), the initial hash
 value those of the square roots of the first eight (section 5.3.3), and words and lengths are
 written with the most significant byte first (sections 3.1 and 5.2.1).
 */
module Sha256Constants {
  import opened Common
  import opened Fips180

  // ----- the first 64 primes -----

  /** No product of two smaller numbers. */
  ghost predicate IsPrime(n: nat) { n >= 2 && forall a: nat, b: nat :: a >= 2 && b >= 2 ==> a * b != n }

  const PRIMES: seq<seq<nat>> := [
    [2, 3, 5, 7, 11, 13, 17, 19],
    [23, 29, 31, 37, 41, 43, 47, 53],
    [59, 61, 67, 71, 73, 79, 83, 89],
    [97, 101, 103, 107, 109, 113, 127, 131],
    [137, 139, 149, 151, 157, 163, 167, 173],
    [179, 181, 191, 193, 197, 199, 211, 223],
    [227, 229, 233, 239, 241, 251, 257, 263],
    [269, 271, 277, 281, 283, 293, 307, 311]]

  function Prime(i: nat): nat { if i < 64 then PRIMES[i / 8][i % 8] else 0 }

  /** Divisible by none of the primes below 19, other than itself. */
  predicate Sifted(n: nat) {
    && (n == 2 || n % 2 != 0) && (n == 3 || n % 3 != 0) && (n == 5 || n % 5 != 0) && (n == 7 || n % 7 != 0)
    && (n == 11 || n % 11 != 0) && (n == 13 || n % 13 != 0) && (n == 17 || n % 17 != 0)
  }

  lemma ProductDivides(a: nat, b: nat)
    requires a > 0
    ensures (a * b) % a == 0
  {
    var q, r := (a * b) / a, (a * b) % a;
    assert a * b == a * q + r;
    assert r == a * (b - q);
    assert b - q >= 1 ==> a * (b - q) >= a;
    assert b - q <= -1 ==> a * (b - q) <= 0 - a;
  }

  /** A prime factor of each number below 19. */
  function FactorOf(a: nat): (p: nat)
    requires 2 <= a < 19
    ensures p in {2, 3, 5, 7, 11, 13, 17} && p <= a && p * (a / p) == a
  {
    if a % 2 == 0 then 2 else if a % 3 == 0 then 3 else a
  }

  /** A product below 19 * 19 does not pass. */
  lemma ProductIsSifted(a: nat, b: nat)
    requires 2 <= a <= b && a * b < 361
    ensures !Sifted(a * b)
  {
    assert a >= 19 ==> a * b >= 361;
    var p := FactorOf(a);
    var c := a / p;
    assert p * (c * b) == a * b;
    ProductDivides(p, c * b);
    assert p * b <= a * b && b >= 2;
    assert p * b > p;
  }

  /** Below 19 * 19 the numbers that pass are the primes. */
  lemma SiftedIsPrime(n: nat)
    requires 2 <= n < 361
    ensures Sifted(n) <==> IsPrime(n)
  {
    forall a: nat, b: nat | a >= 2 && b >= 2 && a * b == n ensures !Sifted(n) {
      if a <= b { ProductIsSifted(a, b); } else { ProductIsSifted(b, a); }
    }
    if !Sifted(n) {
      var p := if n != 2 && n % 2 == 0 then 2 else if n != 3 && n % 3 == 0 then 3 else if n != 5 && n % 5 == 0 then 5
               else if n != 7 && n % 7 == 0 then 7 else if n != 11 && n % 11 == 0 then 11
               else if n != 13 && n % 13 == 0 then 13 else 17;
      assert p * (n / p) == n;
    }
  }

  /** The numbers from n up to `end` that pass are exactly the table from the i-th entry up to `last`. */
  predicate Lists(n: nat, end: nat, i: nat, last: nat)
    requires n <= end
    decreases end - n
  {
    if n == end then i == last
    else if Sifted(n) then i < last && last <= 64 && Prime(i) == n && Lists(n + 1, end, i + 1, last)
    else Lists(n + 1, end, i, last)
  }

  lemma Listed0()
    ensures Lists(2, 32, 0, 11)
  {
    assert Lists(23, 32, 8, 11);
    assert Lists(14, 32, 6, 11);
    assert Lists(5, 32, 2, 11);
  }

  lemma Listed1()
    ensures Lists(32, 62, 11, 18)
  {
    assert Lists(53, 62, 15, 18);
    assert Lists(44, 62, 14, 18);
    assert Lists(35, 62, 11, 18);
  }

  lemma Listed2()
    ensures Lists(62, 92, 18, 24)
  {
    assert Lists(83, 92, 22, 24);
    assert Lists(74, 92, 21, 24);
    assert Lists(65, 92, 18, 24);
  }

  lemma Listed3()
    ensures Lists(92, 122, 24, 30)
  {
    assert Lists(113, 122, 29, 30);
    assert Lists(104, 122, 27, 30);
    assert Lists(95, 122, 24, 30);
  }

  lemma Listed4()
    ensures Lists(122, 152, 30, 36)
  {
    assert Lists(143, 152, 34, 36);
    assert Lists(134, 152, 32, 36);
    assert Lists(125, 152, 30, 36);
  }

  lemma Listed5()
    ensures Lists(152, 182, 36, 42)
  {
    assert Lists(173, 182, 39, 42);
    assert Lists(164, 182, 38, 42);
    assert Lists(155, 182, 36, 42);
  }

  lemma Listed6()
    ensures Lists(182, 212, 42, 47)
  {
    assert Lists(203, 212, 46, 47);
    assert Lists(194, 212, 44, 47);
    assert Lists(185, 212, 42, 47);
  }

  lemma Listed7()
    ensures Lists(212, 242, 47, 53)
  {
    assert Lists(233, 242, 50, 53);
    assert Lists(224, 242, 48, 53);
    assert Lists(215, 242, 47, 53);
  }

  lemma Listed8()
    ensures Lists(242, 272, 53, 58)
  {
    assert Lists(263, 272, 55, 58);
    assert Lists(254, 272, 54, 58);
    assert Lists(245, 272, 53, 58);
  }

  lemma Listed9()
    ensures Lists(272, 302, 58, 62)
  {
    assert Lists(293, 302, 61, 62);
    assert Lists(284, 302, 61, 62);
    assert Lists(275, 302, 58, 62);
  }

  lemma Listed10()
    ensures Lists(302, 312, 62, 64)
  {
    assert Lists(303, 312, 62, 64);
  }

  /** The same for any test and any table. */
  ghost predicate ListsBy(pass: nat -> bool, table: nat -> nat, n: nat, end: nat, i: nat, last: nat)
    requires n <= end
    decreases end - n
  {
    if n == end then i == last
    else if pass(n) then i < last && table(i) == n && ListsBy(pass, table, n + 1, end, i + 1, last)
    else ListsBy(pass, table, n + 1, end, i, last)
  }

  lemma {:induction false} Generalise(n: nat, end: nat, i: nat, last: nat)
    requires n <= end && Lists(n, end, i, last)
    ensures ListsBy(Sifted, Prime, n, end, i, last)
    decreases end - n
  {
    if n < end { Generalise(n + 1, end, if Sifted(n) then i + 1 else i, last); }
  }

  lemma {:induction false} ListsJoin(pass: nat -> bool, table: nat -> nat,
                                     n: nat, mid: nat, end: nat, i: nat, j: nat, last: nat)
    requires n <= mid <= end && j <= last && ListsBy(pass, table, n, mid, i, j)
    requires ListsBy(pass, table, mid, end, j, last)
    ensures ListsBy(pass, table, n, end, i, last)
    decreases mid - n
  {
    if n < mid { ListsJoin(pass, table, n + 1, mid, end, if pass(n) then i + 1 else i, j, last); }
  }

  lemma AllListed()
    ensures ListsBy(Sifted, Prime, 2, 312, 0, 64)
  {
    Listed0();
    Generalise(2, 32, 0, 11);
    Listed1();
    Generalise(32, 62, 11, 18);
    Listed2();
    Generalise(62, 92, 18, 24);
    Listed3();
    Generalise(92, 122, 24, 30);
    Listed4();
    Generalise(122, 152, 30, 36);
    Listed5();
    Generalise(152, 182, 36, 42);
    Listed6();
    Generalise(182, 212, 42, 47);
    Listed7();
    Generalise(212, 242, 47, 53);
    Listed8();
    Generalise(242, 272, 53, 58);
    Listed9();
    Generalise(272, 302, 58, 62);
    Listed10();
    Generalise(302, 312, 62, 64);
    ListsJoin(Sifted, Prime, 272, 302, 312, 58, 62, 64);
    ListsJoin(Sifted, Prime, 242, 272, 312, 53, 58, 64);
    ListsJoin(Sifted, Prime, 212, 242, 312, 47, 53, 64);
    ListsJoin(Sifted, Prime, 182, 212, 312, 42, 47, 64);
    ListsJoin(Sifted, Prime, 152, 182, 312, 36, 42, 64);
    ListsJoin(Sifted, Prime, 122, 152, 312, 30, 36, 64);
    ListsJoin(Sifted, Prime, 92, 122, 312, 24, 30, 64);
    ListsJoin(Sifted, Prime, 62, 92, 312, 18, 24, 64);
    ListsJoin(Sifted, Prime, 32, 62, 312, 11, 18, 64);
    ListsJoin(Sifted, Prime, 2, 32, 312, 0, 11, 64);
  }

  lemma {:induction false} ListsAbove(pass: nat -> bool, table: nat -> nat,
                                      n: nat, end: nat, i: nat, last: nat, j: nat)
    requires n <= end && i <= j < last && ListsBy(pass, table, n, end, i, last)
    ensures n <= table(j) < end && pass(table(j))
    decreases end - n
  {
    if n < end && !(pass(n) && i == j) {
      ListsAbove(pass, table, n + 1, end, if pass(n) then i + 1 else i, last, j);
    }
  }

  lemma {:induction false} ListsFinds(pass: nat -> bool, table: nat -> nat,
                                      n: nat, end: nat, i: nat, last: nat, m: nat) returns (j: nat)
    requires n <= m < end && i <= last && ListsBy(pass, table, n, end, i, last) && pass(m)
    ensures i <= j < last && table(j) == m
    decreases end - n
  {
    if n == m { j := i; } else { j := ListsFinds(pass, table, n + 1, end, if pass(n) then i + 1 else i, last, m); }
  }

  lemma {:induction false} ListsOrdered(pass: nat -> bool, table: nat -> nat,
                                        n: nat, end: nat, i: nat, last: nat, j: nat)
    requires n <= end && i <= j && j + 1 < last && ListsBy(pass, table, n, end, i, last)
    ensures table(j) < table(j + 1)
    decreases end - n
  {
    if n < end {
      var next := if pass(n) then i + 1 else i;
      if next <= j {
        ListsOrdered(pass, table, n + 1, end, next, last, j);
      } else {
        ListsAbove(pass, table, n + 1, end, next, last, j + 1);
      }
    }
  }

  /** Prime(i) is the i-th prime: the table increases and holds exactly the primes below 312. */
  lemma FirstPrimes(n: nat, j: nat)
    requires n < 312 && j < 63
    ensures IsPrime(n) <==> exists i :: 0 <= i < 64 && Prime(i) == n
    ensures Prime(j) < Prime(j + 1)
  {
    AllListed();
    ListsOrdered(Sifted, Prime, 2, 312, 0, 64, j);
    if n >= 2 {
      SiftedIsPrime(n);
      if Sifted(n) { var i := ListsFinds(Sifted, Prime, 2, 312, 0, 64, n); }
    }
    forall i | 0 <= i < 64 && Prime(i) == n ensures IsPrime(n) { ListsAbove(Sifted, Prime, 2, 312, 0, 64, i); }
  }

  // ----- the constants -----

  const TWO_96: nat := TWO_32 * TWO_64

  /** `k` is the first 32 bits of the fractional part of the cube root of p, whose whole part is w. */
  predicate CubeRootBits(k: nat, p: nat, w: nat) {
    var c := w * TWO_32 + k;
    k < TWO_32 && c * c * c <= p * TWO_96 < (c + 1) * (c + 1) * (c + 1)
  }

  predicate SquareRootBits(h: nat, p: nat, w: nat) {
    var c := w * TWO_32 + h;
    h < TWO_32 && c * c <= p * TWO_64 < (c + 1) * (c + 1)
  }

  predicate IsCubeRoot(t: nat) { t < 64 && CubeRootBits(K(t) as nat, Prime(t), WholeRoot(Prime(t))) }

  ghost predicate AllFrom(ok: nat -> bool, t: nat, n: nat) { forall i: nat :: t <= i < n ==> ok(i) }

  function WholeRoot(p: nat): (w: nat)
    ensures p < 343 ==> w * w * w <= p < (w + 1) * (w + 1) * (w + 1)
  {
    if p < 1 then 0 else if p < 8 then 1 else if p < 27 then 2 else if p < 64 then 3
    else if p < 125 then 4 else if p < 216 then 5 else 6
  }

  lemma FourMore(ok: nat -> bool, t: nat)
    requires AllFrom(ok, 0, t) && ok(t) && ok(t + 1) && ok(t + 2) && ok(t + 3)
    ensures AllFrom(ok, 0, t + 4)
  {
  }

  lemma ConstantsTo4()
    ensures AllFrom(IsCubeRoot, 0, 4)
  {
    FourMore(IsCubeRoot, 0);
  }

  lemma ConstantsTo8()
    ensures AllFrom(IsCubeRoot, 0, 8)
  {
    ConstantsTo4();
    FourMore(IsCubeRoot, 4);
  }

  lemma ConstantsTo12()
    ensures AllFrom(IsCubeRoot, 0, 12)
  {
    ConstantsTo8();
    FourMore(IsCubeRoot, 8);
  }

  lemma ConstantsTo16()
    ensures AllFrom(IsCubeRoot, 0, 16)
  {
    ConstantsTo12();
    FourMore(IsCubeRoot, 12);
  }

  lemma ConstantsTo20()
    ensures AllFrom(IsCubeRoot, 0, 20)
  {
    ConstantsTo16();
    FourMore(IsCubeRoot, 16);
  }

  lemma ConstantsTo24()
    ensures AllFrom(IsCubeRoot, 0, 24)
  {
    ConstantsTo20();
    FourMore(IsCubeRoot, 20);
  }

  lemma ConstantsTo28()
    ensures AllFrom(IsCubeRoot, 0, 28)
  {
    ConstantsTo24();
    FourMore(IsCubeRoot, 24);
  }

  lemma ConstantsTo32()
    ensures AllFrom(IsCubeRoot, 0, 32)
  {
    ConstantsTo28();
    FourMore(IsCubeRoot, 28);
  }

  lemma ConstantsTo36()
    ensures AllFrom(IsCubeRoot, 0, 36)
  {
    ConstantsTo32();
    FourMore(IsCubeRoot, 32);
  }

  lemma ConstantsTo40()
    ensures AllFrom(IsCubeRoot, 0, 40)
  {
    ConstantsTo36();
    FourMore(IsCubeRoot, 36);
  }

  lemma ConstantsTo44()
    ensures AllFrom(IsCubeRoot, 0, 44)
  {
    ConstantsTo40();
    FourMore(IsCubeRoot, 40);
  }

  lemma ConstantsTo48()
    ensures AllFrom(IsCubeRoot, 0, 48)
  {
    ConstantsTo44();
    FourMore(IsCubeRoot, 44);
  }

  lemma ConstantsTo52()
    ensures AllFrom(IsCubeRoot, 0, 52)
  {
    ConstantsTo48();
    FourMore(IsCubeRoot, 48);
  }

  lemma ConstantsTo56()
    ensures AllFrom(IsCubeRoot, 0, 56)
  {
    ConstantsTo52();
    FourMore(IsCubeRoot, 52);
  }

  lemma ConstantsTo60()
    ensures AllFrom(IsCubeRoot, 0, 60)
  {
    ConstantsTo56();
    FourMore(IsCubeRoot, 56);
  }

  lemma ConstantsTo64()
    ensures AllFrom(IsCubeRoot, 0, 64)
  {
    ConstantsTo60();
    FourMore(IsCubeRoot, 60);
  }

  /** Section 4.2.2: the i-th constant is the fractional part of the cube root of the i-th prime. */
  lemma ConstantsAreCubeRoots(i: nat)
    requires i < 64
    ensures Prime(i) < 343 && CubeRootBits(K(i) as nat, Prime(i), WholeRoot(Prime(i)))
  {
    AllListed();
    ListsAbove(Sifted, Prime, 2, 312, 0, 64, i);
    ConstantsTo64();
    assert IsCubeRoot(i);
  }

  /** Section 5.3.3: the initial hash value is the fractional parts of the square roots of the first eight primes. */
  lemma InitialValueIsSquareRoots()
    ensures SquareRootBits(IV.a as nat, Prime(0), 1) && SquareRootBits(IV.b as nat, Prime(1), 1)
    ensures SquareRootBits(IV.c as nat, Prime(2), 2) && SquareRootBits(IV.d as nat, Prime(3), 2)
    ensures SquareRootBits(IV.e as nat, Prime(4), 3) && SquareRootBits(IV.f as nat, Prime(5), 3)
    ensures SquareRootBits(IV.g as nat, Prime(6), 4) && SquareRootBits(IV.h as nat, Prime(7), 4)
  {
  }

  // ----- byte order -----

  /** Section 5.2.1: word t of a block is bytes 4t to 4t + 3, the first being the most significant. */
  lemma WordValue(block: Bytes, t: nat)
    requires |block| == 64 && t < 16
    ensures BlockWord(block, t) as nat
            == block[4 * t] as nat * 0x100_0000 + block[4 * t + 1] as nat * 0x1_0000
               + block[4 * t + 2] as nat * 0x100 + block[4 * t + 3] as nat
  {
    JoinValue(block[4 * t], block[4 * t + 1], block[4 * t + 2], block[4 * t + 3]);
  }

  lemma JoinValue(a: byte, b: byte, c: byte, d: byte)
    ensures ((a as bv32 << 24) | (b as bv32 << 16) | (c as bv32 << 8) | (d as bv32)) as nat
            == a as nat * 0x100_0000 + b as nat * 0x1_0000 + c as nat * 0x100 + d as nat
  {
  }

  /** The bytes of a word, most significant first. */
  lemma WordBytesValue(w: bv32)
    ensures var r := BigEndian32(w);
            && |r| == 4
            && r[0] as nat * 0x100_0000 + r[1] as nat * 0x1_0000 + r[2] as nat * 0x100 + r[3] as nat == w as nat
  {
    var r := BigEndian32(w);
    JoinValue(r[0], r[1], r[2], r[3]);
    WordIsJoin(w);
  }

  lemma WordIsJoin(w: bv32)
    ensures var r := BigEndian32(w);
            (r[0] as bv32 << 24) | (r[1] as bv32 << 16) | (r[2] as bv32 << 8) | (r[3] as bv32) == w
  {
  }

  /** The bytes of the length field, most significant first, make up the length. */
  lemma LengthBytesValue(n: nat)
    requires n < TWO_64
    ensures var r := BigEndian64(n);
            && |r| == 8
            && (r[0] as bv64 << 56) | (r[1] as bv64 << 48) | (r[2] as bv64 << 40) | (r[3] as bv64 << 32)
               | (r[4] as bv64 << 24) | (r[5] as bv64 << 16) | (r[6] as bv64 << 8) | (r[7] as bv64) == n as bv64
  {
    LongIsJoin(n as bv64);
  }

  lemma LongIsJoin(w: bv64)
    ensures (((w >> 56) & 0xFF) << 56) | (((w >> 48) & 0xFF) << 48) | (((w >> 40) & 0xFF) << 40)
            | (((w >> 32) & 0xFF) << 32) | (((w >> 24) & 0xFF) << 24) | (((w >> 16) & 0xFF) << 16)
            | (((w >> 8) & 0xFF) << 8) | (w & 0xFF) == w
  {
  }
}
