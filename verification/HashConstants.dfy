/** The constants of SHA-256 are the roots of primes that FIPS 180-4 makes them, and its bit functions are its own. */
module HashConstants {
  import opened Base
  import opened Sha256

  // ---- the first 64 primes ----------------------------------------------------------------------------

  const PRIMES: seq<seq<nat>> := [
    [2, 3, 5, 7, 11, 13, 17, 19],
    [23, 29, 31, 37, 41, 43, 47, 53],
    [59, 61, 67, 71, 73, 79, 83, 89],
    [97, 101, 103, 107, 109, 113, 127, 131],
    [137, 139, 149, 151, 157, 163, 167, 173],
    [179, 181, 191, 193, 197, 199, 211, 223],
    [227, 229, 233, 239, 241, 251, 257, 263],
    [269, 271, 277, 281, 283, 293, 307, 311]]

  function PrimeAt(t: nat): nat
    requires t < 64
  {
    PRIMES[t / 8][t % 8]
  }

  predicate Composed(n: nat, a: nat, b: nat) { a > 1 && b > 1 && a * b == n }

  ghost predicate Prime(n: nat) { n > 1 && forall a: nat, b: nat :: !Composed(n, a, b) }

  ghost predicate NextPrime(a: nat, b: nat) { a < b && Prime(b) && forall n :: a < n < b ==> !Prime(n) }

  predicate HasSmallDivisor(n: nat) {
    n % 2 == 0 || n % 3 == 0 || n % 5 == 0 || n % 7 == 0 || n % 11 == 0 || n % 13 == 0 || n % 17 == 0
  }

  lemma Leaves(c: nat)
    ensures 2 * c % 2 == 0 && 3 * c % 3 == 0 && 5 * c % 5 == 0 && 7 * c % 7 == 0
    ensures 11 * c % 11 == 0 && 13 * c % 13 == 0 && 17 * c % 17 == 0
  {
  }

  lemma Multiples(c: nat)
    ensures HasSmallDivisor(2 * c) && HasSmallDivisor(3 * c) && HasSmallDivisor(5 * c) && HasSmallDivisor(7 * c)
    ensures HasSmallDivisor(11 * c) && HasSmallDivisor(13 * c) && HasSmallDivisor(17 * c)
  {
    Leaves(c);
  }

  lemma BelowEighteen(n: nat, a: nat, b: nat)
    requires 1 < a < 18 && n == a * b
    ensures HasSmallDivisor(n)
  {
    hide HasSmallDivisor;
    if {
      case a == 2 => Multiples(b);
      case a == 4 => Multiples(2 * b);
      case a == 6 => Multiples(3 * b);
      case a == 8 => Multiples(4 * b);
      case a == 10 => Multiples(5 * b);
      case a == 12 => Multiples(6 * b);
      case a == 14 => Multiples(7 * b);
      case a == 16 => Multiples(8 * b);
      case a == 3 => Multiples(b);
      case a == 9 => Multiples(3 * b);
      case a == 15 => Multiples(5 * b);
      case a == 5 => Multiples(b);
      case a == 7 => Multiples(b);
      case a == 11 => Multiples(b);
      case a == 13 => Multiples(b);
      case a == 17 => Multiples(b);
    }
  }

  lemma Large(a: nat, b: nat)
    requires a >= 18 && b >= 18
    ensures a * b >= 324
  {
    assert a * b >= 18 * b;
  }

  /** A product below 324, which is 18 squared, has a factor below 18. */
  lemma SmallDivisors(n: nat)
    requires 18 <= n < 324
    ensures Prime(n) <==> !HasSmallDivisor(n)
  {
    if !HasSmallDivisor(n) {
      forall a: nat, b: nat ensures !Composed(n, a, b) {
        if Composed(n, a, b) {
          if a < 18 {
            BelowEighteen(n, a, b);
          } else if b < 18 {
            BelowEighteen(n, b, a);
          } else {
            Large(a, b);
          }
        }
      }
    } else {
      assert Composed(n, 2, n / 2) || Composed(n, 3, n / 3) || Composed(n, 5, n / 5) || Composed(n, 7, n / 7)
             || Composed(n, 11, n / 11) || Composed(n, 13, n / 13) || Composed(n, 17, n / 17);
    }
  }

  /** Every number from n up to b has a small divisor. */
  predicate AllDivided(n: nat, b: nat)
    decreases b - n
  {
    n >= b || (HasSmallDivisor(n) && AllDivided(n + 1, b))
  }

  lemma {:induction false} DividedBetween(n: nat, b: nat, x: nat)
    requires AllDivided(n, b) && n <= x < b
    ensures HasSmallDivisor(x)
    decreases b - n
  {
    if x > n { DividedBetween(n + 1, b, x); }
  }

  /** What the sieve computes for two neighbours in the table. */
  predicate Neighbours(a: nat, b: nat) { 17 <= a < b < 324 && AllDivided(a + 1, b) && !HasSmallDivisor(b) }

  lemma NextBySieve(a: nat, b: nat)
    requires Neighbours(a, b)
    ensures NextPrime(a, b)
  {
    hide Prime, HasSmallDivisor;
    SmallDivisors(b);
    forall n | a < n < b ensures !Prime(n) {
      DividedBetween(a + 1, b, n);
      SmallDivisors(n);
    }
  }

  lemma FirstRow()
    ensures Prime(2) && NextPrime(2, 3) && NextPrime(3, 5) && NextPrime(5, 7) && NextPrime(7, 11) && NextPrime(11, 13)
            && NextPrime(13, 17) && NextPrime(17, 19)
  {
    NextBySieve(17, 19);
    assert Composed(4, 2, 2) && Composed(6, 2, 3) && Composed(8, 2, 4) && Composed(9, 3, 3) && Composed(10, 2, 5)
           && Composed(12, 2, 6) && Composed(14, 2, 7) && Composed(15, 3, 5) && Composed(16, 2, 8);
  }

  /** Eight neighbours in a row. */
  predicate Chain(a: nat, b: nat, c: nat, d: nat, e: nat, f: nat, g: nat, h: nat, i: nat) {
    && Neighbours(a, b) && Neighbours(b, c) && Neighbours(c, d) && Neighbours(d, e)
    && Neighbours(e, f) && Neighbours(f, g) && Neighbours(g, h) && Neighbours(h, i)
  }

  lemma Sieved1()
    ensures Chain(19, 23, 29, 31, 37, 41, 43, 47, 53)
  {
  }

  lemma Sieved2()
    ensures Chain(53, 59, 61, 67, 71, 73, 79, 83, 89)
  {
  }

  lemma Sieved3()
    ensures Chain(89, 97, 101, 103, 107, 109, 113, 127, 131)
  {
  }

  lemma Sieved4()
    ensures Chain(131, 137, 139, 149, 151, 157, 163, 167, 173)
  {
  }

  lemma Sieved5()
    ensures Chain(173, 179, 181, 191, 193, 197, 199, 211, 223)
  {
  }

  lemma Sieved6()
    ensures Chain(223, 227, 229, 233, 239, 241, 251, 257, 263)
  {
  }

  lemma Sieved7()
    ensures Chain(263, 269, 271, 277, 281, 283, 293, 307, 311)
  {
  }

  predicate ChainRow(last: nat, ps: seq<nat>)
    requires |ps| == 8
  {
    Chain(last, ps[0], ps[1], ps[2], ps[3], ps[4], ps[5], ps[6], ps[7])
  }

  lemma PrimeRows(r: nat)
    requires 1 <= r < 8
    ensures ChainRow(PRIMES[r - 1][7], PRIMES[r])
  {
    hide Chain;
    match r
    case 1 => Sieved1();
    case 2 => Sieved2();
    case 3 => Sieved3();
    case 4 => Sieved4();
    case 5 => Sieved5();
    case 6 => Sieved6();
    case 7 => Sieved7();
  }

  /** The table starts with the least prime and goes on with the next prime each time. */
  lemma FirstPrimes(t: nat)
    requires t < 63
    ensures PrimeAt(0) == 2 && Prime(2)
    ensures NextPrime(PrimeAt(t), PrimeAt(t + 1))
  {
    hide Prime, NextPrime, Neighbours;
    FirstRow();
    if t >= 7 {
      PrimeRows((t + 1) / 8);
      NextBySieve(PrimeAt(t), PrimeAt(t + 1));
    }
  }

  // ---- roots ---------------------------------------------------------------------------------------------

  const TWO_32: nat := 0x1_0000_0000

  /** With this integer part, the word is the first 32 fraction bits of the cube root. */
  predicate CubeRootAt(p: nat, whole: nat, w: bv32) {
    var n := whole * TWO_32 + w as nat;
    n * n * n <= p * TWO_32 * TWO_32 * TWO_32 < (n + 1) * (n + 1) * (n + 1)
  }

  predicate SquareRootAt(p: nat, whole: nat, w: bv32) {
    var n := whole * TWO_32 + w as nat;
    n * n <= p * TWO_32 * TWO_32 < (n + 1) * (n + 1)
  }

  ghost predicate CubeRootBits(p: nat, w: bv32) { exists whole :: CubeRootAt(p, whole, w) }

  ghost predicate SquareRootBits(p: nat, w: bv32) { exists whole :: SquareRootAt(p, whole, w) }

  function CubeRoot(p: nat): nat {
    if p < 8 then 1 else if p < 27 then 2 else if p < 64 then 3 else if p < 125 then 4 else if p < 216 then 5 else 6
  }

  predicate RootHalf(ps: seq<nat>, ws: seq<bv32>, k: nat)
    requires |ps| == |ws| == 8 && k <= 4
  {
    && CubeRootAt(ps[k], CubeRoot(ps[k]), ws[k]) && CubeRootAt(ps[k + 1], CubeRoot(ps[k + 1]), ws[k + 1])
    && CubeRootAt(ps[k + 2], CubeRoot(ps[k + 2]), ws[k + 2]) && CubeRootAt(ps[k + 3], CubeRoot(ps[k + 3]), ws[k + 3])
  }

  lemma Roots0()
    ensures RootHalf(PRIMES[0], K[0], 0)
  {
  }

  lemma Roots4()
    ensures RootHalf(PRIMES[0], K[0], 4)
  {
  }

  lemma Roots8()
    ensures RootHalf(PRIMES[1], K[1], 0)
  {
  }

  lemma Roots12()
    ensures RootHalf(PRIMES[1], K[1], 4)
  {
  }

  lemma Roots16()
    ensures RootHalf(PRIMES[2], K[2], 0)
  {
  }

  lemma Roots20()
    ensures RootHalf(PRIMES[2], K[2], 4)
  {
  }

  lemma Roots24()
    ensures RootHalf(PRIMES[3], K[3], 0)
  {
  }

  lemma Roots28()
    ensures RootHalf(PRIMES[3], K[3], 4)
  {
  }

  lemma Roots32()
    ensures RootHalf(PRIMES[4], K[4], 0)
  {
  }

  lemma Roots36()
    ensures RootHalf(PRIMES[4], K[4], 4)
  {
  }

  lemma Roots40()
    ensures RootHalf(PRIMES[5], K[5], 0)
  {
  }

  lemma Roots44()
    ensures RootHalf(PRIMES[5], K[5], 4)
  {
  }

  lemma Roots48()
    ensures RootHalf(PRIMES[6], K[6], 0)
  {
  }

  lemma Roots52()
    ensures RootHalf(PRIMES[6], K[6], 4)
  {
  }

  lemma Roots56()
    ensures RootHalf(PRIMES[7], K[7], 0)
  {
  }

  lemma Roots60()
    ensures RootHalf(PRIMES[7], K[7], 4)
  {
  }

  lemma RootRows(r: nat)
    requires r < 8
    ensures RootHalf(PRIMES[r], K[r], 0) && RootHalf(PRIMES[r], K[r], 4)
  {
    hide RootHalf, CubeRootAt;
    match r
    case 0 => Roots0(); Roots4();
    case 1 => Roots8(); Roots12();
    case 2 => Roots16(); Roots20();
    case 3 => Roots24(); Roots28();
    case 4 => Roots32(); Roots36();
    case 5 => Roots40(); Roots44();
    case 6 => Roots48(); Roots52();
    case 7 => Roots56(); Roots60();
  }

  /** Each round constant is the first 32 fraction bits of the cube root of its prime. */
  lemma RoundConstantsAreCubeRoots(t: nat)
    requires t < 64
    ensures CubeRootBits(PrimeAt(t), RoundConstant(t))
  {
    hide CubeRootAt, CubeRoot;
    RootRows(t / 8);
  }

  lemma FirstSquareRoots()
    ensures SquareRootAt(2, 1, H0().a) && SquareRootAt(3, 1, H0().b)
    ensures SquareRootAt(5, 2, H0().c) && SquareRootAt(7, 2, H0().d)
  {
  }

  lemma LastSquareRoots()
    ensures SquareRootAt(11, 3, H0().e) && SquareRootAt(13, 3, H0().f)
    ensures SquareRootAt(17, 4, H0().g) && SquareRootAt(19, 4, H0().h)
  {
  }

  /** The initial hash value is the first 32 fraction bits of the square roots of the first eight primes. */
  lemma InitialHashIsSquareRoots()
    ensures SquareRootBits(PrimeAt(0), H0().a) && SquareRootBits(PrimeAt(1), H0().b)
    ensures SquareRootBits(PrimeAt(2), H0().c) && SquareRootBits(PrimeAt(3), H0().d)
    ensures SquareRootBits(PrimeAt(4), H0().e) && SquareRootBits(PrimeAt(5), H0().f)
    ensures SquareRootBits(PrimeAt(6), H0().g) && SquareRootBits(PrimeAt(7), H0().h)
  {
    hide SquareRootAt, H0;
    FirstSquareRoots();
    LastSquareRoots();
  }

  // ---- bit functions -----------------------------------------------------------------------------------------

  /** Ch takes the second word where the first has ones and the third elsewhere; Maj goes with any two that agree. */
  lemma ChooseAndMajority(x: bv32, y: bv32, z: bv32)
    ensures x & Ch(x, y, z) == x & y && !x & Ch(x, y, z) == !x & z
    ensures Maj(x, x, z) == x && Maj(x, z, x) == x && Maj(z, x, x) == x
  {
  }

  /** Where each sigma function takes a single bit: the sums of section 4.1.2 of FIPS 180-4. */
  lemma SigmasOfOneBit()
    ensures BigSigma0(1) == 0x4008_0400 && BigSigma1(1) == 0x0420_0080
    ensures SmallSigma0(1) == 0x0200_4000 && SmallSigma0(8) == 0x1002_0001
    ensures SmallSigma1(1) == 0x0000_a000 && SmallSigma1(0x400) == 0x0280_0001
  {
  }
}
