/**
 Where the constants of SHA-256 come from: FIPS 180-4 defines the round constants, in section 4.2.2, by the
 cube roots of the first 64 primes, and the initial hash value, in section 5.3.3, by the square roots of the
 first eight. That is a second account of the tables that the stream and the specification share.
 */
module Sha256Constants {
  import opened Sha256Spec

  /** The first 64 primes. */
  const PRIMES: seq<nat> :=
    [2, 3, 5, 7, 11, 13, 17, 19, 23, 29, 31, 37, 41, 43, 47, 53] +
    [59, 61, 67, 71, 73, 79, 83, 89, 97, 101, 103, 107, 109, 113, 127, 131] +
    [137, 139, 149, 151, 157, 163, 167, 173, 179, 181, 191, 193, 197, 199, 211, 223] +
    [227, 229, 233, 239, 241, 251, 257, 263, 269, 271, 277, 281, 283, 293, 307, 311]

  function Square(x: nat): nat { x * x }
  function Cube(x: nat): nat { x * x * x }

  /** k is the first 32 bits of the fractional part of the cube root of p: the root, cut off after 32 binary
      places and scaled to a whole number x, ends in k. */
  ghost predicate CubeRootBits(p: nat, k: word) {
    exists x: nat :: Cube(x) <= p * Cube(M) < Cube(x + 1) && x % M == k
  }

  ghost predicate SquareRootBits(p: nat, k: word) {
    exists x: nat :: Square(x) <= p * Square(M) < Square(x + 1) && x % M == k
  }

  /** The same with the whole part of the root of p as it is for the primes in question. */
  predicate CubeRootIs(p: nat, k: word) {
    var r := if p < 8 then 1 else if p < 27 then 2 else if p < 64 then 3 else if p < 125 then 4
             else if p < 216 then 5 else 6;
    Cube(r * M + k) <= p * Cube(M) < Cube(r * M + k + 1)
  }

  predicate SquareRootIs(p: nat, k: word) {
    var r := if p < 4 then 1 else if p < 9 then 2 else if p < 16 then 3 else 4;
    Square(r * M + k) <= p * Square(M) < Square(r * M + k + 1)
  }

  lemma CubeRootsOfRow0()
    ensures
      CubeRootIs(2, 0x428a2f98) && CubeRootIs(3, 0x71374491) && CubeRootIs(5, 0xb5c0fbcf) &&
      CubeRootIs(7, 0xe9b5dba5) && CubeRootIs(11, 0x3956c25b) && CubeRootIs(13, 0x59f111f1) &&
      CubeRootIs(17, 0x923f82a4) && CubeRootIs(19, 0xab1c5ed5) && CubeRootIs(23, 0xd807aa98) &&
      CubeRootIs(29, 0x12835b01) && CubeRootIs(31, 0x243185be) && CubeRootIs(37, 0x550c7dc3) &&
      CubeRootIs(41, 0x72be5d74) && CubeRootIs(43, 0x80deb1fe) && CubeRootIs(47, 0x9bdc06a7) &&
      CubeRootIs(53, 0xc19bf174)
  {
  }

  lemma CubeRootsOfRow1()
    ensures
      CubeRootIs(59, 0xe49b69c1) && CubeRootIs(61, 0xefbe4786) && CubeRootIs(67, 0x0fc19dc6) &&
      CubeRootIs(71, 0x240ca1cc) && CubeRootIs(73, 0x2de92c6f) && CubeRootIs(79, 0x4a7484aa) &&
      CubeRootIs(83, 0x5cb0a9dc) && CubeRootIs(89, 0x76f988da) && CubeRootIs(97, 0x983e5152) &&
      CubeRootIs(101, 0xa831c66d) && CubeRootIs(103, 0xb00327c8) && CubeRootIs(107, 0xbf597fc7) &&
      CubeRootIs(109, 0xc6e00bf3) && CubeRootIs(113, 0xd5a79147) && CubeRootIs(127, 0x06ca6351) &&
      CubeRootIs(131, 0x14292967)
  {
  }

  lemma CubeRootsOfRow2()
    ensures
      CubeRootIs(137, 0x27b70a85) && CubeRootIs(139, 0x2e1b2138) && CubeRootIs(149, 0x4d2c6dfc) &&
      CubeRootIs(151, 0x53380d13) && CubeRootIs(157, 0x650a7354) && CubeRootIs(163, 0x766a0abb) &&
      CubeRootIs(167, 0x81c2c92e) && CubeRootIs(173, 0x92722c85) && CubeRootIs(179, 0xa2bfe8a1) &&
      CubeRootIs(181, 0xa81a664b) && CubeRootIs(191, 0xc24b8b70) && CubeRootIs(193, 0xc76c51a3) &&
      CubeRootIs(197, 0xd192e819) && CubeRootIs(199, 0xd6990624) && CubeRootIs(211, 0xf40e3585) &&
      CubeRootIs(223, 0x106aa070)
  {
  }

  lemma CubeRootsOfRow3()
    ensures
      CubeRootIs(227, 0x19a4c116) && CubeRootIs(229, 0x1e376c08) && CubeRootIs(233, 0x2748774c) &&
      CubeRootIs(239, 0x34b0bcb5) && CubeRootIs(241, 0x391c0cb3) && CubeRootIs(251, 0x4ed8aa4a) &&
      CubeRootIs(257, 0x5b9cca4f) && CubeRootIs(263, 0x682e6ff3) && CubeRootIs(269, 0x748f82ee) &&
      CubeRootIs(271, 0x78a5636f) && CubeRootIs(277, 0x84c87814) && CubeRootIs(281, 0x8cc70208) &&
      CubeRootIs(283, 0x90befffa) && CubeRootIs(293, 0xa4506ceb) && CubeRootIs(307, 0xbef9a3f7) &&
      CubeRootIs(311, 0xc67178f2)
  {
  }

  lemma CubeRoots0(i: nat)
    requires 0 <= i < 16
    ensures CubeRootIs(PRIMES[i], K[i])
  {
    hide CubeRootIs;
    CubeRootsOfRow0();
  }

  lemma CubeRoots1(i: nat)
    requires 16 <= i < 32
    ensures CubeRootIs(PRIMES[i], K[i])
  {
    hide CubeRootIs;
    CubeRootsOfRow1();
  }

  lemma CubeRoots2(i: nat)
    requires 32 <= i < 48
    ensures CubeRootIs(PRIMES[i], K[i])
  {
    hide CubeRootIs;
    CubeRootsOfRow2();
  }

  lemma CubeRoots3(i: nat)
    requires 48 <= i < 64
    ensures CubeRootIs(PRIMES[i], K[i])
  {
    hide CubeRootIs;
    CubeRootsOfRow3();
  }

  lemma SquareRoots()
    ensures
      SquareRootIs(2, 0x6a09e667) && SquareRootIs(3, 0xbb67ae85) && SquareRootIs(5, 0x3c6ef372) &&
      SquareRootIs(7, 0xa54ff53a) && SquareRootIs(11, 0x510e527f) && SquareRootIs(13, 0x9b05688c) &&
      SquareRootIs(17, 0x1f83d9ab) && SquareRootIs(19, 0x5be0cd19)
  {
  }

  /** Section 4.2.2: each round constant is the fraction of the cube root of its prime. */
  lemma RoundConstants(i: nat)
    requires i < 64
    ensures CubeRootBits(PRIMES[i], K[i])
  {
    hide CubeRootIs;
    if i < 16 { CubeRoots0(i); } else if i < 32 { CubeRoots1(i); }
    else if i < 48 { CubeRoots2(i); } else { CubeRoots3(i); }
    CubeFraction(PRIMES[i], K[i]);
  }

  lemma CubeFraction(p: nat, k: word)
    requires CubeRootIs(p, k)
    ensures CubeRootBits(p, k)
  {
    var r := if p < 8 then 1 else if p < 27 then 2 else if p < 64 then 3 else if p < 125 then 4
             else if p < 216 then 5 else 6;
    var x: nat := r * M + k;
    assert Cube(x) <= p * Cube(M) < Cube(x + 1) && x % M == k;
  }

  /** Section 5.3.3: each initial hash word is the fraction of the square root of its prime. */
  lemma InitialHash(i: nat)
    requires i < 8
    ensures SquareRootBits(PRIMES[i], H0[i])
  {
    assert SquareRootIs(PRIMES[i], H0[i]) by {
      hide SquareRootIs;
      SquareRoots();
    }
    SquareFraction(PRIMES[i], H0[i]);
  }

  lemma SquareFraction(p: nat, k: word)
    requires SquareRootIs(p, k)
    ensures SquareRootBits(p, k)
  {
    var r := if p < 4 then 1 else if p < 9 then 2 else if p < 16 then 3 else 4;
    var x: nat := r * M + k;
    assert Square(x) <= p * Square(M) < Square(x + 1) && x % M == k;
  }
}
