/**
 The word operations of Sha256Spec bit by bit: shifts and rotations move bits, the others combine the bits
 at each place as sections 2.2.2, 3.2 and 4.1.2 of FIPS 180-4 say.
 */
module Sha256Bits {
  import opened Sha256Spec

  /** The bit of x worth 2^i. */
  predicate Bit(x: nat, i: nat) { if i == 0 then x % 2 == 1 else Bit(x / 2, i - 1) }

  lemma {:induction false} BitwiseBit(op: (bool, bool) -> bool, x: nat, y: nat, k: nat, i: nat)
    requires i < k
    ensures Bit(Bitwise(op, x, y, k), i) <==> op(Bit(x, i), Bit(y, i))
  {
    var rest := Bitwise(op, x / 2, y / 2, k - 1);
    assert Bitwise(op, x, y, k) / 2 == rest;
    if i > 0 { BitwiseBit(op, x / 2, y / 2, k - 1, i - 1); }
  }

  lemma AndBit(x: word, y: word, i: nat)
    requires i < 32
    ensures Bit(And(x, y), i) <==> Bit(x, i) && Bit(y, i)
  {
    BitwiseBit((p, q) => p && q, x, y, 32, i);
  }

  lemma OrBit(x: word, y: word, i: nat)
    requires i < 32
    ensures Bit(Or(x, y), i) <==> Bit(x, i) || Bit(y, i)
  {
    BitwiseBit((p, q) => p || q, x, y, 32, i);
  }

  lemma XorBit(x: word, y: word, i: nat)
    requires i < 32
    ensures Bit(Xor(x, y), i) <==> Bit(x, i) != Bit(y, i)
  {
    BitwiseBit((p, q) => p != q, x, y, 32, i);
  }

  lemma {:induction false} ComplementBit(x: nat, k: nat, i: nat)
    requires x < Pow2(k) && i < k
    ensures Bit(Pow2(k) - 1 - x, i) <==> !Bit(x, i)
  {
    var y: nat := Pow2(k) - 1 - x;
    assert y / 2 == Pow2(k - 1) - 1 - x / 2;
    if i > 0 { ComplementBit(x / 2, k - 1, i - 1); }
  }

  lemma NotBit(x: word, i: nat)
    requires i < 32
    ensures Bit(Not(x), i) <==> !Bit(x, i)
  {
    Pow2Word();
    ComplementBit(x, 32, i);
  }

  lemma {:induction false} ShrBit(x: word, n: nat, i: nat)
    ensures Bit(Shr(x, n), i) <==> Bit(x, i + n)
    decreases n
  {
    if n > 0 { ShrBit(x / 2, n - 1, i); }
  }

  lemma {:induction false} NoHighBits(x: nat, k: nat, i: nat)
    requires x < Pow2(k) && k <= i
    ensures !Bit(x, i)
    decreases i
  {
    if i > 0 { NoHighBits(x / 2, if k == 0 then 0 else k - 1, i - 1); }
  }

  /** Adding a multiple of 2^k leaves the low k bits alone. */
  lemma {:induction false} LowBits(x: nat, q: nat, k: nat, i: nat)
    requires i < k
    ensures Bit(x + q * Pow2(k), i) <==> Bit(x, i)
  {
    assert q * Pow2(k) == 2 * (q * Pow2(k - 1));
    assert (x + q * Pow2(k)) / 2 == x / 2 + q * Pow2(k - 1);
    if i > 0 { LowBits(x / 2, q, k - 1, i - 1); }
  }

  lemma {:induction false} ShlBit(x: word, n: nat, i: nat)
    requires i < 32
    ensures Bit(Shl(x, n), i) <==> i >= n && Bit(x, i - n)
    decreases n
  {
    if n > 0 {
      ShlBit((2 * x) % M, n - 1, i);
      if i >= n - 1 {
        Pow2Word();
        LowBits((2 * x) % M, 2 * x / M, 32, i - (n - 1));
        assert 2 * x == (2 * x) % M + 2 * x / M * M;
      }
    }
  }

  /** A rotation to the right by n brings the bit at i + n to i, around the end. */
  lemma RotrBit(x: word, n: nat, i: nat)
    requires n <= 32 && i < 32
    ensures Bit(Rotr(x, n), i) <==> Bit(x, (i + n) % 32)
  {
    hide Or, Shr, Shl, Bit;
    OrBit(Shr(x, n), Shl(x, 32 - n), i);
    ShrBit(x, n, i);
    ShlBit(x, 32 - n, i);
    if i + n >= 32 {
      Pow2Word();
      NoHighBits(x, 32, i + n);
    }
  }

  /** Choose: y where x has a one, z elsewhere. */
  lemma ChBit(x: word, y: word, z: word, i: nat)
    requires i < 32
    ensures Bit(Ch(x, y, z), i) <==> if Bit(x, i) then Bit(y, i) else Bit(z, i)
  {
    hide And, Xor, Not, Bit;
    AndBit(x, y, i);
    NotBit(x, i);
    AndBit(Not(x), z, i);
    XorBit(And(x, y), And(Not(x), z), i);
  }

  /** Majority: what at least two of the three have. */
  lemma MajBit(x: word, y: word, z: word, i: nat)
    requires i < 32
    ensures Bit(Maj(x, y, z), i) <==> if Bit(x, i) == Bit(y, i) then Bit(x, i) else Bit(z, i)
  {
    hide And, Xor, Bit;
    AndBit(x, y, i);
    AndBit(x, z, i);
    AndBit(y, z, i);
    XorBit(And(x, y), And(x, z), i);
    XorBit(Xor(And(x, y), And(x, z)), And(y, z), i);
  }

  /** The exclusive or of three words, rotated by a, by b, and by c or shifted. */
  lemma SigmaBit(x: word, a: nat, b: nat, last: word, i: nat)
    requires a <= 32 && b <= 32 && i < 32
    ensures Bit(Xor(Xor(Rotr(x, a), Rotr(x, b)), last), i) <==>
            ((Bit(x, (i + a) % 32) != Bit(x, (i + b) % 32)) != Bit(last, i))
  {
    hide Xor, Rotr, Bit;
    RotrBit(x, a, i);
    RotrBit(x, b, i);
    XorBit(Rotr(x, a), Rotr(x, b), i);
    XorBit(Xor(Rotr(x, a), Rotr(x, b)), last, i);
  }

  /** Equations 4.4 to 4.7. */
  lemma SigmaBits(x: word, i: nat)
    requires i < 32
    ensures Bit(BigSigma0(x), i) <==>
            ((Bit(x, (i + 2) % 32) != Bit(x, (i + 13) % 32)) != Bit(x, (i + 22) % 32))
    ensures Bit(BigSigma1(x), i) <==>
            ((Bit(x, (i + 6) % 32) != Bit(x, (i + 11) % 32)) != Bit(x, (i + 25) % 32))
    ensures Bit(SmallSigma0(x), i) <==>
            ((Bit(x, (i + 7) % 32) != Bit(x, (i + 18) % 32)) != Bit(x, i + 3))
    ensures Bit(SmallSigma1(x), i) <==>
            ((Bit(x, (i + 17) % 32) != Bit(x, (i + 19) % 32)) != Bit(x, i + 10))
  {
    hide Xor, Rotr, Shr, Bit;
    SigmaBit(x, 2, 13, Rotr(x, 22), i);
    RotrBit(x, 22, i);
    SigmaBit(x, 6, 11, Rotr(x, 25), i);
    RotrBit(x, 25, i);
    SigmaBit(x, 7, 18, Shr(x, 3), i);
    ShrBit(x, 3, i);
    SigmaBit(x, 17, 19, Shr(x, 10), i);
    ShrBit(x, 10, i);
  }

  // ---------------------------------------------------------------- sums

  /** The low 32 bits of a sum. */
  function Low(n: nat): word { n % M }

  lemma AddSums(n: nat, m: nat)
    ensures Add(Low(n), Low(m)) == Low(n + m)
  {
    assert n + m == (n / M + m / M) * M + (n % M + m % M);
  }

  lemma AddWord(n: nat, y: word)
    ensures Add(Low(n), y) == Low(n + y)
  {
    AddSums(n, y);
  }

  lemma FourSum(a: word, b: word, c: word, d: word)
    ensures Add(Add(Add(a, b), c), d) == Low(a + b + c + d)
  {
    assert Low(a) == a;
    hide Add, Low;
    AddWord(a, b);
    AddWord(a + b, c);
    AddWord(a + b + c, d);
  }

  /** Section 6.2.2, step 3: the new a and e are sums modulo 2^32, each reduced once; the others move on. */
  lemma RoundSums(v: Vars, k: word, w: word)
    ensures var t1: nat := v.h + BigSigma1(v.e) + Ch(v.e, v.f, v.g) + k + w;
      && Round(v, k, w).a == Low(t1 + BigSigma0(v.a) + Maj(v.a, v.b, v.c))
      && Round(v, k, w).e == Low(v.d + t1)
      && Round(v, k, w).(a := v.a, e := v.e) == Vars(v.a, v.a, v.b, v.c, v.e, v.e, v.f, v.g)
  {
    hide BigSigma0, BigSigma1, Ch, Maj, Add, Low;
    NestedSums(v.h, BigSigma1(v.e), Ch(v.e, v.f, v.g), k, w, BigSigma0(v.a), Maj(v.a, v.b, v.c), v.d);
  }

  lemma NestedSums(a: word, b: word, c: word, k: word, w: word, x: word, y: word, d: word)
    ensures var t1 := Add(Add(Add(Add(a, b), c), k), w);
      Add(t1, Add(x, y)) == Low(a + b + c + k + w + x + y) && Add(d, t1) == Low(d + (a + b + c + k + w))
  {
    assert Low(x) == x && Low(d) == d;
    hide Add, Low;
    var n: nat := a + b + c + k;
    FourSum(a, b, c, k);
    AddWord(n, w);
    AddWord(x, y);
    var m: nat, l: nat := n + w, x + y;
    AddSums(m, l);
    AddSums(d, m);
  }

  /** Section 6.2.2, step 1: sixteen words of the block, most significant byte first, then sums. */
  lemma ScheduleSums(block: seq<byte>, t: nat)
    requires |block| == 64 && t < 64
    ensures t < 16 ==>
      var b0: int, b1: int, b2: int, b3: int := block[4 * t], block[4 * t + 1], block[4 * t + 2], block[4 * t + 3];
      W(block, t) == ((b0 * 256 + b1) * 256 + b2) * 256 + b3
    ensures t >= 16 ==>
      W(block, t) == Low(SmallSigma1(W(block, t - 2)) + W(block, t - 7) + SmallSigma0(W(block, t - 15)) +
                         W(block, t - 16))
  {
    hide SmallSigma0, SmallSigma1;
    if t >= 16 {
      FourSum(SmallSigma1(W(block, t - 2)), W(block, t - 7), SmallSigma0(W(block, t - 15)), W(block, t - 16));
    }
  }
}
