/**
 JavaScript's 32-bit arithmetic: bitwise operators take the low 32 bits of a number and give a signed
 result, `>>>` an unsigned one, and `| 0` wraps around. Numbers stay far below 2^53, so that sums are
 exact.
 */
module Int32 {
  import opened Sha256Spec

  /** What a variable or a typed array element can hold: a signed or an unsigned 32-bit integer. */
  type number = x: int | -0x8000_0000 <= x < M

  /** ToUint32: the low 32 bits. Storing into a Uint32Array does this. */
  function Unsigned(x: int): word { x % M }

  /** The signed integer with these bits. */
  function Signed(bits: word): number { if bits < 0x8000_0000 then bits else bits - M }

  /** x | 0 */
  function Wrap(x: int): number { Signed(Unsigned(x)) }

  function BitXor(x: number, y: number): number { Signed(Xor(Unsigned(x), Unsigned(y))) }
  function BitAnd(x: number, y: number): number { Signed(And(Unsigned(x), Unsigned(y))) }
  function BitOr(x: number, y: number): number { Signed(Or(Unsigned(x), Unsigned(y))) }
  function BitNot(x: number): number { -1 - Wrap(x) }
  function ShiftLeft(x: number, n: nat): number { Signed(Shl(Unsigned(x), n)) }

  /** x >>> n */
  function ShiftRight(x: number, n: nat): number { Shr(Unsigned(x), n) }

  function RotateRight(x: number, n: nat): number
    requires n <= 32
  {
    BitOr(ShiftRight(x, n), ShiftLeft(x, 32 - n))
  }

  lemma BitsOfWord(bits: word)
    ensures Unsigned(bits) == bits
  {
  }

  lemma BitsOfSigned(bits: word)
    ensures Unsigned(Signed(bits)) == bits
  {
  }

  lemma WrapKeepsBits(x: int)
    ensures Unsigned(Wrap(x)) == Unsigned(x)
  {
    BitsOfSigned(Unsigned(x));
  }

  /** Only the bits of the summands matter. */
  lemma SumOfBits(x: int, y: int)
    ensures Unsigned(x + y) == Add(Unsigned(x), Unsigned(y))
  {
    var p, q := x / M, y / M;
    assert x == p * M + Unsigned(x) && y == q * M + Unsigned(y);
  }

  /** ~ on a signed number turns its bits around. */
  lemma NotOfBits(x: number)
    ensures Unsigned(BitNot(x)) == Not(Unsigned(x))
  {
  }

  lemma XorOfBits(x: number, y: number)
    ensures Unsigned(BitXor(x, y)) == Xor(Unsigned(x), Unsigned(y))
  {
    BitsOfSigned(Xor(Unsigned(x), Unsigned(y)));
  }

  lemma AndOfBits(x: number, y: number)
    ensures Unsigned(BitAnd(x, y)) == And(Unsigned(x), Unsigned(y))
  {
    BitsOfSigned(And(Unsigned(x), Unsigned(y)));
  }

  lemma ShiftOfBits(x: number, n: nat)
    ensures Unsigned(ShiftRight(x, n)) == Shr(Unsigned(x), n)
  {
  }

  /** The rotation of the source is the standard's, whatever the sign of the number. */
  lemma RotateOfBits(x: number, n: nat)
    requires n <= 32
    ensures Unsigned(RotateRight(x, n)) == Rotr(Unsigned(x), n)
  {
    hide Or, Shr, Shl;
    BitsOfSigned(Shl(Unsigned(x), 32 - n));
    BitsOfSigned(Or(Shr(Unsigned(x), n), Shl(Unsigned(x), 32 - n)));
  }

  lemma Xor3OfBits(x: number, y: number, z: number)
    ensures Unsigned(BitXor(BitXor(x, y), z)) == Xor(Xor(Unsigned(x), Unsigned(y)), Unsigned(z))
  {
    hide Xor;
    XorOfBits(x, y);
    XorOfBits(BitXor(x, y), z);
  }
}
