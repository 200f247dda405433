/**
 SHA-256 as FIPS 180-4 defines it: a pure function of the whole message. A word is a number below
 2^32 and addition of words is modulo 2^32; the bitwise operations go bit by bit.
 */
module Sha256Spec {

  const M: nat := 0x1_0000_0000

  type byte = x: nat | x < 256
  type word = x: nat | x < M

  // ---------------------------------------------------------------- section 3.2: operations on words

  function Pow2(k: nat): (p: nat)
    ensures p > 0
  {
    if k == 0 then 1 else 2 * Pow2(k - 1)
  }

  lemma Pow2Word()
    ensures Pow2(32) == M
  {
    assert Pow2(8) == 256;
    assert Pow2(16) == 0x1_0000;
    assert Pow2(24) == 0x100_0000;
  }

  /** A boolean operation on each of the low k bits of x and y. */
  function Bitwise(op: (bool, bool) -> bool, x: nat, y: nat, k: nat): (r: nat)
    ensures r < Pow2(k)
  {
    if k == 0 then 0
    else (if op(x % 2 == 1, y % 2 == 1) then 1 else 0) + 2 * Bitwise(op, x / 2, y / 2, k - 1)
  }

  function And(x: word, y: word): word { Pow2Word(); Bitwise((p, q) => p && q, x, y, 32) }
  function Or(x: word, y: word): word { Pow2Word(); Bitwise((p, q) => p || q, x, y, 32) }
  function Xor(x: word, y: word): word { Pow2Word(); Bitwise((p, q) => p != q, x, y, 32) }
  function Not(x: word): word { M - 1 - x }
  function Add(x: word, y: word): word { (x + y) % M }

  function Shr(x: word, n: nat): word decreases n { if n == 0 then x else Shr(x / 2, n - 1) }
  function Shl(x: word, n: nat): word decreases n { if n == 0 then x else Shl((2 * x) % M, n - 1) }

  // ---------------------------------------------------------------- section 4.1.2: functions

  function Rotr(x: word, n: nat): word
    requires n <= 32
  {
    Or(Shr(x, n), Shl(x, 32 - n))
  }

  function Ch(x: word, y: word, z: word): word { Xor(And(x, y), And(Not(x), z)) }
  function Maj(x: word, y: word, z: word): word { Xor(Xor(And(x, y), And(x, z)), And(y, z)) }
  function BigSigma0(x: word): word { Xor(Xor(Rotr(x, 2), Rotr(x, 13)), Rotr(x, 22)) }
  function BigSigma1(x: word): word { Xor(Xor(Rotr(x, 6), Rotr(x, 11)), Rotr(x, 25)) }
  function SmallSigma0(x: word): word { Xor(Xor(Rotr(x, 7), Rotr(x, 18)), Shr(x, 3)) }
  function SmallSigma1(x: word): word { Xor(Xor(Rotr(x, 17), Rotr(x, 19)), Shr(x, 10)) }

  // ---------------------------------------------------------------- sections 4.2.2 and 5.3.3: constants

  const K: seq<word> :=
    [0x428a2f98, 0x71374491, 0xb5c0fbcf, 0xe9b5dba5, 0x3956c25b, 0x59f111f1, 0x923f82a4, 0xab1c5ed5,
     0xd807aa98, 0x12835b01, 0x243185be, 0x550c7dc3, 0x72be5d74, 0x80deb1fe, 0x9bdc06a7, 0xc19bf174] +
    [0xe49b69c1, 0xefbe4786, 0x0fc19dc6, 0x240ca1cc, 0x2de92c6f, 0x4a7484aa, 0x5cb0a9dc, 0x76f988da,
     0x983e5152, 0xa831c66d, 0xb00327c8, 0xbf597fc7, 0xc6e00bf3, 0xd5a79147, 0x06ca6351, 0x14292967] +
    [0x27b70a85, 0x2e1b2138, 0x4d2c6dfc, 0x53380d13, 0x650a7354, 0x766a0abb, 0x81c2c92e, 0x92722c85,
     0xa2bfe8a1, 0xa81a664b, 0xc24b8b70, 0xc76c51a3, 0xd192e819, 0xd6990624, 0xf40e3585, 0x106aa070] +
    [0x19a4c116, 0x1e376c08, 0x2748774c, 0x34b0bcb5, 0x391c0cb3, 0x4ed8aa4a, 0x5b9cca4f, 0x682e6ff3,
     0x748f82ee, 0x78a5636f, 0x84c87814, 0x8cc70208, 0x90befffa, 0xa4506ceb, 0xbef9a3f7, 0xc67178f2]

  const H0: seq<word> := [
    0x6a09e667, 0xbb67ae85, 0x3c6ef372, 0xa54ff53a, 0x510e527f, 0x9b05688c, 0x1f83d9ab, 0x5be0cd19]

  // ---------------------------------------------------------------- section 5.1.1: padding

  /** The last k base-256 digits of n, most significant first. */
  function BigEndian(n: nat, k: nat): (bytes: seq<byte>)
    ensures |bytes| == k
  {
    if k == 0 then [] else BigEndian(n / 256, k - 1) + [n % 256]
  }

  /** The smallest number of zero bytes that brings 0x80 and them to 56 modulo 64. */
  function ZeroCount(length: nat): (z: nat)
    ensures z < 64 && (length + 1 + z) % 64 == 56 && (length + 1 + z + 8) % 64 == 0
  {
    (119 - length % 64) % 64
  }

  function Pad(message: seq<byte>): (padded: seq<byte>)
    ensures |padded| % 64 == 0
    ensures message <= padded
  {
    message + Padding(|message|)
  }

  function Padding(length: nat): (p: seq<byte>)
    ensures |p| == 1 + ZeroCount(length) + 8
  {
    [0x80] + seq(ZeroCount(length), _ => 0) + BigEndian(8 * length, 8)
  }

  // ---------------------------------------------------------------- section 6.2.2: the computation

  function WordAt(bytes: seq<byte>, i: nat): word
    requires i + 4 <= |bytes|
  {
    var b0: int, b1: int, b2: int, b3: int := bytes[i], bytes[i + 1], bytes[i + 2], bytes[i + 3];
    b0 * 0x100_0000 + b1 * 0x1_0000 + b2 * 0x100 + b3
  }

  /** Step 1: the message schedule. */
  function W(block: seq<byte>, t: nat): word
    requires |block| == 64 && t < 64
  {
    if t < 16 then WordAt(block, 4 * t)
    else Add(Add(Add(SmallSigma1(W(block, t - 2)), W(block, t - 7)), SmallSigma0(W(block, t - 15))), W(block, t - 16))
  }

  datatype Vars = Vars(a: word, b: word, c: word, d: word, e: word, f: word, g: word, h: word)

  /** Step 3: one round. */
  function Round(v: Vars, k: word, w: word): Vars {
    var t1 := Add(Add(Add(Add(v.h, BigSigma1(v.e)), Ch(v.e, v.f, v.g)), k), w);
    var t2 := Add(BigSigma0(v.a), Maj(v.a, v.b, v.c));
    Vars(Add(t1, t2), v.a, v.b, v.c, Add(v.d, t1), v.e, v.f, v.g)
  }

  function Rounds(v: Vars, block: seq<byte>, t: nat): Vars
    requires |block| == 64 && t <= 64
  {
    if t == 0 then v else Round(Rounds(v, block, t - 1), K[t - 1], W(block, t - 1))
  }

  /** Steps 2 to 4: the next hash value. */
  function Compress(h: seq<word>, block: seq<byte>): (h': seq<word>)
    requires |h| == 8 && |block| == 64
    ensures |h'| == 8
  {
    var v := Rounds(Vars(h[0], h[1], h[2], h[3], h[4], h[5], h[6], h[7]), block, 64);
    [Add(v.a, h[0]), Add(v.b, h[1]), Add(v.c, h[2]), Add(v.d, h[3]),
     Add(v.e, h[4]), Add(v.f, h[5]), Add(v.g, h[6]), Add(v.h, h[7])]
  }

  function Blocks(h: seq<word>, bytes: seq<byte>): (h': seq<word>)
    requires |h| == 8 && |bytes| % 64 == 0
    ensures |h'| == 8
    decreases |bytes|
  {
    if bytes == [] then h
    else Compress(Blocks(h, bytes[..|bytes| - 64]), bytes[|bytes| - 64..])
  }

  function Digest(message: seq<byte>): (h: seq<word>)
    ensures |h| == 8
  {
    Blocks(H0, Pad(message))
  }

  // ---------------------------------------------------------------- hexadecimal

  /** The last k base-16 digits of n, most significant first, in lower case. */
  function Hex(n: nat, k: nat): (s: string)
    ensures |s| == k
  {
    if k == 0 then "" else Hex(n / 16, k - 1) + ["0123456789abcdef"[n % 16]]
  }

  /** Two digits per byte of the digest: the form in which chunk hashes are compared. */
  function HexOfBytes(bytes: seq<byte>): string {
    if bytes == [] then "" else HexOfBytes(bytes[..|bytes| - 1]) + Hex(bytes[|bytes| - 1], 2)
  }

  function DigestBytes(h: seq<word>): seq<byte> {
    if h == [] then [] else DigestBytes(h[..|h| - 1]) + BigEndian(h[|h| - 1], 4)
  }

  /** The SHA-256 of a message in hexadecimal. */
  function HexDigest(message: seq<byte>): string {
    HexOfBytes(DigestBytes(Digest(message)))
  }
}
