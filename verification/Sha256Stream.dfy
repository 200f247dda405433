/**
 The streaming SHA-256 of the browser client: fixed buffers for the hash value, the schedule and
 the bytes of an unfinished block. It is proved to agree with Sha256Spec for every message and
 every way of cutting it into updates.
 */
module Sha256Stream {
  import opened Sha256Spec
  import opened Int32

  lemma {:induction false} BlocksAppend(h: seq<word>, bytes: seq<byte>, block: seq<byte>)
    requires |h| == 8 && |bytes| % 64 == 0 && |block| == 64
    ensures (|bytes| + 64) % 64 == 0
    ensures Blocks(h, bytes + block) == Compress(Blocks(h, bytes), block)
  {
    var all := bytes + block;
    assert all[..|all| - 64] == bytes && all[|all| - 64..] == block;
  }

  lemma AddCommutes(x: word, y: word)
    ensures Add(x, y) == Add(y, x)
  {
  }

  lemma AddAssociates(x: word, y: word, z: word)
    ensures Add(Add(x, y), z) == Add(x, Add(y, z))
  {
  }

  /** The order of the summands does not matter. */
  lemma SumOrder(a: word, b: word, c: word, d: word)
    ensures Add(Add(Add(a, b), c), d) == Add(Add(Add(d, c), b), a)
  {
    AddAssociates(a, b, c);
    AddAssociates(d, c, b);
    AddCommutes(a, Add(b, c));
    AddCommutes(b, c);
    AddCommutes(Add(Add(a, b), c), d);
    AddAssociates(d, Add(c, b), a);
    AddAssociates(d, c, b);
    hide Add;
  }

  /** The eight working variables as the source holds them, and the words they stand for. */
  datatype Numbers = Numbers(a: number, b: number, c: number, d: number, e: number, f: number, g: number, h: number)

  function Words(v: Numbers): Vars {
    Vars(Unsigned(v.a), Unsigned(v.b), Unsigned(v.c), Unsigned(v.d),
         Unsigned(v.e), Unsigned(v.f), Unsigned(v.g), Unsigned(v.h))
  }

  lemma FourSummands(a: word, x: number, b: word, y: number)
    ensures Unsigned(a + x + b + y) == Add(Add(Add(Unsigned(y), b), Unsigned(x)), a)
  {
    hide Add, Unsigned;
    BitsOfWord(a);
    BitsOfWord(b);
    SumOfBits(a, x);
    SumOfBits(a + x, b);
    SumOfBits(a + x + b, y);
    SumOrder(Unsigned(y), b, Unsigned(x), a);
  }

  lemma FiveSummands(a: number, x: number, y: number, k: word, w: word)
    ensures Unsigned(a + x + y + k + w) == Add(Add(Add(Add(Unsigned(a), Unsigned(x)), Unsigned(y)), k), w)
  {
    hide Add, Unsigned;
    BitsOfWord(k);
    BitsOfWord(w);
    SumOfBits(a, x);
    SumOfBits(a + x, y);
    SumOfBits(a + x + y, k);
    SumOfBits(a + x + y + k, w);
  }

  lemma BigSigma1OfBits(e: number)
    ensures Unsigned(BitXor(BitXor(RotateRight(e, 6), RotateRight(e, 11)), RotateRight(e, 25))) ==
      BigSigma1(Unsigned(e))
  {
    hide Xor, Rotr, BitXor, RotateRight;
    RotateOfBits(e, 6); RotateOfBits(e, 11); RotateOfBits(e, 25);
    Xor3OfBits(RotateRight(e, 6), RotateRight(e, 11), RotateRight(e, 25));
  }

  lemma BigSigma0OfBits(a: number)
    ensures Unsigned(BitXor(BitXor(RotateRight(a, 2), RotateRight(a, 13)), RotateRight(a, 22))) ==
      BigSigma0(Unsigned(a))
  {
    hide Xor, Rotr, BitXor, RotateRight;
    RotateOfBits(a, 2); RotateOfBits(a, 13); RotateOfBits(a, 22);
    Xor3OfBits(RotateRight(a, 2), RotateRight(a, 13), RotateRight(a, 22));
  }

  lemma SmallSigma0OfBits(x: word)
    ensures Unsigned(BitXor(BitXor(RotateRight(x, 7), RotateRight(x, 18)), ShiftRight(x, 3))) == SmallSigma0(x)
  {
    hide Xor, Rotr, Shr, BitXor, RotateRight, ShiftRight;
    BitsOfWord(x);
    RotateOfBits(x, 7); RotateOfBits(x, 18); ShiftOfBits(x, 3);
    Xor3OfBits(RotateRight(x, 7), RotateRight(x, 18), ShiftRight(x, 3));
  }

  lemma SmallSigma1OfBits(x: word)
    ensures Unsigned(BitXor(BitXor(RotateRight(x, 17), RotateRight(x, 19)), ShiftRight(x, 10))) == SmallSigma1(x)
  {
    hide Xor, Rotr, Shr, BitXor, RotateRight, ShiftRight;
    BitsOfWord(x);
    RotateOfBits(x, 17); RotateOfBits(x, 19); ShiftOfBits(x, 10);
    Xor3OfBits(RotateRight(x, 17), RotateRight(x, 19), ShiftRight(x, 10));
  }

  lemma ChOfBits(e: number, f: number, g: number)
    ensures Unsigned(BitXor(BitAnd(e, f), BitAnd(BitNot(e), g))) == Ch(Unsigned(e), Unsigned(f), Unsigned(g))
  {
    hide Xor, And, Not, BitXor, BitAnd, BitNot;
    NotOfBits(e);
    AndOfBits(e, f);
    AndOfBits(BitNot(e), g);
    XorOfBits(BitAnd(e, f), BitAnd(BitNot(e), g));
  }

  lemma MajOfBits(a: number, b: number, c: number)
    ensures Unsigned(BitXor(BitXor(BitAnd(a, b), BitAnd(a, c)), BitAnd(b, c))) ==
      Maj(Unsigned(a), Unsigned(b), Unsigned(c))
  {
    hide Xor, And, BitXor, BitAnd;
    AndOfBits(a, b);
    AndOfBits(a, c);
    AndOfBits(b, c);
    Xor3OfBits(BitAnd(a, b), BitAnd(a, c), BitAnd(b, c));
  }

  function PlusVars(h: seq<word>, v: Vars): seq<word>
    requires |h| == 8
  {
    [Add(h[0], v.a), Add(h[1], v.b), Add(h[2], v.c), Add(h[3], v.d),
     Add(h[4], v.e), Add(h[5], v.f), Add(h[6], v.g), Add(h[7], v.h)]
  }

  lemma PlusVarsIsCompress(h: seq<word>, block: seq<byte>, v: Vars)
    requires |h| == 8 && |block| == 64
    requires v == Rounds(Vars(h[0], h[1], h[2], h[3], h[4], h[5], h[6], h[7]), block, 64)
    ensures PlusVars(h, v) == Compress(h, block)
  {
    AddCommutes(h[0], v.a); AddCommutes(h[1], v.b); AddCommutes(h[2], v.c); AddCommutes(h[3], v.d);
    AddCommutes(h[4], v.e); AddCommutes(h[5], v.f); AddCommutes(h[6], v.g); AddCommutes(h[7], v.h);
  }

  lemma FirstWords(block: seq<byte>, offset: nat, t: nat)
    requires offset + 64 <= |block| && t < 16
    ensures W(block[offset..offset + 64], t) == WordAt(block, offset + t * 4)
  {
  }

  lemma LaterWords(block: seq<byte>, t: nat)
    requires |block| == 64 && 16 <= t < 64
    ensures W(block, t) ==
      Add(Add(Add(SmallSigma1(W(block, t - 2)), W(block, t - 7)), SmallSigma0(W(block, t - 15))), W(block, t - 16))
  {
  }

  class Sha256Stream {
    const h: array<word>
    const w: array<word>
    const pending: array<byte>
    var pendingLen: nat
    var totalBytes: nat

    /** Everything passed to Update so far. */
    ghost var fed: seq<byte>

    ghost function Done(): seq<byte>
      reads this`pendingLen, this`fed
      requires pendingLen <= |fed|
    {
      fed[..|fed| - pendingLen]
    }

    /** The blocks compressed so far and the pending prefix are the input. */
    ghost predicate Absorbed()
      reads this`pendingLen, this`fed, h, w, pending
    {
      Holding() && pendingLen < 64
    }

    ghost predicate Holding()
      reads this`pendingLen, this`fed, h, w, pending
    {
      && h.Length == 8 && w.Length == 64 && pending.Length == 64
      && h != w && pending as object != h && pending as object != w
      && pendingLen <= 64 && pendingLen <= |fed|
      && |Done()| % 64 == 0
      && h[..] == Blocks(H0, Done())
      && pending[..pendingLen] == fed[|fed| - pendingLen..]
    }

    ghost predicate Valid()
      reads this, h, w, pending
    {
      Absorbed() && totalBytes == |fed|
    }

    constructor ()
      ensures Valid() && fed == [] && fresh(h) && fresh(w) && fresh(pending)
    {
      h := new word[8](i requires 0 <= i < 8 => H0[i]);
      w := new word[64];
      pending := new byte[64];
      pendingLen, totalBytes, fed := 0, 0, [];
      new;
      assert h[..] == H0;
    }

    /** The body of the schedule loop. The sum is taken over the numbers, then reduced once. */
    static method NextWord(w16: word, w15: word, w7: word, w2: word) returns (r: number)
      ensures Unsigned(r) == Add(Add(Add(SmallSigma1(w2), w7), SmallSigma0(w15)), w16)
    {
      hide Add, Unsigned, BitXor, RotateRight, ShiftRight, Wrap, SmallSigma0, SmallSigma1;
      var s0 := BitXor(BitXor(RotateRight(w15, 7), RotateRight(w15, 18)), ShiftRight(w15, 3));
      SmallSigma0OfBits(w15);
      var s1 := BitXor(BitXor(RotateRight(w2, 17), RotateRight(w2, 19)), ShiftRight(w2, 10));
      SmallSigma1OfBits(w2);
      r := Wrap(w16 + s0 + w7 + s1);
      WrapKeepsBits(w16 + s0 + w7 + s1);
      FourSummands(w16, s0, w7, s1);
    }

    static method Temp1(e: number, f: number, g: number, hh: number, k: word, wt: word) returns (temp1: number)
      ensures Unsigned(temp1) ==
        Add(Add(Add(Add(Unsigned(hh), BigSigma1(Unsigned(e))), Ch(Unsigned(e), Unsigned(f), Unsigned(g))), k), wt)
    {
      hide Add, Unsigned, BitXor, BitAnd, BitNot, RotateRight, Wrap, BigSigma1, Ch;
      var s1 := BitXor(BitXor(RotateRight(e, 6), RotateRight(e, 11)), RotateRight(e, 25));
      BigSigma1OfBits(e);
      var ch := BitXor(BitAnd(e, f), BitAnd(BitNot(e), g));
      ChOfBits(e, f, g);
      temp1 := Wrap(hh + s1 + ch + k + wt);
      WrapKeepsBits(hh + s1 + ch + k + wt);
      FiveSummands(hh, s1, ch, k, wt);
    }

    static method Temp2(a: number, b: number, c: number) returns (temp2: number)
      ensures Unsigned(temp2) == Add(BigSigma0(Unsigned(a)), Maj(Unsigned(a), Unsigned(b), Unsigned(c)))
    {
      hide Add, Unsigned, BitXor, BitAnd, RotateRight, Wrap, BigSigma0, Maj;
      var s0 := BitXor(BitXor(RotateRight(a, 2), RotateRight(a, 13)), RotateRight(a, 22));
      BigSigma0OfBits(a);
      var maj := BitXor(BitXor(BitAnd(a, b), BitAnd(a, c)), BitAnd(b, c));
      MajOfBits(a, b, c);
      temp2 := Wrap(s0 as int + maj);
      WrapKeepsBits(s0 as int + maj);
      SumOfBits(s0, maj);
    }

    /** The body of the round loop. */
    static method OneRound(v: Numbers, k: word, wt: word) returns (v': Numbers)
      ensures Words(v') == Round(Words(v), k, wt)
    {
      hide Add, Unsigned, BigSigma0, BigSigma1, Ch, Maj, Wrap;
      var Numbers(a, b, c, d, e, f, g, hh) := v;
      var temp1 := Temp1(e, f, g, hh, k, wt);
      var temp2 := Temp2(a, b, c);
      WrapKeepsBits(d as int + temp1);
      SumOfBits(d, temp1);
      WrapKeepsBits(temp1 as int + temp2);
      SumOfBits(temp1, temp2);
      hh := g; g := f; f := e; e := Wrap(d as int + temp1);
      d := c; c := b; b := a; a := Wrap(temp1 as int + temp2);
      v' := Numbers(a, b, c, d, e, f, g, hh);
    }

    method Schedule(block: seq<byte>, offset: nat)
      requires offset + 64 <= |block| && w.Length == 64
      modifies w
      ensures forall t :: 0 <= t < 64 ==> w[t] == W(block[offset..offset + 64], t)
    {
      hide W, WordAt, SmallSigma0, SmallSigma1, Add;
      ghost var b := block[offset..offset + 64];
      for i := 0 to 16
        invariant forall t :: 0 <= t < i ==> w[t] == W(b, t)
      {
        w[i] := WordAt(block, offset + i * 4);
        FirstWords(block, offset, i);
      }
      for i := 16 to 64
        invariant forall t :: 0 <= t < i ==> w[t] == W(b, t)
      {
        LaterWords(b, i);
        var next := NextWord(w[i - 16], w[i - 15], w[i - 7], w[i - 2]);
        w[i] := Unsigned(next);
      }
    }

    method RunRounds(ghost block: seq<byte>, v0: Numbers) returns (v: Numbers)
      requires |block| == 64 && w.Length == 64
      requires forall t :: 0 <= t < 64 ==> w[t] == W(block, t)
      ensures Words(v) == Rounds(Words(v0), block, 64)
    {
      v := v0;
      for i := 0 to 64
        invariant Words(v) == Rounds(Words(v0), block, i)
      {
        hide Round, Words;
        v := OneRound(v, K[i], w[i]);
      }
    }

    /** this.h[i] = (this.h[i] + x) | 0 */
    static method Plus(hi: word, x: number) returns (r: word)
      ensures r == Add(hi, Unsigned(x))
    {
      WrapKeepsBits(hi + x);
      SumOfBits(hi, x);
      r := Unsigned(Wrap(hi + x));
    }

    method Accumulate(v: Numbers)
      requires h.Length == 8
      modifies h
      ensures h[..] == PlusVars(old(h[..]), Words(v))
    {
      hide Add, Unsigned;
      h[0] := Plus(h[0], v.a);
      h[1] := Plus(h[1], v.b);
      h[2] := Plus(h[2], v.c);
      h[3] := Plus(h[3], v.d);
      h[4] := Plus(h[4], v.e);
      h[5] := Plus(h[5], v.f);
      h[6] := Plus(h[6], v.g);
      h[7] := Plus(h[7], v.h);
    }

    /** processBlock: the schedule, the 64 rounds, and the addition into the hash value. */
    method ProcessBlock(block: seq<byte>, offset: nat)
      requires offset + 64 <= |block|
      requires h.Length == 8 && w.Length == 64 && h != w
      modifies h, w
      ensures h[..] == Compress(old(h[..]), block[offset..offset + 64])
    {
      Schedule(block, offset);
      var v0 := Numbers(h[0], h[1], h[2], h[3], h[4], h[5], h[6], h[7]);
      assert Words(v0) == Vars(h[0], h[1], h[2], h[3], h[4], h[5], h[6], h[7]);
      var v := RunRounds(block[offset..offset + 64], v0);
      assert h[..] == old(h[..]);
      Accumulate(v);
      PlusVarsIsCompress(old(h[..]), block[offset..offset + 64], Words(v));
    }

    /** The first branch of update: top up a partly filled block. */
    method FillPending(data: seq<byte>) returns (offset: nat)
      requires Absorbed()
      modifies h, w, pending, this`pendingLen, this`fed
      ensures Absorbed() && offset <= |data|
      ensures fed == old(fed) + data[..offset]
      ensures pendingLen == 0 || offset == |data|
    {
      hide Holding, Compress, Blocks;
      offset := 0;
      if pendingLen > 0 {
        var take := if 64 - pendingLen < |data| then 64 - pendingLen else |data|;
        TopUp(data[..take]);
        offset := offset + take;
        if pendingLen == 64 { Flush(); }
      } else {
        assert fed == fed + data[..0];
      }
    }

    method TopUp(bytes: seq<byte>)
      requires Absorbed() && pendingLen + |bytes| <= 64
      modifies pending, this`pendingLen, this`fed
      ensures Holding() && pendingLen == old(pendingLen) + |bytes|
      ensures fed == old(fed) + bytes
    {
      hide Compress, Blocks;
      ghost var head, done := pending[..pendingLen], Done();
      Copy(bytes, pendingLen);
      pendingLen := pendingLen + |bytes|;
      fed := fed + bytes;
      assert fed[|fed| - pendingLen..] == head + bytes;
      assert Done() == done;
    }

    /** A full buffer is one more block. */
    method Flush()
      requires Holding() && pendingLen == 64
      modifies h, w, this`pendingLen
      ensures Absorbed() && pendingLen == 0
    {
      hide Compress, Blocks;
      ghost var done := Done();
      ProcessBlock(pending[..], 0);
      BlocksAppend(H0, done, pending[..]);
      assert pending[..][0..64] == pending[..];
      assert done + pending[..] == fed;
      pendingLen := 0;
      assert Done() == fed;
    }

    /** pending.set(bytes, at) */
    method Copy(bytes: seq<byte>, at: nat)
      requires pending.Length == 64 && at + |bytes| <= 64
      modifies pending
      ensures pending[..at + |bytes|] == old(pending[..at]) + bytes
    {
      for i := 0 to |bytes|
        invariant pending[..at + i] == old(pending[..at]) + bytes[..i]
      {
        pending[at + i] := bytes[i];
        assert pending[..at + i + 1] == pending[..at + i] + [bytes[i]];
        assert bytes[..i + 1] == bytes[..i] + [bytes[i]];
      }
      assert bytes[..|bytes|] == bytes;
    }

    /** The loop of update over whole blocks. */
    method AbsorbBlocks(data: seq<byte>, start: nat) returns (offset: nat)
      requires Absorbed() && start <= |data| && pendingLen == 0
      modifies h, w, this`fed
      ensures Absorbed() && start <= offset <= |data| < offset + 64
      ensures fed == old(fed) + data[start..offset]
    {
      hide Compress, Blocks;
      offset := start;
      assert fed == fed + data[start..start];
      while offset + 64 <= |data|
        invariant Absorbed() && start <= offset <= |data|
        invariant fed == old(fed) + data[start..offset]
      {
        assert Done() == fed;
        BlocksAppend(H0, fed, data[offset..offset + 64]);
        ProcessBlock(data, offset);
        fed := fed + data[offset..offset + 64];
        assert data[start..offset] + data[offset..offset + 64] == data[start..offset + 64];
        offset := offset + 64;
        assert Done() == fed;
      }
    }

    /** The last branch of update: fewer than 64 bytes are kept for later. */
    method KeepRest(rest: seq<byte>)
      requires Absorbed() && pendingLen == 0 && 0 < |rest| < 64
      modifies pending, this`pendingLen, this`fed
      ensures Absorbed() && fed == old(fed) + rest
    {
      hide Compress, Blocks;
      assert Done() == fed;
      Copy(rest, 0);
      pendingLen := |rest|;
      fed := fed + rest;
      assert Done() == old(fed);
    }

    method Update(data: seq<byte>)
      requires Valid()
      modifies h, w, pending, this
      ensures Valid() && fed == old(fed) + data
    {
      hide Compress, Blocks, Holding;
      ghost var before := fed;
      totalBytes := totalBytes + |data|;
      var start := FillPending(data);
      var offset := start;
      if pendingLen == 0 {
        offset := AbsorbBlocks(data, start);
        assert data[..start] + data[start..offset] == data[..offset];
      }
      assert fed == before + data[..offset];
      if offset < |data| {
        KeepRest(data[offset..]);
      }
      assert data[..offset] + data[offset..] == data;
    }

    /** digestHex: the padding is one more update, then the eight words are printed. */
    method DigestHex() returns (hex: string)
      requires Valid()
      modifies h, w, pending, this
      ensures hex == HexDigest(old(fed))
      ensures Valid() && fed == Pad(old(fed))
    {
      hide Compress;
      ghost var message := fed;
      var hi := totalBytes / 0x2000_0000;
      var lo := (totalBytes % 0x2000_0000) * 8;
      var padLen := if pendingLen < 56 then 56 - pendingLen else 120 - pendingLen;
      PadLength(|message|, pendingLen);
      var pad := BuildPad(padLen, hi % M, lo % M);
      PadBytes(|message|, padLen, hi, lo);
      Update(pad);
      BlockAligned(|fed|, pendingLen);
      assert Done() == fed == Pad(message);
      hex := PrintHash();
    }

    /** The last loop of digestHex. */
    method PrintHash() returns (hex: string)
      requires h.Length == 8
      ensures hex == HexOfBytes(DigestBytes(h[..]))
    {
      hex := "";
      for i := 0 to 8
        invariant hex == HexOfBytes(DigestBytes(h[..i]))
      {
        WordHex(h[..i], h[i]);
        assert h[..i + 1] == h[..i] + [h[i]];
        hex := hex + PadStart(ToString16(h[i]), 8);
      }
      assert h[..8] == h[..];
    }
  }

  // ---------------------------------------------------------------- padding

  /** new Uint8Array(padLen + 8), its first byte 0x80, and two setUint32 calls. */
  method BuildPad(padLen: nat, hi: word, lo: word) returns (pad: seq<byte>)
    requires padLen > 0
    ensures pad == [0x80] + seq(padLen - 1, _ => 0) + BigEndian(hi, 4) + BigEndian(lo, 4)
  {
    hide BigEndian;
    var a := new byte[padLen + 8](_ => 0);
    a[0] := 0x80;
    SetUint32(a, padLen, hi);
    SetUint32(a, padLen + 4, lo);
    pad := a[..];
    assert pad[..padLen] == [0x80] + seq(padLen - 1, _ => 0);
    assert pad == pad[..padLen] + pad[padLen..padLen + 4] + pad[padLen + 4..padLen + 8];
  }

  method SetUint32(a: array<byte>, at: nat, n: word)
    requires at + 4 <= a.Length
    modifies a
    ensures a[at..at + 4] == BigEndian(n, 4)
    ensures forall i :: 0 <= i < a.Length && !(at <= i < at + 4) ==> a[i] == old(a[i])
  {
    a[at] := n / 0x100_0000 % 256;
    a[at + 1] := n / 0x1_0000 % 256;
    a[at + 2] := n / 0x100 % 256;
    a[at + 3] := n % 256;
    BigEndianFour(n);
  }

  lemma BigEndianFour(n: nat)
    ensures BigEndian(n, 4) == [n / 0x100_0000 % 256, n / 0x1_0000 % 256, n / 0x100 % 256, n % 256]
  {
    assert n / 256 / 256 == n / 0x1_0000;
    assert n / 0x1_0000 / 256 == n / 0x100_0000;
    assert BigEndian(n / 0x100_0000, 1) == [n / 0x100_0000 % 256];
    assert BigEndian(n / 0x1_0000, 2) == [n / 0x100_0000 % 256, n / 0x1_0000 % 256];
    assert BigEndian(n / 0x100, 3) == [n / 0x100_0000 % 256, n / 0x1_0000 % 256, n / 0x100 % 256];
  }

  lemma PadLength(length: nat, pendingLen: nat)
    requires pendingLen < 64 && pendingLen <= length && (length - pendingLen) % 64 == 0
    ensures 1 + ZeroCount(length) == if pendingLen < 56 then 56 - pendingLen else 120 - pendingLen
  {
    assert length % 64 == pendingLen;
  }

  lemma BlockAligned(length: nat, pendingLen: nat)
    requires length % 64 == 0 && pendingLen < 64 && pendingLen <= length && (length - pendingLen) % 64 == 0
    ensures pendingLen == 0
  {
  }

  /** The two 32-bit halves are the bit length: hi * 2^32 + lo == 8 * length. */
  lemma BitLength(length: nat)
    ensures (length / 0x2000_0000) * M + (length % 0x2000_0000) * 8 == 8 * length
    ensures (length % 0x2000_0000) * 8 < M
  {
  }

  lemma Pow2Plus4(k: nat)
    ensures Pow2(k + 4) == 16 * Pow2(k)
  {
    assert Pow2(k + 1) == 2 * Pow2(k) && Pow2(k + 2) == 2 * Pow2(k + 1) && Pow2(k + 3) == 2 * Pow2(k + 2);
  }

  lemma LastDigit(n: nat, q: nat, lo: nat)
    requires n == 256 * q + lo
    ensures n / 256 == q + lo / 256 && n % 256 == lo % 256
  {
  }

  lemma TimesShift(hi: nat, p: nat)
    ensures hi * (256 * p) == 256 * (hi * p)
  {
  }

  lemma AppendLast(n: nat, j: nat, k: nat, hi: nat, lo: nat)
    requires k > 0 && n % 256 == lo % 256
    requires BigEndian(n / 256, j + (k - 1)) == BigEndian(hi, j) + BigEndian(lo / 256, k - 1)
    ensures BigEndian(n, j + k) == BigEndian(hi, j) + BigEndian(lo, k)
  {
  }

  /** Above the low k digits, the high part goes on by itself. */
  lemma {:induction false} BigEndianSplit(n: nat, j: nat, k: nat, hi: nat, lo: nat)
    requires n == hi * Pow2(8 * k) + lo && lo < Pow2(8 * k)
    ensures BigEndian(n, j + k) == BigEndian(hi, j) + BigEndian(lo, k)
    decreases k
  {
    if k > 0 {
      var p := Pow2(8 * (k - 1));
      Pow2Plus4(8 * (k - 1));
      Pow2Plus4(8 * (k - 1) + 4);
      TimesShift(hi, p);
      LastDigit(n, hi * p, lo);
      assert lo / 256 < p;
      BigEndianSplit(n / 256, j, k - 1, hi, lo / 256);
      AppendLast(n, j, k, hi, lo);
    }
  }

  lemma BigEndianEight(n: nat, hi: nat, lo: nat)
    requires n == hi * M + lo && lo < M
    ensures BigEndian(n, 8) == BigEndian(hi % M, 4) + BigEndian(lo, 4)
  {
    Pow2Word();
    BigEndianSplit(n, 4, 4, hi, lo);
    assert hi == (hi / M) * M + hi % M;
    BigEndianSplit(hi, 0, 4, hi / M, hi % M);
  }

  lemma PadBytes(length: nat, padLen: nat, hi: nat, lo: nat)
    requires padLen == 1 + ZeroCount(length)
    requires hi == length / 0x2000_0000 && lo == (length % 0x2000_0000) * 8
    ensures [0x80] + seq(padLen - 1, _ => 0) + BigEndian(hi % M, 4) + BigEndian(lo % M, 4) == Padding(length)
  {
    LengthBytes(length, hi, lo);
    hide BigEndian, ZeroCount;
    var head := [0x80] + seq(padLen - 1, _ => 0);
    assert head + BigEndian(hi % M, 4) + BigEndian(lo % M, 4) == head + (BigEndian(hi % M, 4) + BigEndian(lo % M, 4));
  }

  lemma LengthBytes(length: nat, hi: nat, lo: nat)
    requires hi == length / 0x2000_0000 && lo == (length % 0x2000_0000) * 8
    ensures BigEndian(hi % M, 4) + BigEndian(lo % M, 4) == BigEndian(8 * length, 8)
  {
    hide BigEndian;
    BitLength(length);
    BigEndianEight(8 * length, hi, lo);
    assert lo % M == lo;
  }

  // ---------------------------------------------------------------- printing

  function ToString16(n: nat): string {
    if n < 16 then ["0123456789abcdef"[n]] else ToString16(n / 16) + ["0123456789abcdef"[n % 16]]
  }

  function PadStart(s: string, k: nat): string {
    if |s| >= k then s else seq(k - |s|, _ => '0') + s
  }

  lemma {:induction false} HexOfZero(k: nat)
    ensures Hex(0, k) == seq(k, _ => '0')
  {
    if k > 0 { HexOfZero(k - 1); }
  }

  lemma {:induction false} PadStartIsHex(n: nat, k: nat)
    requires 0 < k && n < Pow2(4 * k)
    ensures |ToString16(n)| <= k
    ensures PadStart(ToString16(n), k) == Hex(n, k)
  {
    Pow2Plus4(4 * (k - 1));
    if n < 16 {
      HexOfZero(k - 1);
    } else {
      PadStartIsHex(n / 16, k - 1);
    }
  }

  lemma {:induction false} HexOfBigEndian(n: nat, k: nat)
    ensures HexOfBytes(BigEndian(n, k)) == Hex(n, 2 * k)
  {
    if k > 0 {
      HexOfBigEndian(n / 256, k - 1);
      var bytes := BigEndian(n, k);
      assert bytes[..k - 1] == BigEndian(n / 256, k - 1) && bytes[k - 1] == n % 256;
      TwoDigits(n, k);
    }
  }

  lemma TwoDigits(n: nat, k: nat)
    requires k > 0
    ensures Hex(n, 2 * k) == Hex(n / 256, 2 * (k - 1)) + Hex(n % 256, 2)
  {
    assert n / 16 / 16 == n / 256;
    assert (n % 256) % 16 == n % 16 && (n % 256) / 16 == n / 16 % 16;
    assert Hex(n % 256 / 16, 1) == Hex(n % 256 / 16 / 16, 0) + ["0123456789abcdef"[n / 16 % 16]];
    assert Hex(n, 2 * k) == Hex(n / 16, 2 * k - 1) + ["0123456789abcdef"[n % 16]];
    assert Hex(n / 16, 2 * k - 1) == Hex(n / 256, 2 * k - 2) + ["0123456789abcdef"[n / 16 % 16]];
  }

  lemma {:induction false} HexOfConcat(a: seq<byte>, b: seq<byte>)
    ensures HexOfBytes(a + b) == HexOfBytes(a) + HexOfBytes(b)
  {
    if b == [] {
      assert a + b == a;
    } else {
      assert (a + b)[..|a + b| - 1] == a + b[..|b| - 1];
      HexOfConcat(a, b[..|b| - 1]);
    }
  }

  /** One word more: eight digits by toString(16) and padStart are the hex of its four bytes. */
  lemma {:induction false} WordHex(done: seq<word>, x: word)
    ensures HexOfBytes(DigestBytes(done + [x])) == HexOfBytes(DigestBytes(done)) + PadStart(ToString16(x), 8)
  {
    var all := done + [x];
    assert all[..|all| - 1] == done;
    HexOfConcat(DigestBytes(done), BigEndian(x, 4));
    HexOfBigEndian(x, 4);
    Pow2Word();
    PadStartIsHex(x, 8);
  }

  // ---------------------------------------------------------------- the claim

  function Concat(parts: seq<seq<byte>>): seq<byte> {
    if parts == [] then [] else Concat(parts[..|parts| - 1]) + parts[|parts| - 1]
  }

  /** For every message and every way of cutting it up, streaming gives the SHA-256 of the whole. */
  method HashParts(parts: seq<seq<byte>>) returns (hex: string)
    ensures hex == HexDigest(Concat(parts))
  {
    hide Compress, Blocks, Sha256Spec.Digest, HexDigest;
    var s := new Sha256Stream();
    for i := 0 to |parts|
      invariant s.Valid() && fresh(s) && fresh(s.h) && fresh(s.w) && fresh(s.pending)
      invariant s.fed == Concat(parts[..i])
    {
      s.Update(parts[i]);
      assert parts[..i + 1][..i] == parts[..i];
    }
    assert parts[..|parts|] == parts;
    hex := s.DigestHex();
  }
}
