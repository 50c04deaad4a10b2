/**
 SHA-256 as FIPS 180-4 defines it: functions and constants (section 4), padding (5.1.1),
 parsing (5.2.1), initial value (5.3.3) and hash computation (6.2). Nothing here looks at
 how the program computes the digest.
 */
module Sha256Spec {
  import opened Bytes

  /** A 32-bit word. */
  datatype Word = Word(bits: bv32)

  const TWO_32: nat := 0x1_0000_0000

  // ---- Words and numbers ----

  function Half(x: bv32): bv32 { x >> 1 }

  predicate Odd(x: bv32) { x & 1 == 1 }

  function Twice(x: bv32, odd: bool): bv32 { (x << 1) | (if odd then 1 else 0) }

  lemma {:induction false} HalfIsSmaller(x: bv32)
    requires x != 0
    ensures Half(x) < x
  {
  }

  /** The number that bits stand for. */
  function Value(x: bv32): nat
    decreases x
  {
    if x == 0 then 0 else HalfIsSmaller(x); 2 * Value(Half(x)) + if Odd(x) then 1 else 0
  }

  /** The bits of a number, taken modulo 2^32. */
  function BitsFor(v: nat): bv32 { if v == 0 then 0 else Twice(BitsFor(v / 2), v % 2 == 1) }

  /** The k low-order bits. */
  function Ones(k: nat): bv32 { if k == 0 then 0 else (Ones(k - 1) << 1) | 1 }

  /** All ones of x are among its k low-order bits. */
  predicate Fits(x: bv32, k: nat) { x & !Ones(k) == 0 }

  lemma {:induction false} HalfFits(x: bv32, o: bv32)
    requires x & !((o << 1) | 1) == 0
    ensures Half(x) & !o == 0
  {
  }

  lemma {:induction false} ValueBound(x: bv32, k: nat)
    requires Fits(x, k)
    ensures Value(x) < Pow2(k)
    decreases k
  {
    hide Half, Odd;
    if k > 0 && x != 0 {
      HalfFits(x, Ones(k - 1));
      ValueBound(Half(x), k - 1);
    }
  }

  lemma {:induction false} EightOnes()
    ensures Ones(8) == 0xff
  {
    assert Ones(4) == 0xf;
  }

  /** Addition modulo 2^32 (section 3.2). */
  function Plus(x: Word, y: Word): Word { Word(Sum(x.bits, y.bits)) }

  function Sum(x: bv32, y: bv32): bv32 { x + y }

  // ---- Section 4.1.2: functions ----

  function Ch(x: Word, y: Word, z: Word): Word { Word((x.bits & y.bits) ^ (!x.bits & z.bits)) }

  function Maj(x: Word, y: Word, z: Word): Word {
    Word((x.bits & y.bits) ^ (x.bits & z.bits) ^ (y.bits & z.bits))
  }

  function BigSigma0(x: bv32): bv32 { x.RotateRight(2) ^ x.RotateRight(13) ^ x.RotateRight(22) }

  function BigSigma1(x: bv32): bv32 { x.RotateRight(6) ^ x.RotateRight(11) ^ x.RotateRight(25) }

  function SmallSigma0(x: bv32): bv32 { x.RotateRight(7) ^ x.RotateRight(18) ^ (x >> 3) }

  function SmallSigma1(x: bv32): bv32 { x.RotateRight(17) ^ x.RotateRight(19) ^ (x >> 10) }

  // ---- Section 4.2.2: constants, tied to the cube roots of the primes in Sha256Constants ----

  // Eight columns, as the source prints them.
  const ROUND_CONSTANTS: seq<seq<bv32>> := [
    [0x428a2f98, 0x71374491, 0xb5c0fbcf, 0xe9b5dba5, 0x3956c25b, 0x59f111f1, 0x923f82a4, 0xab1c5ed5],
    [0xd807aa98, 0x12835b01, 0x243185be, 0x550c7dc3, 0x72be5d74, 0x80deb1fe, 0x9bdc06a7, 0xc19bf174],
    [0xe49b69c1, 0xefbe4786, 0x0fc19dc6, 0x240ca1cc, 0x2de92c6f, 0x4a7484aa, 0x5cb0a9dc, 0x76f988da],
    [0x983e5152, 0xa831c66d, 0xb00327c8, 0xbf597fc7, 0xc6e00bf3, 0xd5a79147, 0x06ca6351, 0x14292967],
    [0x27b70a85, 0x2e1b2138, 0x4d2c6dfc, 0x53380d13, 0x650a7354, 0x766a0abb, 0x81c2c92e, 0x92722c85],
    [0xa2bfe8a1, 0xa81a664b, 0xc24b8b70, 0xc76c51a3, 0xd192e819, 0xd6990624, 0xf40e3585, 0x106aa070],
    [0x19a4c116, 0x1e376c08, 0x2748774c, 0x34b0bcb5, 0x391c0cb3, 0x4ed8aa4a, 0x5b9cca4f, 0x682e6ff3],
    [0x748f82ee, 0x78a5636f, 0x84c87814, 0x8cc70208, 0x90befffa, 0xa4506ceb, 0xbef9a3f7, 0xc67178f2]
  ]

  function K(t: nat): Word
    requires t < 64
  {
    Word(ROUND_CONSTANTS[t / 8][t % 8])
  }

  // ---- Section 5.1.1: padding, on whole bytes ----

  /** After the marker byte and z zero bytes, exactly the 8-byte length field completes a block. */
  predicate LeavesLengthField(len: nat, z: nat) { (len + 1 + z) % 64 == 56 }

  /** The smallest number of zero bytes that leaves room for exactly the length field. */
  function ZeroBytes(len: nat): (z: nat)
    ensures LeavesLengthField(len, z)
    ensures forall k: nat :: k < z ==> !LeavesLengthField(len, k)
  {
    (55 - len) % 64
  }

  lemma {:induction false} BlockBoundary(len: nat, z: nat)
    requires LeavesLengthField(len, z)
    ensures (len + (9 + z)) % 64 == 0
  {
  }

  /** The n low-order bytes of v, most significant first. */
  function BigEndian(v: nat, n: nat): (s: seq<Byte>)
    ensures |s| == n
  {
    if n == 0 then [] else BigEndian(v / 256, n - 1) + [v % 256]
  }

  function Zeros(n: nat): (s: seq<Byte>)
    ensures |s| == n
  {
    seq(n, _ => 0)
  }

  /** The marker bit, the zero bits and a 64-bit field holding `bits`. */
  function PaddingWith(len: nat, bits: nat): (p: seq<Byte>)
    ensures |p| == 9 + ZeroBytes(len)
    ensures (len + |p|) % 64 == 0
  {
    BlockBoundary(len, ZeroBytes(len));
    [0x80] + Zeros(ZeroBytes(len)) + BigEndian(bits, 8)
  }

  function Pad(m: seq<Byte>): (p: seq<Byte>)
    ensures |p| % 64 == 0
    ensures m < p
  {
    m + PaddingWith(|m|, 8 * |m|)
  }

  // ---- Section 6.2: hash computation ----

  datatype Regs = Regs(a: Word, b: Word, c: Word, d: Word, e: Word, f: Word, g: Word, h: Word)

  type Block = s: seq<Byte> | |s| == 64 witness seq(64, _ => 0)

  // Section 5.3.3, tied to the square roots of the primes in Sha256Constants.
  const INITIAL := Regs(Word(0x6a09e667), Word(0xbb67ae85), Word(0x3c6ef372), Word(0xa54ff53a),
                        Word(0x510e527f), Word(0x9b05688c), Word(0x1f83d9ab), Word(0x5be0cd19))

  function WordOf(b0: Byte, b1: Byte, b2: Byte, b3: Byte): Word {
    Word((BitsFor(b0) << 24) | (BitsFor(b1) << 16) | (BitsFor(b2) << 8) | BitsFor(b3))
  }

  function MessageWord(m: Block, t: nat): Word
    requires t < 16
  {
    WordOf(m[4 * t], m[4 * t + 1], m[4 * t + 2], m[4 * t + 3])
  }

  /** The message schedule, step 1 of section 6.2.2. */
  function W(m: Block, t: nat): Word
    requires t < 64
  {
    if t < 16 then MessageWord(m, t)
    else
      Plus(Plus(Plus(Word(SmallSigma1(W(m, t - 2).bits)), W(m, t - 7)),
                Word(SmallSigma0(W(m, t - 15).bits))),
           W(m, t - 16))
  }

  /** One iteration of step 3 of section 6.2.2. */
  function Round(r: Regs, k: Word, w: Word): Regs {
    var t1 := Plus(Plus(Plus(Plus(r.h, Word(BigSigma1(r.e.bits))), Ch(r.e, r.f, r.g)), k), w);
    var t2 := Plus(Word(BigSigma0(r.a.bits)), Maj(r.a, r.b, r.c));
    Regs(Plus(t1, t2), r.a, r.b, r.c, Plus(r.d, t1), r.e, r.f, r.g)
  }

  function Rounds(r: Regs, m: Block, t: nat): Regs
    requires t <= 64
  {
    if t == 0 then r else Round(Rounds(r, m, t - 1), K(t - 1), W(m, t - 1))
  }

  /** Step 4 of section 6.2.2. */
  function AddRegs(x: Regs, y: Regs): Regs {
    Regs(Plus(x.a, y.a), Plus(x.b, y.b), Plus(x.c, y.c), Plus(x.d, y.d),
         Plus(x.e, y.e), Plus(x.f, y.f), Plus(x.g, y.g), Plus(x.h, y.h))
  }

  function Compress(h: Regs, m: Block): Regs { AddRegs(h, Rounds(h, m, 64)) }

  /** The hash value after all blocks of `data`. */
  function HashBlocks(h: Regs, data: seq<Byte>): Regs
    requires |data| % 64 == 0
  {
    if data == [] then h
    else Compress(HashBlocks(h, data[..|data| - 64]), data[|data| - 64..])
  }

  function Part(x: bv32, i: nat): bv32
    requires i < 4
  {
    if i == 0 then (x >> 24) & 0xff
    else if i == 1 then (x >> 16) & 0xff
    else if i == 2 then (x >> 8) & 0xff
    else x & 0xff
  }

  lemma {:induction false} PartFits(x: bv32, i: nat)
    requires i < 4
    ensures Part(x, i) & !0xff == 0
  {
  }

  lemma {:induction false} PartIsByte(x: bv32, i: nat)
    requires i < 4
    ensures Value(Part(x, i)) < 256
  {
    hide Value, Part;
    EightOnes();
    PartFits(x, i);
    ValueBound(Part(x, i), 8);
    assert Pow2(8) == 256;
  }

  /** Byte i of a word, most significant first. */
  function ByteOf(w: Word, i: nat): Byte
    requires i < 4
  {
    PartIsByte(w.bits, i);
    Value(Part(w.bits, i))
  }

  function Serialize(words: seq<Word>): (s: seq<Byte>)
    ensures |s| == 4 * |words|
  {
    if words == [] then []
    else
      var w := words[|words| - 1];
      Serialize(words[..|words| - 1]) + [ByteOf(w, 0), ByteOf(w, 1), ByteOf(w, 2), ByteOf(w, 3)]
  }

  function DigestBytes(r: Regs): (s: seq<Byte>)
    ensures |s| == 32
  {
    Serialize([r.a, r.b, r.c, r.d, r.e, r.f, r.g, r.h])
  }

  function Digest(m: seq<Byte>): seq<Byte> { DigestBytes(HashBlocks(INITIAL, Pad(m))) }

  // ---- Lower-case hexadecimal ----

  function HexDigit(d: nat): char
    requires d < 16
  {
    "0123456789abcdef"[d]
  }

  function Hex(s: seq<Byte>): (t: string)
    ensures |t| == 2 * |s|
  {
    if s == [] then "" else [HexDigit(s[0] / 16), HexDigit(s[0] % 16)] + Hex(s[1..])
  }

  function HexDigest(m: seq<Byte>): (t: string)
    ensures |t| == 64
  {
    Hex(Digest(m))
  }
}
