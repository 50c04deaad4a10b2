/** What the padding of section 5.1.1 of FIPS 180-4 guarantees, on bits and on bytes. */
module Sha256Padding {
  import opened Bytes
  import opened Sha256Spec

  // ---- The byte padding is the standard's bit padding ----

  /** The n low-order binary digits of v, most significant first. */
  function Binary(v: nat, n: nat): (s: seq<bool>)
    ensures |s| == n
  {
    if n == 0 then [] else Binary(v / 2, n - 1) + [v % 2 == 1]
  }

  function Bits(s: seq<Byte>): (t: seq<bool>)
    ensures |t| == 8 * |s|
  {
    if s == [] then [] else Bits(s[..|s| - 1]) + Binary(s[|s| - 1], 8)
  }

  predicate Congruent(l: nat, k: nat) { (l + 1 + k) % 512 == 448 }

  /** "k is the smallest, non-negative solution to the equation l + 1 + k = 448 mod 512". */
  predicate IsZeroCount(l: nat, k: nat) {
    Congruent(l, k) && forall j: nat | j < k :: !Congruent(l, j)
  }

  function Falses(k: nat): (s: seq<bool>)
    ensures |s| == k
  {
    seq(k, _ => false)
  }

  /** The message, a one bit, k zero bits and the message length in bits. */
  function BitPad(m: seq<bool>, k: nat): seq<bool> { m + [true] + Falses(k) + Binary(|m|, 64) }

  /** Splitting eight digits off a binary numeral splits one byte off the number. */
  lemma {:induction false} BinaryByte(v: nat, n: nat)
    ensures Binary(v, n + 8) == Binary(v / 256, n) + Binary(v % 256, 8)
  {
    var q, r := v / 256, v % 256;
    BinaryAppend(q, r, n, 8);
    assert q * Pow2(8) == q * 256;
  }

  lemma {:induction false} BinaryAppend(q: nat, r: nat, n: nat, k: nat)
    requires r < Pow2(k)
    ensures Binary(q * Pow2(k) + r, n + k) == Binary(q, n) + Binary(r, k)
  {
    if k > 0 {
      var half := q * Pow2(k - 1);
      assert q * Pow2(k) == 2 * half;
      assert (q * Pow2(k) + r) / 2 == half + r / 2;
      BinaryAppend(q, r / 2, n, k - 1);
    }
  }

  lemma {:induction false} BitsOfBigEndian(v: nat, n: nat)
    ensures Bits(BigEndian(v, n)) == Binary(v, 8 * n)
  {
    if n > 0 {
      BitsOfBigEndian(v / 256, n - 1);
      BinaryByte(v, 8 * (n - 1));
    }
  }

  lemma {:induction false} BitsAppend(s: seq<Byte>, t: seq<Byte>)
    ensures Bits(s + t) == Bits(s) + Bits(t)
  {
    if t == [] {
      assert s + t == s;
    } else {
      BitsAppend(s, t[..|t| - 1]);
      assert (s + t)[..|s + t| - 1] == s + t[..|t| - 1];
    }
  }

  lemma {:induction false} BitsOfZeros(n: nat)
    ensures Bits(Zeros(n)) == Falses(8 * n)
  {
    if n > 0 {
      BitsOfZeros(n - 1);
      assert Zeros(n)[..n - 1] == Zeros(n - 1);
      ZeroByte();
    }
  }

  lemma {:induction false} ZeroByte()
    ensures Binary(0, 8) == Falses(8)
  {
  }

  lemma {:induction false} MarkerByte()
    ensures Bits([0x80]) == [true] + Falses(7)
  {
    assert Binary(0x80, 8) == Binary(1, 1) + Binary(0, 7) by {
      BinaryAppend(1, 0, 1, 7);
    }
  }

  /** The bytes the program appends spell exactly the bits the standard prescribes. */
  lemma {:induction false} PaddingIsBitPadding(m: seq<Byte>)
    ensures IsZeroCount(8 * |m|, 7 + 8 * ZeroBytes(|m|))
    ensures Bits(Pad(m)) == BitPad(Bits(m), 7 + 8 * ZeroBytes(|m|))
  {
    ZeroBitCount(|m|);
    PaddedBits(m, ZeroBytes(|m|), BigEndian(8 * |m|, 8));
  }

  lemma {:induction false} PaddedBits(m: seq<Byte>, z: nat, len: seq<Byte>)
    requires len == BigEndian(8 * |m|, 8)
    ensures Bits(m + ([0x80] + Zeros(z) + len)) == BitPad(Bits(m), 7 + 8 * z)
  {
    hide Bits, Binary, BigEndian, Zeros, Falses;
    var head := [0x80] + Zeros(z);
    BitsAppend(m, head + len);
    BitsAppend(head, len);
    HeadBits(z);
    BitsOfBigEndian(8 * |m|, 8);
    assert Bits(m) + ([true] + Falses(7 + 8 * z) + Bits(len)) == BitPad(Bits(m), 7 + 8 * z);
  }

  lemma {:induction false} HeadBits(z: nat)
    ensures Bits([0x80] + Zeros(z)) == [true] + Falses(7 + 8 * z)
  {
    BitsAppend([0x80], Zeros(z));
    MarkerByte();
    BitsOfZeros(z);
    assert Falses(7) + Falses(8 * z) == Falses(7 + 8 * z);
  }

  lemma {:induction false} ZeroBitCount(n: nat)
    ensures IsZeroCount(8 * n, 7 + 8 * ZeroBytes(n))
  {
    var k := 7 + 8 * ZeroBytes(n);
    var q := (n + 1 + ZeroBytes(n)) / 64;
    assert 8 * n + 1 + k == 512 * q + 448;
    forall j: nat | j < k
      ensures !Congruent(8 * n, j)
    {
      assert k < 7 + 8 * 64;
      NotCongruent(512 * q + 448, k - j);
    }
  }

  lemma {:induction false} NotCongruent(total: nat, d: nat)
    requires total % 512 == 448 && 0 < d < 512 && d <= total
    ensures (total - d) % 512 != 448
  {
    assert (total - d) / 512 == total / 512 || (total - d) / 512 == total / 512 - 1;
  }

  // ---- The padding is minimal and can be undone ----

  /** No shorter run of zeros ends on a block boundary; all that do differ by whole blocks. */
  lemma {:induction false} PaddingIsMinimal(len: nat, z: nat)
    requires (len + (1 + z + 8)) % 64 == 0
    ensures |PaddingWith(len, 8 * len)| <= 1 + z + 8
    ensures (1 + z + 8 - |PaddingWith(len, 8 * len)|) % 64 == 0
    ensures 9 <= |PaddingWith(len, 8 * len)| <= 72
  {
    hide PaddingWith;
    assert LeavesLengthField(len, z);
    SameRemainder(len + 1, z, ZeroBytes(len));
  }

  lemma {:induction false} SameRemainder(a: nat, x: nat, y: nat)
    requires (a + x) % 64 == (a + y) % 64
    ensures (x - y) % 64 == 0
  {
  }

  function FromBigEndian(s: seq<Byte>): nat {
    if s == [] then 0 else FromBigEndian(s[..|s| - 1]) * 256 + s[|s| - 1]
  }

  function Pow256(n: nat): nat { if n == 0 then 1 else 256 * Pow256(n - 1) }

  lemma {:induction false} BigEndianRoundTrip(v: nat, n: nat)
    requires v < Pow256(n)
    ensures FromBigEndian(BigEndian(v, n)) == v
  {
    if n > 0 {
      BigEndianRoundTrip(v / 256, n - 1);
    }
  }

  /** Messages with the same padded form are the same. */
  lemma {:induction false} PaddingIsInjective(m: seq<Byte>, m': seq<Byte>)
    requires |m| < 0x2000_0000_0000_0000 && |m'| < 0x2000_0000_0000_0000
    requires Pad(m) == Pad(m')
    ensures m == m'
  {
    var p, n := Pad(m), |Pad(m)|;
    assert p[n - 8..] == BigEndian(8 * |m|, 8) == BigEndian(8 * |m'|, 8);
    BigEndianRoundTrip(8 * |m|, 8);
    BigEndianRoundTrip(8 * |m'|, 8);
    assert p[..|m|] == m && p[..|m|] == m';
  }
}
