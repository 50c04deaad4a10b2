/**
 What the word operations of SHA-256 compute, bit by bit and as numbers, apart from how they are written:
 the logical functions of section 4.1.2 of FIPS 180-4, addition modulo 2^32 (section 3.2), and the
 big-endian reading of bytes (section 3.1).
 */
module Sha256Words {
  import opened Bytes
  import opened Sha256Spec

  // ---- Bits ----

  /** A mask with a single one. */
  predicate OneBit(m: bv32) { m != 0 && m & (m - 1) == 0 }

  predicate Has(w: Word, m: bv32) { w.bits & m != 0 }

  /** Every bit of Ch is the bit of y where x has a one, and the bit of z where it has none. */
  lemma {:induction false} ChooseBit(x: Word, y: Word, z: Word, m: bv32)
    requires OneBit(m)
    ensures Has(Ch(x, y, z), m) <==> if Has(x, m) then Has(y, m) else Has(z, m)
  {
  }

  /** Every bit of Maj is the one that at least two operands have. */
  lemma {:induction false} MajorityBit(x: Word, y: Word, z: Word, m: bv32)
    requires OneBit(m)
    ensures Has(Maj(x, y, z), m) <==>
              (Has(x, m) && Has(y, m)) || (Has(x, m) && Has(z, m)) || (Has(y, m) && Has(z, m))
  {
  }

  // ---- Numbers ----

  lemma {:induction false} OnlyZero(x: bv32)
    requires Half(x) == 0 && !Odd(x)
    ensures x == 0
  {
  }

  lemma {:induction false} ZeroHalf()
    ensures Half(0) == 0 && !Odd(0)
  {
  }

  lemma {:induction false} ValueZero()
    ensures Value(0) == 0
  {
  }

  lemma {:induction false} ValueStep(x: bv32)
    ensures Value(x) == 2 * Value(Half(x)) + if Odd(x) then 1 else 0
  {
    ZeroHalf();
    hide Half, Odd;
  }

  lemma {:induction false} ValuePositive(x: bv32)
    requires x != 0
    ensures Value(x) > 0
    decreases x
  {
    HalfIsSmaller(x);
    hide Half, Odd;
    if Half(x) != 0 {
      ValuePositive(Half(x));
    } else if !Odd(x) {
      OnlyZero(x);
    }
  }

  lemma {:induction false} TwiceHalf(x: bv32)
    ensures Twice(Half(x), Odd(x)) == x
  {
  }

  lemma {:induction false} HalfTwice(x: bv32, odd: bool)
    requires Clear(x)
    ensures Half(Twice(x, odd)) == x && (Odd(Twice(x, odd)) <==> odd)
  {
  }

  /** The bits for the value of some bits are those bits again. */
  lemma {:induction false} BitsForValue(x: bv32)
    ensures BitsFor(Value(x)) == x
    decreases x
  {
    if x != 0 {
      HalfIsSmaller(x);
      ValuePositive(x);
      TwiceHalf(x);
      hide Half, Odd, Twice;
      BitsForValue(Half(x));
      ValueStep(x);
    } else {
      ValueZero();
    }
  }

  lemma {:induction false} OnesStep(x: bv32, o: bv32, odd: bool)
    requires x & !o == 0
    ensures Twice(x, odd) & !((o << 1) | 1) == 0
  {
  }

  lemma {:induction false} TwiceFits(x: bv32, odd: bool, k: nat)
    requires k > 0 && Fits(x, k - 1)
    ensures Fits(Twice(x, odd), k)
  {
    hide Twice;
    OnesStep(x, Ones(k - 1), odd);
  }

  lemma {:induction false} ZeroFits(k: nat)
    ensures Fits(0, k)
  {
    hide Ones;
  }

  lemma {:induction false} BitsForFits(v: nat, k: nat)
    requires v < Pow2(k)
    ensures Fits(BitsFor(v), k)
    decreases k
  {
    hide Twice, Fits, Ones;
    if v > 0 {
      BitsForFits(v / 2, k - 1);
      TwiceFits(BitsFor(v / 2), v % 2 == 1, k);
    } else {
      ZeroFits(k);
    }
  }

  lemma {:induction false} ManyOnes()
    ensures Ones(32) == 0xffff_ffff
  {
    EightOnes();
    assert Ones(12) == 0xfff;
    assert Ones(16) == 0xffff;
    assert Ones(20) == 0xf_ffff;
    assert Ones(24) == 0xff_ffff;
    assert Ones(28) == 0xfff_ffff;
  }

  lemma {:induction false} BigPowers()
    ensures Pow2(8) == 0x100 && Pow2(32) == TWO_32
  {
    assert Pow2(8) == 0x100;
    assert Pow2(12) == 0x1000;
    assert Pow2(16) == 0x1_0000;
    assert Pow2(20) == 0x10_0000;
    assert Pow2(24) == 0x100_0000;
    assert Pow2(28) == 0x1000_0000;
  }

  /** A word is less than 2^32. */
  lemma {:induction false} ValueRange(x: bv32)
    ensures Value(x) < TWO_32
  {
    ManyOnes();
    BigPowers();
    assert Fits(x, 32);
    hide Value, Fits;
    ValueBound(x, 32);
  }

  // ---- Disjoint words add up ----

  function Or(x: bv32, y: bv32): bv32 { x | y }

  predicate Apart(x: bv32, y: bv32) { x & y == 0 }

  lemma {:induction false} OrHalves(x: bv32, y: bv32)
    requires Apart(x, y)
    ensures Half(Or(x, y)) == Or(Half(x), Half(y)) && Apart(Half(x), Half(y))
    ensures (Odd(Or(x, y)) <==> Odd(x) || Odd(y)) && !(Odd(x) && Odd(y))
  {
  }

  lemma {:induction false} OrZero(x: bv32)
    ensures Or(x, 0) == x && Or(0, x) == x
  {
  }

  lemma {:induction false} ValueOr(x: bv32, y: bv32)
    requires Apart(x, y)
    ensures Value(Or(x, y)) == Value(x) + Value(y)
    decreases Value(x) + Value(y)
  {
    hide Half, Odd, Or, Apart, Value;
    ValueZero();
    if x == 0 {
      OrZero(y);
    } else if y == 0 {
      OrZero(x);
    } else {
      ValueStep(x);
      ValueStep(y);
      ValueStep(Or(x, y));
      OrHalves(x, y);
      ValuePositive(x);
      ValuePositive(y);
      ValueOr(Half(x), Half(y));
    }
  }

  // ---- Bytes in words ----

  predicate Clear(x: bv32) { x & 0x8000_0000 == 0 }

  function Double(x: bv32): bv32 { x << 1 }

  lemma {:induction false} DoubleHalf(x: bv32)
    requires Clear(x)
    ensures Half(Double(x)) == x && !Odd(Double(x))
  {
  }

  lemma {:induction false} ValueDouble(x: bv32)
    requires Clear(x)
    ensures Value(Double(x)) == 2 * Value(x)
  {
    hide Value;
    DoubleHalf(x);
    ValueStep(Double(x));
  }

  function Shift8(x: bv32): bv32 { x << 8 }

  lemma {:induction false} EightDoubles(x: bv32)
    requires x & 0xff00_0000 == 0
    ensures var d4 := Double(Double(Double(Double(x))));
            && Shift8(x) == Double(Double(Double(Double(d4))))
            && Clear(x) && Clear(Double(x)) && Clear(Double(Double(x))) && Clear(Double(Double(Double(x))))
            && Clear(d4) && Clear(Double(d4)) && Clear(Double(Double(d4))) && Clear(Double(Double(Double(d4))))
  {
  }

  /** One byte further left is 256 times as much. */
  lemma {:induction false} ValueShift8(x: bv32)
    requires x & 0xff00_0000 == 0
    ensures Value(Shift8(x)) == 256 * Value(x)
  {
    EightDoubles(x);
    hide Value, Double, Clear, Shift8;
    ValueDouble(x);
    ValueDouble(Double(x));
    ValueDouble(Double(Double(x)));
    ValueDouble(Double(Double(Double(x))));
    var d4 := Double(Double(Double(Double(x))));
    ValueDouble(d4);
    ValueDouble(Double(d4));
    ValueDouble(Double(Double(d4)));
    ValueDouble(Double(Double(Double(d4))));
  }

  predicate IsByte(x: bv32) { x & 0xffff_ff00 == 0 }

  lemma {:induction false} ByteFits(b: Byte)
    ensures IsByte(BitsFor(b))
  {
    BigPowers();
    EightOnes();
    hide BitsFor;
    BitsForFits(b, 8);
  }

  lemma {:induction false} ByteIsClear(x: bv32)
    requires IsByte(x)
    ensures Clear(x)
  {
  }

  lemma {:induction false} ValueOfByte(b: Byte)
    ensures Value(BitsFor(b)) == b
  {
    if b == 0 {
      ValueZero();
    } else {
      hide Half, Odd, Twice, Value, Clear, IsByte;
      ValueOfByte(b / 2);
      ByteFits(b / 2);
      ByteIsClear(BitsFor(b / 2));
      HalfTwice(BitsFor(b / 2), b % 2 == 1);
      ValueStep(BitsFor(b));
    }
  }

  lemma {:induction false} ChainOfBits(a: bv32, b: bv32, c: bv32, d: bv32)
    ensures (a << 24) | (b << 16) | (c << 8) | d == Or(Shift8(Or(Shift8(Or(Shift8(a), b)), c)), d)
  {
  }

  lemma {:induction false} ChainIsApart(a: bv32, b: bv32, c: bv32, d: bv32)
    requires IsByte(a) && IsByte(b) && IsByte(c) && IsByte(d)
    ensures var h := Or(Shift8(a), b);
            Apart(Shift8(a), b) && Apart(Shift8(h), c) && Apart(Shift8(Or(Shift8(h), c)), d)
  {
  }

  lemma {:induction false} ChainIsSmall(a: bv32, b: bv32, c: bv32)
    requires IsByte(a) && IsByte(b) && IsByte(c)
    ensures var h := Or(Shift8(a), b);
            a & 0xff00_0000 == 0 && h & 0xff00_0000 == 0 && Or(Shift8(h), c) & 0xff00_0000 == 0
  {
  }

  lemma {:induction false} ChainValue(a: bv32, b: bv32, c: bv32, d: bv32)
    requires IsByte(a) && IsByte(b) && IsByte(c) && IsByte(d)
    ensures Value(Or(Shift8(Or(Shift8(Or(Shift8(a), b)), c)), d)) ==
            ((Value(a) * 256 + Value(b)) * 256 + Value(c)) * 256 + Value(d)
  {
    hide Value, Or, Shift8, Apart, IsByte;
    var h1 := Or(Shift8(a), b);
    var h2 := Or(Shift8(h1), c);
    ChainIsApart(a, b, c, d);
    ChainIsSmall(a, b, c);
    ValueShift8(a);
    ValueOr(Shift8(a), b);
    ValueShift8(h1);
    ValueOr(Shift8(h1), c);
    ValueShift8(h2);
    ValueOr(Shift8(h2), d);
  }

  /** Four bytes make the word whose value they are in base 256, most significant first. */
  lemma {:induction false} WordOfValue(b0: Byte, b1: Byte, b2: Byte, b3: Byte)
    ensures Value(WordOf(b0, b1, b2, b3).bits) == ((b0 * 256 + b1) * 256 + b2) * 256 + b3
  {
    hide Value, BitsFor, Or, Shift8, IsByte;
    ByteFits(b0);
    ByteFits(b1);
    ByteFits(b2);
    ByteFits(b3);
    ValueOfByte(b0);
    ValueOfByte(b1);
    ValueOfByte(b2);
    ValueOfByte(b3);
    ChainOfBits(BitsFor(b0), BitsFor(b1), BitsFor(b2), BitsFor(b3));
    ChainValue(BitsFor(b0), BitsFor(b1), BitsFor(b2), BitsFor(b3));
  }

  lemma {:induction false} PartsOfWord(x: bv32)
    ensures x == (Part(x, 0) << 24) | (Part(x, 1) << 16) | (Part(x, 2) << 8) | Part(x, 3)
  {
  }

  /** Taking a word apart into bytes and putting them together again gives the word. */
  lemma {:induction false} WordOfBytes(w: Word)
    ensures WordOf(ByteOf(w, 0), ByteOf(w, 1), ByteOf(w, 2), ByteOf(w, 3)) == w
  {
    hide Part, Value, BitsFor;
    var x := w.bits;
    PartsOfWord(x);
    BitsForValue(Part(x, 0));
    BitsForValue(Part(x, 1));
    BitsForValue(Part(x, 2));
    BitsForValue(Part(x, 3));
  }

  // ---- Addition ----

  lemma {:induction false} SumShift(x: bv32, y: bv32)
    ensures Sum(x, y) == Sum(x + 1, y - 1)
  {
  }

  lemma {:induction false} SumZero(x: bv32)
    ensures Sum(x, 0) == x
  {
  }

  lemma {:induction false} NextOdd(x: bv32)
    requires Odd(x) && x != 0xffff_ffff
    ensures Half(x + 1) == Half(x) + 1 && !Odd(x + 1) && Half(x) != 0xffff_ffff
  {
  }

  lemma {:induction false} NextEven(x: bv32)
    requires !Odd(x)
    ensures Half(x + 1) == Half(x) && Odd(x + 1)
  {
  }

  lemma {:induction false} ValueNext(x: bv32)
    requires x != 0xffff_ffff
    ensures Value(x + 1) == Value(x) + 1
    decreases Value(x)
  {
    hide Half, Odd, Value;
    ValueStep(x);
    ValueStep(x + 1);
    if Odd(x) {
      NextOdd(x);
      ValueNext(Half(x));
    } else {
      NextEven(x);
    }
  }

  lemma {:induction false} ValueMax()
    ensures Value(0xffff_ffff) == 0xffff_ffff
  {
    assert BitsFor(0xf) == 0xf;
    assert BitsFor(0xff) == 0xff;
    WordOfValue(255, 255, 255, 255);
    hide Value, BitsFor;
  }

  // The neighbours of a word, one up and one down.

  function Next(x: bv32): bv32 { x + 1 }

  function Prev(y: bv32): bv32 { y - 1 }

  lemma {:induction false} SumOfNeighbours(x: bv32, y: bv32)
    ensures Sum(x, y) == Sum(Next(x), Prev(y))
  {
    SumShift(x, y);
    hide Sum;
  }

  lemma {:induction false} NextValue(x: bv32)
    ensures Value(Next(x)) == (Value(x) + 1) % TWO_32
  {
    hide Value;
    ValueRange(Next(x));
    if x == 0xffff_ffff {
      ValueMax();
      ValueZero();
    } else {
      ValueNext(x);
    }
  }

  lemma {:induction false} PrevValue(y: bv32)
    requires y != 0
    ensures Value(Prev(y)) == Value(y) - 1
  {
    hide Value;
    ValueNext(y - 1);
  }

  lemma {:induction false} OneOver(a: nat, b: nat)
    requires a < TWO_32 && b > 0
    ensures ((a + 1) % TWO_32 + (b - 1)) % TWO_32 == (a + b) % TWO_32
  {
    if a + 1 == TWO_32 {
      assert (a + b) % TWO_32 == (b - 1) % TWO_32;
    }
  }

  lemma {:induction false} SumIsModular(x: bv32, y: bv32)
    ensures Value(Sum(x, y)) == (Value(x) + Value(y)) % TWO_32
    decreases Value(y)
  {
    hide Value, Sum, Next, Prev;
    if y == 0 {
      ValueRange(x);
      ValueZero();
      SumZero(x);
    } else {
      SumOfNeighbours(x, y);
      ValueRange(x);
      NextValue(x);
      ValuePositive(y);
      OneOver(Value(x), Value(y));
      PrevValue(y);
      SumIsModular(Next(x), Prev(y));
    }
  }

  /** Addition of words is addition modulo 2^32. */
  lemma {:induction false} PlusIsModular(x: Word, y: Word)
    ensures Value(Plus(x, y).bits) == (Value(x.bits) + Value(y.bits)) % TWO_32
  {
    hide Value, Sum;
    SumIsModular(x.bits, y.bits);
  }

  /** The words of the state, in order. */
  function WordsOf(r: Regs): seq<Word> { [r.a, r.b, r.c, r.d, r.e, r.f, r.g, r.h] }

  /** The last step of a block adds each register to its word of the state, modulo 2^32. */
  lemma {:induction false} AddRegsIsModular(x: Regs, y: Regs, j: nat)
    requires j < 8
    ensures Value(WordsOf(AddRegs(x, y))[j].bits) == (Value(WordsOf(x)[j].bits) + Value(WordsOf(y)[j].bits)) % TWO_32
  {
    hide Value, Plus;
    PlusIsModular(WordsOf(x)[j], WordsOf(y)[j]);
  }

  // ---- The digest as text ----

  lemma {:induction false} SerializeAt(words: seq<Word>, j: nat, i: nat)
    requires j < |words| && i < 4
    ensures Serialize(words)[4 * j + i] == ByteOf(words[j], i)
    decreases |words|
  {
    hide ByteOf;
    if j < |words| - 1 {
      SerializeAt(words[..|words| - 1], j, i);
    }
  }

  /** The value of a lower-case hexadecimal digit; 16 for anything else. */
  function DigitValue(c: char): nat {
    if '0' <= c <= '9' then c as nat - '0' as nat
    else if 'a' <= c <= 'f' then c as nat - 'a' as nat + 10
    else 16
  }

  lemma {:induction false} HexDigitReadsBack(d: nat)
    requires d < 16
    ensures DigitValue(HexDigit(d)) == d
  {
  }

  /** The byte that digits 2i and 2i + 1 stand for, the high one first. */
  function ByteAt(t: string, i: nat): nat
    requires 2 * i + 1 < |t|
  {
    DigitValue(t[2 * i]) * 16 + DigitValue(t[2 * i + 1])
  }

  /** Byte i is printed as two lower-case digits that read back as it. */
  lemma {:induction false} HexAt(s: seq<Byte>, i: nat)
    requires i < |s|
    ensures ByteAt(Hex(s), i) == s[i]
    ensures DigitValue(Hex(s)[2 * i]) < 16 && DigitValue(Hex(s)[2 * i + 1]) < 16
  {
    hide HexDigit, DigitValue;
    HexDigitReadsBack(s[0] / 16);
    HexDigitReadsBack(s[0] % 16);
    if i > 0 {
      HexAt(s[1..], i - 1);
    }
  }

  /** The number that the four bytes from digit 8j on stand for. */
  function WordAt(t: string, j: nat): nat
    requires 8 * j + 7 < |t|
  {
    ((ByteAt(t, 4 * j) * 256 + ByteAt(t, 4 * j + 1)) * 256 + ByteAt(t, 4 * j + 2)) * 256 + ByteAt(t, 4 * j + 3)
  }

  /** Eight digits of a printed digest read back as one word of the final hash value. */
  lemma {:induction false} DigestReadsBack(m: seq<Byte>, j: nat)
    requires j < 8
    ensures WordAt(HexDigest(m), j) == Value(WordsOf(HashBlocks(INITIAL, Pad(m)))[j].bits)
  {
    hide ByteAt, HashBlocks, Pad, Value, ByteOf, WordOf, Serialize, Hex;
    var r := HashBlocks(INITIAL, Pad(m));
    var s, w := Serialize(WordsOf(r)), WordsOf(r)[j];
    HexAt(s, 4 * j);
    HexAt(s, 4 * j + 1);
    HexAt(s, 4 * j + 2);
    HexAt(s, 4 * j + 3);
    SerializeAt(WordsOf(r), j, 0);
    SerializeAt(WordsOf(r), j, 1);
    SerializeAt(WordsOf(r), j, 2);
    SerializeAt(WordsOf(r), j, 3);
    WordOfBytes(w);
    WordOfValue(ByteOf(w, 0), ByteOf(w, 1), ByteOf(w, 2), ByteOf(w, 3));
  }
}
