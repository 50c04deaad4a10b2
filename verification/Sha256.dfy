/**
 The incremental SHA-256 of src/storage/storage_local.c: a byte-at-a-time update over a 64-byte
 buffer, an in-place message schedule, eight rotating registers and a padding loop.
 */
module Sha256 {
  import opened Bytes
  import opened Sha256Spec

  const TWO_64: nat := 0x1_0000_0000_0000_0000

  // ---- The source's macros, which build rotations from two shifts ----

  function MacroS0(x: bv32): (r: bv32)
    ensures r == BigSigma0(x)
  {
    ((x >> 2) | (x << 30)) ^ ((x >> 13) | (x << 19)) ^ ((x >> 22) | (x << 10))
  }

  function MacroS1(x: bv32): (r: bv32)
    ensures r == BigSigma1(x)
  {
    ((x >> 6) | (x << 26)) ^ ((x >> 11) | (x << 21)) ^ ((x >> 25) | (x << 7))
  }

  function MacroLowerS0(x: bv32): (r: bv32)
    ensures r == SmallSigma0(x)
  {
    ((x >> 7) | (x << 25)) ^ ((x >> 18) | (x << 14)) ^ (x >> 3)
  }

  function MacroLowerS1(x: bv32): (r: bv32)
    ensures r == SmallSigma1(x)
  {
    ((x >> 17) | (x << 15)) ^ ((x >> 19) | (x << 13)) ^ (x >> 10)
  }

  // ---- The context as a value ----

  /** What `SHA256_CTX` holds at one moment; `buf` includes the stale bytes of earlier blocks. */
  datatype Context = Context(state: Regs, count: nat, buf: Block)

  /** One turn of the loop of `sha256_update`. */
  function Feed(c: Context, b: Byte): Context {
    var buf := c.buf[c.count % 64 := b];
    var count := (c.count + 1) % TWO_64;
    Context(if count % 64 == 0 then Compress(c.state, buf) else c.state, count, buf)
  }

  /** All turns of the loop of `sha256_update`, the last byte last. */
  function Absorb(c: Context, data: seq<Byte>): Context {
    if data == [] then c else Feed(Absorb(c, data[..|data| - 1]), data[|data| - 1])
  }

  /** The recurrence of the message schedule, unrolled once. */
  lemma {:induction false} ScheduleStep(m: Block, t: nat)
    requires t < 64
    ensures t < 16 ==> W(m, t) == WordOf(m[4 * t], m[4 * t + 1], m[4 * t + 2], m[4 * t + 3])
    ensures t >= 16 ==>
              W(m, t) ==
              Plus(Plus(Plus(Word(SmallSigma1(W(m, t - 2).bits)), W(m, t - 7)),
                        Word(SmallSigma0(W(m, t - 15).bits))),
                   W(m, t - 16))
  {
  }

  class Sha256Ctx {
    const state: array<Word>
    var count: nat
    const buf: array<Byte>

    ghost predicate Valid()
      reads this, state, buf
    {
      state.Length == 8 && buf.Length == 64 && count < TWO_64
    }

    function StateRegs(): Regs
      reads this, state, buf
      requires Valid()
    {
      Regs(state[0], state[1], state[2], state[3], state[4], state[5], state[6], state[7])
    }

    ghost function View(): Context
      reads this, state, buf
      requires Valid()
    {
      Context(StateRegs(), count, buf[..])
    }

    constructor Init()
      ensures Valid() && fresh(state) && fresh(buf)
      ensures View().state == INITIAL && View().count == 0
    {
      count := 0;
      buf := new Byte[64];
      state := new Word[8](_ => Word(0));
      new;
      state[0] := Word(0x6a09e667);
      state[1] := Word(0xbb67ae85);
      state[2] := Word(0x3c6ef372);
      state[3] := Word(0xa54ff53a);
      state[4] := Word(0x510e527f);
      state[5] := Word(0x9b05688c);
      state[6] := Word(0x1f83d9ab);
      state[7] := Word(0x5be0cd19);
    }

    method Schedule() returns (m: array<Word>)
      requires Valid()
      ensures fresh(m) && m.Length == 64
      ensures forall t | 0 <= t < 64 :: m[t] == W(buf[..], t)
    {
      hide W, Plus, WordOf, MacroLowerS0, MacroLowerS1, SmallSigma0, SmallSigma1;
      ghost var block: Block := buf[..];
      m := new Word[64](_ => Word(0));
      for i := 0 to 16
        invariant forall t | 0 <= t < i :: m[t] == W(block, t)
      {
        var base := i * 4;
        var w := WordOf(buf[base], buf[base + 1], buf[base + 2], buf[base + 3]);
        ScheduleStep(block, i);
        assert w == W(block, i);
        m[i] := w;
      }
      for i := 16 to 64
        invariant forall t | 0 <= t < i :: m[t] == W(block, t)
      {
        var s1, s0 := Word(MacroLowerS1(m[i - 2].bits)), Word(MacroLowerS0(m[i - 15].bits));
        var w := Plus(Plus(Plus(s1, m[i - 7]), s0), m[i - 16]);
        ScheduleStep(block, i);
        assert w == W(block, i);
        m[i] := w;
      }
    }

    method Transform()
      requires Valid()
      modifies state
      ensures Valid()
      ensures View() == Context(Compress(old(View()).state, buf[..]), count, buf[..])
    {
      hide Plus, Rounds;
      ghost var before := StateRegs();
      var m := Schedule();
      var r := Mix(m, buf[..]);
      var sum := AddRegs(StateRegs(), r);
      assert sum == Compress(before, buf[..]);
      state[0], state[1], state[2], state[3] := sum.a, sum.b, sum.c, sum.d;
      state[4], state[5], state[6], state[7] := sum.e, sum.f, sum.g, sum.h;
    }

    /** The loop of `sha256_transform` over the eight working variables. */
    method Mix(m: array<Word>, ghost block: Block) returns (r: Regs)
      requires Valid() && m.Length == 64
      requires forall t | 0 <= t < 64 :: m[t] == W(block, t)
      ensures r == Rounds(StateRegs(), block, 64)
    {
      var a, b, c, d, e, f, g, h := state[0], state[1], state[2], state[3], state[4], state[5], state[6], state[7];
      for i := 0 to 64
        invariant Regs(a, b, c, d, e, f, g, h) == Rounds(StateRegs(), block, i)
      {
        var t1 := Plus(Plus(Plus(Plus(h, Word(MacroS1(e.bits))), Ch(e, f, g)), K(i)), m[i]);
        var t2 := Plus(Word(MacroS0(a.bits)), Maj(a, b, c));
        h := g;
        g := f;
        f := e;
        e := Plus(d, t1);
        d := c;
        c := b;
        b := a;
        a := Plus(t1, t2);
      }
      r := Regs(a, b, c, d, e, f, g, h);
    }

    method Update(data: seq<Byte>)
      requires Valid()
      modifies this, state, buf
      ensures Valid()
      ensures View() == Absorb(old(View()), data)
    {
      assert data[..|data|] == data;
      for i := 0 to |data|
        invariant Valid()
        invariant View() == Absorb(old(View()), data[..i])
      {
        assert data[..i + 1][..i] == data[..i];
        Append(data[i]);
      }
    }

    /** The body of the loop of `sha256_update`. */
    method Append(b: Byte)
      requires Valid()
      modifies this, state, buf
      ensures Valid()
      ensures View() == Feed(old(View()), b)
    {
      hide Compress;
      buf[count % 64] := b;
      count := (count + 1) % TWO_64;
      if count % 64 == 0 {
        Transform();
      }
    }

    method Final() returns (digest: array<Byte>)
      requires Valid()
      modifies this, state, buf
      ensures Valid() && fresh(digest)
      ensures View() == Finish(old(View()))
      ensures digest[..] == DigestBytes(View().state)
    {
      ghost var start := View();
      var bitCount := count * 8 % TWO_64;
      FinalMarker();
      var bc := LengthField(bitCount);
      Update(bc[..]);
      AbsorbSplit(start, [0x80] + Zeros(ZeroBytes(start.count)), bc[..]);
      digest := Output();
    }

    /** The marker byte and the padding loop of `sha256_final`. */
    method FinalMarker()
      requires Valid()
      modifies this, state, buf
      ensures Valid()
      ensures View() == Absorb(old(View()), [0x80] + Zeros(ZeroBytes(old(count))))
    {
      hide Absorb;
      ghost var start := View();
      ghost var z := 0;
      Update([0x80]);
      assert [0x80] + Zeros(0) == [0x80];
      AbsorbCount(start, [0x80] + Zeros(z));
      PaddingPosition(start.count, z);
      while count % 64 != 56
        invariant Valid() && z <= ZeroBytes(start.count)
        invariant View() == Absorb(start, [0x80] + Zeros(z))
        invariant count % 64 == 56 <==> LeavesLengthField(start.count, z)
        decreases ZeroBytes(start.count) - z
      {
        Update([0]);
        AbsorbSplit(start, [0x80] + Zeros(z), [0]);
        assert [0x80] + Zeros(z) + [0] == [0x80] + Zeros(z + 1);
        z := z + 1;
        AbsorbCount(start, [0x80] + Zeros(z));
        PaddingPosition(start.count, z);
      }
    }

    /** The two nested loops that write the digest. */
    method Output() returns (digest: array<Byte>)
      requires Valid()
      ensures fresh(digest) && digest[..] == DigestBytes(View().state)
    {
      hide ByteOf;
      digest := new Byte[32];
      for j := 0 to 8
        invariant digest[..4 * j] == Serialize(state[..j])
      {
        WriteWord(digest, j);
        assert state[..j + 1][..j] == state[..j];
      }
      ghost var r := View().state;
      assert state[..8] == [r.a, r.b, r.c, r.d, r.e, r.f, r.g, r.h];
    }

    method WriteWord(digest: array<Byte>, j: nat)
      requires Valid() && j < 8 && digest.Length == 32 && digest != buf
      modifies digest
      ensures digest[..4 * j] == old(digest[..4 * j])
      ensures digest[4 * j..4 * j + 4] ==
              [ByteOf(state[j], 0), ByteOf(state[j], 1), ByteOf(state[j], 2), ByteOf(state[j], 3)]
    {
      hide ByteOf;
      for i := 0 to 4
        invariant digest[..4 * j] == old(digest[..4 * j])
        invariant forall k | 0 <= k < i :: digest[4 * j + k] == ByteOf(state[j], k)
      {
        digest[j * 4 + i] := ByteOf(state[j], i);
      }
    }

    /** The loop that lays the bit count out most significant byte first. */
    static method LengthField(bits: nat) returns (bc: array<Byte>)
      ensures fresh(bc) && bc[..] == BigEndian(bits, 8)
    {
      bc := new Byte[8];
      var rest := bits;
      for i := 8 downto 0
        invariant BigEndian(bits, 8) == BigEndian(rest, i) + bc[i..]
      {
        bc[i] := rest % 256;
        rest := rest / 256;
        assert bc[i..] == [bc[i]] + bc[i + 1..];
      }
    }
  }

  /** The context `sha256_final` leaves behind: marker, zeros and bit count have been fed. */
  function Finish(c: Context): Context { Absorb(c, PaddingWith(c.count, c.count * 8 % TWO_64)) }

  lemma {:induction false} AbsorbCount(c: Context, data: seq<Byte>)
    requires c.count < TWO_64
    ensures Absorb(c, data).count == (c.count + |data|) % TWO_64
  {
    hide Compress;
    if data != [] {
      AbsorbCount(c, data[..|data| - 1]);
      WrappedSuccessor(c.count + |data| - 1);
    }
  }

  lemma {:induction false} WrappedSuccessor(n: nat)
    ensures (n % TWO_64 + 1) % TWO_64 == (n + 1) % TWO_64
  {
  }

  lemma {:induction false} PaddingPosition(len: nat, z: nat)
    ensures (len + (1 + z)) % TWO_64 % 64 == 56 <==> LeavesLengthField(len, z)
  {
    WrappedPosition(len + 1 + z);
  }

  /** Wrapping the count at 2^64 does not disturb the position in the block. */
  lemma {:induction false} WrappedPosition(n: nat)
    ensures n % TWO_64 % 64 == n % 64
  {
  }

  /** Any way of cutting the input into updates gives the same context. */
  lemma {:induction false} AbsorbSplit(c: Context, x: seq<Byte>, y: seq<Byte>)
    ensures Absorb(Absorb(c, x), y) == Absorb(c, x + y)
  {
    if y == [] {
      assert x + y == x;
    } else {
      var init := y[..|y| - 1];
      AbsorbSplit(c, x, init);
      assert (x + y)[..|x + y| - 1] == x + init;
    }
  }

  // ---- The incremental form refines the block-wise definition ----

  /** How many of n bytes make up complete blocks. */
  function Cut(n: nat): (c: nat)
    ensures c <= n < c + 64 && c % 64 == 0
  {
    n - n % 64
  }

  lemma {:induction false} CutSuccessor(n: nat)
    ensures (n + 1) % 64 == 0 ==> Cut(n + 1) == n + 1 == Cut(n) + 64
    ensures (n + 1) % 64 != 0 ==> Cut(n + 1) == Cut(n)
  {
  }

  /** A context that has been fed exactly `msg` since `sha256_init`. */
  predicate Tracks(c: Context, msg: seq<Byte>) {
    && c.count == |msg| % TWO_64
    && c.state == HashBlocks(INITIAL, msg[..Cut(|msg|)])
    && c.buf[..|msg| % 64] == msg[Cut(|msg|)..]
  }

  lemma {:induction false} FeedTracks(c: Context, msg: seq<Byte>, b: Byte)
    requires Tracks(c, msg)
    ensures Tracks(Feed(c, b), msg + [b])
  {
    hide Compress, HashBlocks;
    var n, next := |msg|, msg + [b];
    WrappedPosition(n);
    WrappedPosition(n + 1);
    WrappedSuccessor(n);
    CutSuccessor(n);
    if (n + 1) % 64 == 0 {
      assert n % 64 == 63;
      BlockCompletes(msg, b, c.buf);
      assert next[..Cut(n + 1)] == next;
      assert next[Cut(n + 1)..] == [];
    } else {
      assert next[..Cut(n + 1)] == msg[..Cut(n)];
      assert next[Cut(n + 1)..] == msg[Cut(n)..] + [b];
      assert c.buf[n % 64 := b][..n % 64 + 1] == c.buf[..n % 64] + [b];
    }
  }

  lemma {:induction false} BlockCompletes(msg: seq<Byte>, b: Byte, buf: Block)
    requires (|msg| + 1) % 64 == 0 && buf[..63] == msg[Cut(|msg|)..]
    ensures HashBlocks(INITIAL, msg + [b]) == Compress(HashBlocks(INITIAL, msg[..Cut(|msg|)]), buf[63 := b])
  {
    hide Compress;
    var next := msg + [b];
    CutSuccessor(|msg|);
    assert next[..|next| - 64] == msg[..Cut(|msg|)];
    assert next[|next| - 64..] == msg[Cut(|msg|)..] + [b] == buf[63 := b];
  }

  /** Every update keeps the context in step with the bytes fed so far. */
  lemma {:induction false} AbsorbTracks(c: Context, msg: seq<Byte>, data: seq<Byte>)
    requires Tracks(c, msg)
    ensures Tracks(Absorb(c, data), msg + data)
  {
    if data == [] {
      assert msg + data == msg;
    } else {
      var init, last := data[..|data| - 1], data[|data| - 1];
      AbsorbTracks(c, msg, init);
      FeedTracks(Absorb(c, init), msg + init, last);
      assert msg + data == msg + init + [last];
    }
  }

  function Flatten(chunks: seq<seq<Byte>>): seq<Byte> {
    if chunks == [] then [] else chunks[0] + Flatten(chunks[1..])
  }

  /** One `sha256_update` for each chunk. */
  function AbsorbAll(c: Context, chunks: seq<seq<Byte>>): Context
    decreases |chunks|
  {
    if chunks == [] then c else AbsorbAll(Absorb(c, chunks[0]), chunks[1..])
  }

  /** In every reachable context the hash state, count and buffer follow from the bytes fed alone. */
  lemma {:induction false} ReachableContext(c: Context, msg: seq<Byte>, chunks: seq<seq<Byte>>)
    requires Tracks(c, msg)
    ensures AbsorbAll(c, chunks) == Absorb(c, Flatten(chunks))
    ensures Tracks(AbsorbAll(c, chunks), msg + Flatten(chunks))
    decreases |chunks|
  {
    hide Tracks, Feed;
    if chunks == [] {
      assert msg + [] == msg;
    } else {
      AbsorbTracks(c, msg, chunks[0]);
      ReachableContext(Absorb(c, chunks[0]), msg + chunks[0], chunks[1..]);
      AbsorbSplit(c, chunks[0], Flatten(chunks[1..]));
      assert msg + chunks[0] + Flatten(chunks[1..]) == msg + Flatten(chunks);
    }
  }

  lemma {:induction false} SmallCount(n: nat)
    requires n < 0x2000_0000_0000_0000
    ensures n % TWO_64 == n && n * 8 % TWO_64 == 8 * n
  {
  }

  /** Finishing a context that has been fed `msg` leaves the hash of the padded message. */
  lemma {:induction false} FinishHashes(c: Context, msg: seq<Byte>)
    requires Tracks(c, msg) && |msg| < 0x2000_0000_0000_0000
    ensures Finish(c).state == HashBlocks(INITIAL, Pad(msg))
  {
    hide HashBlocks, Absorb, PaddingWith;
    SmallCount(|msg|);
    AbsorbTracks(c, msg, PaddingWith(|msg|, 8 * |msg|));
    var padded := Pad(msg);
    assert padded[..Cut(|padded|)] == padded;
  }

  // ---- storage_sha256_hex ----

  method Sha256Hex(data: seq<Byte>) returns (out: string)
    requires |data| < 0x2000_0000_0000_0000
    ensures out == HexDigest(data)
  {
    var ctx := new Sha256Ctx.Init();
    Fresh(ctx.View());
    AbsorbTracks(ctx.View(), [], data);
    assert [] + data == data;
    ctx.Update(data);
    FinishHashes(ctx.View(), data);
    var digest := ctx.Final();
    assert digest[..] == Digest(data);
    out := HexString(digest);
  }

  /** `sha256_init` starts with nothing fed. */
  lemma {:induction false} Fresh(c: Context)
    requires c.state == INITIAL && c.count == 0
    ensures Tracks(c, [])
  {
  }

  /** The loop that prints the digest with "%02x". */
  method HexString(digest: array<Byte>) returns (out: string)
    requires digest.Length == 32
    ensures out == Hex(digest[..])
  {
    out := "";
    for i := 0 to 32
      invariant out == Hex(digest[..i])
    {
      HexAppend(digest[..i], digest[i]);
      assert digest[..i + 1] == digest[..i] + [digest[i]];
      out := out + [HexDigit(digest[i] / 16), HexDigit(digest[i] % 16)];
    }
    assert digest[..32] == digest[..];
  }

  lemma {:induction false} HexAppend(s: seq<Byte>, b: Byte)
    ensures Hex(s + [b]) == Hex(s) + [HexDigit(b / 16), HexDigit(b % 16)]
  {
    if s != [] {
      HexAppend(s[1..], b);
      assert (s + [b])[1..] == s[1..] + [b];
    }
  }
}
