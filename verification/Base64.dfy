/** `base64_encode` of src/utils.c against a decoder written from section 4 of RFC 4648. */
module Base64 {
  import opened Bytes

  // ---- Decoding, from section 4 of RFC 4648 ----

  /** Table 1. */
  function SextetOf(c: char): (r: Option<nat>)
    ensures r.Some? ==> r.value < 64
  {
    if 'A' <= c <= 'Z' then Some(c as nat - 'A' as nat)
    else if 'a' <= c <= 'z' then Some(c as nat - 'a' as nat + 26)
    else if '0' <= c <= '9' then Some(c as nat - '0' as nat + 52)
    else if c == '+' then Some(62)
    else if c == '/' then Some(63)
    else None
  }

  /** A full quantum: four characters, 24 bits, three octets. */
  function DecodeQuantum(q: string): Option<seq<Byte>>
    requires |q| == 4
  {
    var a, b, c, d := SextetOf(q[0]), SextetOf(q[1]), SextetOf(q[2]), SextetOf(q[3]);
    if a.None? || b.None? || c.None? || d.None? then None
    else
      var bits := ((a.value * 64 + b.value) * 64 + c.value) * 64 + d.value;
      Some([bits / 65536, bits / 256 % 256, bits % 256])
  }

  /** The final quantum: with one pad it carries 16 bits, with two pads 8 bits; the other bits are zero. */
  function DecodeLast(q: string): Option<seq<Byte>>
    requires |q| == 4
  {
    if q[3] != '=' then DecodeQuantum(q)
    else
      var a, b := SextetOf(q[0]), SextetOf(q[1]);
      if a.None? || b.None? then None
      else if q[2] == '=' then
        var bits := a.value * 64 + b.value;
        if bits % 16 != 0 then None else Some([bits / 16])
      else
        var c := SextetOf(q[2]);
        if c.None? then None
        else
          var bits := (a.value * 64 + b.value) * 64 + c.value;
          if bits % 4 != 0 then None else Some([bits / 1024, bits / 4 % 256])
  }

  function Decode(s: string): Option<seq<Byte>> {
    if s == "" then Some([])
    else if |s| < 4 then None
    else if |s| == 4 then DecodeLast(s)
    else
      var head := DecodeQuantum(s[..4]);
      var tail := Decode(s[4..]);
      if head.None? || tail.None? then None else Some(head.value + tail.value)
  }

  // ---- Encoding ----

  const UPPER := "ABCDEFGHIJKLMNOPQRSTUVWXYZ"
  const LOWER := "abcdefghijklmnopqrstuvwxyz"
  const DIGITS := "0123456789"

  const B64_CHARS := UPPER + LOWER + DIGITS + "+/"

  function Char(v: nat): char
    requires v < 64
  {
    B64_CHARS[v]
  }

  /** The four characters of a 24-bit group. */
  function Group(a: Byte, b: Byte, c: Byte): (s: string)
    ensures |s| == 4
  {
    var triple := a * 65536 + b * 256 + c;
    [Char(triple / 262144 % 64), Char(triple / 4096 % 64), Char(triple / 64 % 64), Char(triple % 64)]
  }

  function Encode(src: seq<Byte>): string {
    if |src| == 0 then ""
    else if |src| == 1 then Group(src[0], 0, 0)[..2] + "=="
    else if |src| == 2 then Group(src[0], src[1], 0)[..3] + "="
    else Group(src[0], src[1], src[2]) + Encode(src[3..])
  }

  lemma {:induction false} LetterRow(v: nat)
    requires v < 26
    ensures UPPER[v] as nat == 'A' as nat + v && LOWER[v] as nat == 'a' as nat + v
  {
    assert UPPER[0] == 'A' && UPPER[1] == 'B' && UPPER[25] == 'Z';
  }

  lemma {:induction false} DigitRow(v: nat)
    requires v < 10
    ensures DIGITS[v] as nat == '0' as nat + v
  {
  }

  /** The program's alphabet is the standard's. */
  lemma {:induction false} CharIsTable(v: nat)
    requires v < 64
    ensures SextetOf(Char(v)) == Some(v) && Char(v) != '='
  {
    if v < 26 {
      LetterRow(v);
    } else if v < 52 {
      LetterRow(v - 26);
    } else if v < 62 {
      DigitRow(v - 52);
    }
  }

  /** Cutting 24 bits into sextets loses nothing. */
  lemma {:induction false} SextetsOfTriple(t: nat)
    requires t < 0x100_0000
    ensures ((t / 262144 % 64 * 64 + t / 4096 % 64) * 64 + t / 64 % 64) * 64 + t % 64 == t
  {
    var q1 := t / 64;
    var q2 := q1 / 64;
    assert q2 == t / 4096 && q2 / 64 == t / 262144;
  }

  lemma {:induction false} BytesOfTriple(a: Byte, b: Byte, c: Byte)
    ensures var t := a * 65536 + b * 256 + c;
            t < 0x100_0000 && t / 65536 == a && t / 256 % 256 == b && t % 256 == c
  {
    assert (a * 65536 + b * 256 + c) / 256 == a * 256 + b;
  }

  lemma {:induction false} GroupDecodes(a: Byte, b: Byte, c: Byte)
    ensures DecodeQuantum(Group(a, b, c)) == Some([a, b, c])
    ensures Group(a, b, c)[3] != '=' && Group(a, b, c)[2] != '='
  {
    hide Char, SextetOf;
    var t := a * 65536 + b * 256 + c;
    BytesOfTriple(a, b, c);
    SextetsOfTriple(t);
    CharIsTable(t / 262144 % 64);
    CharIsTable(t / 4096 % 64);
    CharIsTable(t / 64 % 64);
    CharIsTable(t % 64);
  }

  lemma {:induction false} OneByteDecodes(a: Byte)
    ensures DecodeLast(Group(a, 0, 0)[..2] + "==") == Some([a])
  {
    hide Char, SextetOf;
    var t := a * 65536;
    CharIsTable(t / 262144 % 64);
    CharIsTable(t / 4096 % 64);
    assert t / 4096 == a * 16 && t / 262144 == t / 4096 / 64;
  }

  lemma {:induction false} TwoBytesDecode(a: Byte, b: Byte)
    ensures DecodeLast(Group(a, b, 0)[..3] + "=") == Some([a, b])
  {
    hide Char, SextetOf;
    var t := a * 65536 + b * 256 + 0;
    CharIsTable(t / 262144 % 64);
    CharIsTable(t / 4096 % 64);
    CharIsTable(t / 64 % 64);
    TwoByteBits(a, b);
  }

  lemma {:induction false} TwoByteBits(a: Byte, b: Byte)
    ensures var t := a * 65536 + b * 256 + 0;
            var bits := (t / 262144 % 64 * 64 + t / 4096 % 64) * 64 + t / 64 % 64;
            bits % 4 == 0 && bits / 1024 == a && bits / 4 % 256 == b
  {
    var t := a * 65536 + b * 256 + 0;
    SextetsOfTriple(t);
    var bits := (t / 262144 % 64 * 64 + t / 4096 % 64) * 64 + t / 64 % 64;
    assert t % 64 == 0;
    assert bits == a * 1024 + b * 4;
  }

  /** Decoding gives back the input, for every byte string. */
  lemma {:induction false} DecodeEncode(src: seq<Byte>)
    ensures Decode(Encode(src)) == Some(src)
  {
    hide Group, DecodeQuantum, DecodeLast;
    if |src| == 1 {
      OneByteDecodes(src[0]);
      assert src == [src[0]];
    } else if |src| == 2 {
      TwoBytesDecode(src[0], src[1]);
      assert src == [src[0], src[1]];
    } else if |src| >= 3 {
      var g := Group(src[0], src[1], src[2]);
      GroupDecodes(src[0], src[1], src[2]);
      DecodeEncode(src[3..]);
      var rest := Encode(src[3..]);
      EncodeLength(src[3..]);
      assert (g + rest)[..4] == g && (g + rest)[4..] == rest;
      assert [src[0], src[1], src[2]] + src[3..] == src;
      if |src| == 3 {
        FullLast(g);
        assert g + rest == g;
        assert src == [src[0], src[1], src[2]];
      }
    }
  }

  lemma {:induction false} FullLast(q: string)
    requires |q| == 4 && q[3] != '='
    ensures DecodeLast(q) == DecodeQuantum(q)
  {
  }

  /** Four characters for each three bytes begun. */
  lemma {:induction false} EncodeLength(src: seq<Byte>)
    ensures |Encode(src)| == (|src| + 2) / 3 * 4
  {
    hide Group;
    if |src| >= 3 {
      EncodeLength(src[3..]);
    }
  }

  /** Pads stand only at the end, as many as the length modulo three asks for. */
  lemma {:induction false} PaddingPlaces(src: seq<Byte>, i: nat)
    requires i < |Encode(src)|
    ensures Encode(src)[i] == '=' <==> i >= |Encode(src)| - Pads(|src|)
    decreases |src|
  {
    hide Group;
    EncodeLength(src);
    if |src| >= 3 {
      EncodeLength(src[3..]);
      GroupHasNoPad(src[0], src[1], src[2]);
      assert Pads(|src[3..]|) == Pads(|src|);
      if i >= 4 {
        assert Encode(src)[i] == Encode(src[3..])[i - 4];
        PaddingPlaces(src[3..], i - 4);
      }
    } else if |src| == 2 {
      GroupHasNoPad(src[0], src[1], 0);
    } else if |src| == 1 {
      GroupHasNoPad(src[0], 0, 0);
    }
  }

  /** How many pads end the encoding of n bytes. */
  function Pads(n: nat): nat { if n % 3 == 1 then 2 else if n % 3 == 2 then 1 else 0 }

  lemma {:induction false} GroupHasNoPad(a: Byte, b: Byte, c: Byte)
    ensures forall i | 0 <= i < 4 :: Group(a, b, c)[i] != '='
  {
    hide Char;
    var t := a * 65536 + b * 256 + c;
    CharIsTable(t / 262144 % 64);
    CharIsTable(t / 4096 % 64);
    CharIsTable(t / 64 % 64);
    CharIsTable(t % 64);
  }

  // ---- The loop over two indices ----

  /** All groups, with zeros in place of missing bytes and no pads yet. */
  function Unpadded(src: seq<Byte>): string {
    if |src| == 0 then ""
    else if |src| == 1 then Group(src[0], 0, 0)
    else if |src| == 2 then Group(src[0], src[1], 0)
    else Group(src[0], src[1], src[2]) + Unpadded(src[3..])
  }

  lemma {:induction false} PadsOverwriteTheEnd(src: seq<Byte>)
    ensures |Unpadded(src)| == |Encode(src)| == (|src| + 2) / 3 * 4
    ensures Encode(src) == Unpadded(src)[..|Encode(src)| - Pads(|src|)] + "=="[..Pads(|src|)]
  {
    hide Group;
    if |src| >= 3 {
      PadsOverwriteTheEnd(src[3..]);
      assert Pads(|src[3..]|) == Pads(|src|);
    }
  }

  method Base64Encode(src: seq<Byte>) returns (out: array<char>)
    ensures fresh(out) && out.Length == (|src| + 2) / 3 * 4 + 1
    ensures out[..out.Length - 1] == Encode(src) && out[out.Length - 1] == '\0'
  {
    hide Group;
    var len := |src|;
    var outLen := (len + 2) / 3 * 4 + 1;
    out := new char[outLen](_ => '\0');
    PadsOverwriteTheEnd(src);
    var i, j := 0, 0;
    while i < len
      invariant 0 <= i <= len && j + |Unpadded(src[i..])| == outLen - 1
      invariant out[..j] + Unpadded(src[i..]) == Unpadded(src)
      decreases len - i
    {
      ghost var rest := src[i..];
      var a, b, c := src[i], 0, 0;
      i := i + 1;
      if i < len {
        b := src[i];
        i := i + 1;
      }
      if i < len {
        c := src[i];
        i := i + 1;
      }
      assert Unpadded(rest) == Group(a, b, c) + Unpadded(src[i..]) by { FirstGroup(rest); }
      WriteGroup(out, j, a, b, c);
      j := j + 4;
    }
    assert out[..j] == Unpadded(src);
    if len % 3 == 1 {
      out[j - 1] := '=';
      out[j - 2] := '=';
    }
    if len % 3 == 2 {
      out[j - 1] := '=';
    }
    out[j] := '\0';
  }

  lemma {:induction false} FirstGroup(s: seq<Byte>)
    requires s != []
    ensures var b := if |s| > 1 then s[1] else 0;
            var c := if |s| > 2 then s[2] else 0;
            var rest := if |s| > 3 then s[3..] else [];
            Unpadded(s) == Group(s[0], b, c) + Unpadded(rest)
  {
    hide Group;
  }

  /** The four stores for one triple. */
  method WriteGroup(out: array<char>, j: nat, a: Byte, b: Byte, c: Byte)
    requires j + 4 <= out.Length
    modifies out
    ensures out[..j + 4] == old(out[..j]) + Group(a, b, c)
  {
    hide Char;
    var triple: nat := a * 65536 + b * 256 + c;
    out[j] := Char(triple / 262144 % 64);
    out[j + 1] := Char(triple / 4096 % 64);
    out[j + 2] := Char(triple / 64 % 64);
    out[j + 3] := Char(triple % 64);
  }
}
