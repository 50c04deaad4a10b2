/** `url_percent_encode` of src/utils.c against RFC 3986, sections 2.1 and 2.3. */
module PercentEncoding {
  import opened Bytes

  // ---- RFC 3986 ----

  /** Section 2.3: ALPHA / DIGIT / "-" / "." / "_" / "~", as octets. */
  predicate Unreserved(b: Byte) {
    0x41 <= b <= 0x5A || 0x61 <= b <= 0x7A || 0x30 <= b <= 0x39 || b in {0x2D, 0x2E, 0x5F, 0x7E}
  }

  /** HEXDIG, in either case. */
  function HexValue(c: char): (r: Option<nat>)
    ensures r.Some? ==> r.value < 16
  {
    if '0' <= c <= '9' then Some(c as nat - 0x30)
    else if 'A' <= c <= 'F' then Some(c as nat - 0x41 + 10)
    else if 'a' <= c <= 'f' then Some(c as nat - 0x61 + 10)
    else None
  }

  /** Section 2.1: "%" HEXDIG HEXDIG stands for one octet, any other character for itself. */
  function Decode(s: string): Option<seq<Byte>> {
    if s == "" then Some([])
    else if s[0] == '%' then
      if |s| < 3 then None
      else
        var h, l, rest := HexValue(s[1]), HexValue(s[2]), Decode(s[3..]);
        if h.None? || l.None? || rest.None? then None else Some([h.value * 16 + l.value] + rest.value)
    else
      var rest := Decode(s[1..]);
      if s[0] as nat >= 256 || rest.None? then None else Some([s[0] as nat] + rest.value)
  }

  // ---- The encoder ----

  /** `is_unreserved`, on characters. */
  predicate IsUnreserved(c: char) {
    ('A' <= c <= 'Z') || ('a' <= c <= 'z') || ('0' <= c <= '9') || c == '-' || c == '_' || c == '.' || c == '~'
  }

  const HEX := "0123456789ABCDEF"

  /** c is the upper-case digit for v. */
  predicate IsUpperHex(c: char, v: nat) { c as nat == if v < 10 then '0' as nat + v else 'A' as nat + v - 10 }

  lemma {:induction false} HexIsUpper(v: nat)
    requires v < 16
    ensures IsUpperHex(HEX[v], v)
  {
  }

  function EncodeByte(b: Byte): (s: string)
    ensures |s| == if Unreserved(b) then 1 else 3
    ensures Unreserved(b) ==> s == [b as char]
    ensures !Unreserved(b) ==> s[0] == '%' && IsUpperHex(s[1], b / 16) && IsUpperHex(s[2], b % 16)
    ensures s[0] != '\0'
  {
    if IsUnreserved(b as char) then [b as char]
    else
      HexIsUpper(b / 16);
      HexIsUpper(b % 16);
      ['%', HEX[b / 16], HEX[b % 16]]
  }

  function Encode(src: seq<Byte>): string {
    if src == [] then "" else EncodeByte(src[0]) + Encode(src[1..])
  }

  /** How many bytes have to be escaped. */
  function Escaped(src: seq<Byte>): nat {
    if src == [] then 0 else (if Unreserved(src[0]) then 0 else 1) + Escaped(src[1..])
  }

  lemma {:induction false} HexRow(v: nat)
    requires v < 16
    ensures HexValue(HEX[v]) == Some(v) && HEX[v] != '\0'
  {
    if v < 10 {
      assert HEX[v] as nat == 0x30 + v;
    } else {
      assert HEX[v] as nat == 0x41 + v - 10;
    }
  }

  lemma {:induction false} DecodeOne(b: Byte, rest: string)
    requires Decode(rest).Some?
    ensures Decode(EncodeByte(b) + rest) == Some([b] + Decode(rest).value)
  {
    var s := EncodeByte(b) + rest;
    if Unreserved(b) {
      assert s[1..] == rest;
    } else {
      assert s[3..] == rest;
      HexRow(b / 16);
      HexRow(b % 16);
    }
  }

  /** Decoding undoes encoding, so no two byte strings share an encoding. */
  lemma {:induction false} DecodeEncode(src: seq<Byte>)
    ensures Decode(Encode(src)) == Some(src)
  {
    if src != [] {
      DecodeEncode(src[1..]);
      DecodeOne(src[0], Encode(src[1..]));
      assert src == [src[0]] + src[1..];
    }
  }

  lemma {:induction false} EncodeInjective(s: seq<Byte>, t: seq<Byte>)
    ensures Encode(s) == Encode(t) <==> s == t
  {
    DecodeEncode(s);
    DecodeEncode(t);
  }

  lemma {:induction false} EncodeLength(src: seq<Byte>)
    ensures |Encode(src)| == |src| + 2 * Escaped(src)
    ensures |Encode(src)| <= 3 * |src|
  {
    if src != [] {
      EncodeLength(src[1..]);
    }
  }

  /** Only unreserved characters, "%" and hexadecimal digits come out, so a C string holds it all. */
  lemma {:induction false} EncodeIsPrintable(src: seq<Byte>)
    ensures forall c | c in Encode(src) :: IsUnreserved(c) || c == '%'
  {
    if src != [] {
      EncodeIsPrintable(src[1..]);
      if !Unreserved(src[0]) {
        HexRow(src[0] / 16);
        HexRow(src[0] % 16);
      }
      assert forall c | c in EncodeByte(src[0]) :: IsUnreserved(c) || c == '%';
    }
  }

  // ---- The loop ----

  method UrlPercentEncode(src: seq<Byte>) returns (out: array<char>, len: nat)
    ensures fresh(out) && out.Length == 3 * |src| + 1
    ensures len == |Encode(src)| < out.Length && out[..len] == Encode(src) && out[len] == '\0'
  {
    hide EncodeByte;
    out := new char[|src| * 3 + 1](_ => '\0');
    var j: nat := 0;
    assert src[0..] == src;
    for i := 0 to |src|
      invariant 0 <= j <= 3 * i
      invariant out[..j] + Encode(src[i..]) == Encode(src)
    {
      assert src[i..][1..] == src[i + 1..];
      j := WriteByte(out, j, src[i]);
    }
    out[j] := '\0';
    len := j;
  }

  /** One turn of the loop. */
  method WriteByte(out: array<char>, j: nat, c: Byte) returns (next: nat)
    requires j + 3 < out.Length
    modifies out
    ensures next == j + |EncodeByte(c)|
    ensures out[..next] == old(out[..j]) + EncodeByte(c)
  {
    if IsUnreserved(c as char) {
      out[j] := c as char;
      return j + 1;
    }
    out[j] := '%';
    out[j + 1] := HEX[c / 16];
    out[j + 2] := HEX[c % 16];
    return j + 3;
  }
}
