/** Decimal numbers as C prints them with "%lld" and reads them with `strtoll(s, &end, 10)`. */
module Decimal {
  import opened Bytes

  const INT64_MAX: int := 0x7fff_ffff_ffff_ffff
  const INT64_MIN: int := -0x8000_0000_0000_0000

  predicate IsDigit(c: char) { '0' <= c <= '9' }

  /** `isspace` in the C locale. */
  predicate IsSpace(c: char) { c == ' ' || (9 <= c as int <= 13) }

  function Digit(d: nat): (c: char)
    requires d < 10
    ensures IsDigit(c) && DigitValue(c) == d
  {
    d as char + '0'
  }

  function DigitValue(c: char): (d: nat)
    requires IsDigit(c)
    ensures d < 10
  {
    c as nat - '0' as nat
  }

  // ---- Printing ----

  function PrintNat(n: nat): (s: string)
    ensures s != ""
    ensures forall i | 0 <= i < |s| :: IsDigit(s[i])
    ensures s[0] == '0' ==> n == 0 && s == "0"
  {
    if n < 10 then [Digit(n)] else PrintNat(n / 10) + [Digit(n % 10)]
  }

  function Magnitude(i: int): nat { if i < 0 then -i else i }

  function Print(i: Int64): (s: string)
    ensures s != "" && (s[0] == '-' || IsDigit(s[0]))
    ensures forall k | 0 < k < |s| :: IsDigit(s[k])
  {
    if i < 0 then "-" + PrintNat(Magnitude(i)) else PrintNat(Magnitude(i))
  }

  // ---- Reading ----

  /** What `strtoll` gives: the value, and how far it read; nothing read means no number. */
  datatype Parsed = Parsed(value: Int64, end: nat)

  function CountSpaces(s: string): (n: nat)
    ensures n <= |s|
  {
    if s == "" || !IsSpace(s[0]) then 0 else 1 + CountSpaces(s[1..])
  }

  function CountDigits(s: string): (n: nat)
    ensures n <= |s|
    ensures forall i | 0 <= i < n :: IsDigit(s[i])
  {
    if s == "" || !IsDigit(s[0]) then 0 else 1 + CountDigits(s[1..])
  }

  function NatOf(s: string): nat
    requires forall i | 0 <= i < |s| :: IsDigit(s[i])
  {
    if s == "" then 0 else NatOf(s[..|s| - 1]) * 10 + DigitValue(s[|s| - 1])
  }

  function Clamp(i: int): Int64 { if i > INT64_MAX then INT64_MAX else if i < INT64_MIN then INT64_MIN else i }

  function Strtoll(s: string): (p: Parsed)
    ensures p.end <= |s|
  {
    var start := CountSpaces(s);
    var sign := if start < |s| && s[start] in {'-', '+'} then 1 else 0;
    var rest := s[start + sign..];
    var n := CountDigits(rest);
    if n == 0 then Parsed(0, 0)
    else
      var magnitude: int := NatOf(rest[..n]);
      Parsed(Clamp(if sign == 1 && s[start] == '-' then -magnitude else magnitude), start + sign + n)
  }

  // ---- Printing and reading back ----

  lemma {:induction false} NatOfPrint(n: nat)
    ensures NatOf(PrintNat(n)) == n
  {
    if n >= 10 {
      NatOfPrint(n / 10);
      var s := PrintNat(n);
      assert s[..|s| - 1] == PrintNat(n / 10);
    }
  }

  lemma {:induction false} CountDigitsOf(s: string, rest: string)
    requires forall i | 0 <= i < |s| :: IsDigit(s[i])
    requires rest == "" || !IsDigit(rest[0])
    ensures CountDigits(s + rest) == |s|
  {
    if s == "" {
      assert s + rest == rest;
    } else {
      assert (s + rest)[1..] == s[1..] + rest;
      CountDigitsOf(s[1..], rest);
    }
  }

  lemma {:induction false} CountSpacesOf(white: string, rest: string)
    requires (forall c | c in white :: IsSpace(c)) && (rest == "" || !IsSpace(rest[0]))
    ensures CountSpaces(white + rest) == |white|
  {
    if white == "" {
      assert white + rest == rest;
    } else {
      assert (white + rest)[1..] == white[1..] + rest;
      CountSpacesOf(white[1..], rest);
    }
  }

  lemma {:induction false} SpacesCounted(s: string)
    ensures forall c | c in s[..CountSpaces(s)] :: IsSpace(c)
  {
    if s != "" && IsSpace(s[0]) {
      SpacesCounted(s[1..]);
      assert s[..CountSpaces(s)] == [s[0]] + s[1..][..CountSpaces(s[1..])];
    }
  }

  lemma {:induction false} DigitsCounted(s: string)
    ensures CountDigits(s) == |s| || !IsDigit(s[CountDigits(s)])
  {
    if s != "" && IsDigit(s[0]) {
      DigitsCounted(s[1..]);
    }
  }

  // ---- What counts as a number ----

  /** The white space of the C locale, character by character. */
  predicate IsWhite(s: string) { forall c | c in s :: c in {' ', '\t', '\n', 11 as char, 12 as char, '\r'} }

  predicate IsSign(s: string) { s == "" || s == "-" || s == "+" }

  predicate AllDigits(s: string) { s != "" && forall i | 0 <= i < |s| :: '0' <= s[i] <= '9' }

  /** The number with this sign and these digits, or the nearest `int64_t`. */
  function Signed(sign: string, digits: string): Int64
    requires AllDigits(digits)
  {
    var magnitude: int := NatOf(digits);
    var value := if sign == "-" then -magnitude else magnitude;
    if value > 9_223_372_036_854_775_807 then 9_223_372_036_854_775_807
    else if value < -9_223_372_036_854_775_808 then -9_223_372_036_854_775_808
    else value
  }

  /** s is white space, a sign or none, one or more digits, and then something that is no digit. */
  predicate Spells(s: string, white: string, sign: string, digits: string, rest: string) {
    && s == white + sign + digits + rest
    && IsWhite(white) && IsSign(sign) && AllDigits(digits) && (rest == "" || !('0' <= rest[0] <= '9'))
  }

  /** A number leads s: `end` characters of it, with this value. */
  ghost predicate Leads(s: string, end: nat, value: Int64) {
    exists white, sign, digits, rest ::
      Spells(s, white, sign, digits, rest) && end == |s| - |rest| && value == Signed(sign, digits)
  }

  /** The whole of s is a number. */
  ghost predicate Number(s: string, value: Int64) { Leads(s, |s|, value) }

  /** A number with this value leads s. */
  ghost predicate HasNumber(s: string, value: Int64) { exists end :: Leads(s, end, value) }

  ghost predicate Numberless(s: string) { forall value :: !HasNumber(s, value) }

  /** With a zero in front the value is the same, so every string of digits is worth what it prints. */
  lemma {:induction false} LeadingZero(s: string)
    requires forall i | 0 <= i < |s| :: IsDigit(s[i])
    ensures NatOf("0" + s) == NatOf(s)
    decreases |s|
  {
    if s != "" {
      var t := "0" + s;
      LeadingZero(s[..|s| - 1]);
      assert t[..|t| - 1] == "0" + s[..|s| - 1];
      assert t[|t| - 1] == s[|s| - 1];
    } else {
      assert NatOf("0") == 0;
    }
  }

  lemma {:induction false} StrtollOfDigits(s: string, white: string, sign: string, digits: string, rest: string)
    requires Spells(s, white, sign, digits, rest)
    ensures Strtoll(s) == Parsed(Signed(sign, digits), |s| - |rest|)
  {
    hide NatOf, CountDigits, CountSpaces;
    assert IsDigit(digits[0]);
    assert s == white + (sign + digits + rest);
    CountSpacesOf(white, sign + digits + rest);
    assert s[|white|..] == sign + digits + rest;
    assert s[|white + sign|..] == digits + rest;
    CountDigitsOf(digits, rest);
    assert (digits + rest)[..|digits|] == digits;
    assert sign == "" ==> s[|white|..] == digits + rest && s[|white|] == digits[0];
    assert sign != "" ==> s[|white|] == sign[0];
  }

  lemma {:induction false} WhiteSpaces(s: string)
    requires forall c | c in s :: IsSpace(c)
    ensures IsWhite(s)
  {
  }

  /** The sign that follows the white space, or nothing. */
  function SignAt(s: string, start: nat): (sign: string)
    requires start <= |s|
    ensures IsSign(sign) && start + |sign| <= |s| && s[start..start + |sign|] == sign
  {
    if start < |s| && (s[start] == '-' || s[start] == '+') then [s[start]] else ""
  }

  lemma {:induction false} StrtollParts(s: string)
    ensures var start := CountSpaces(s);
            var sign := SignAt(s, start);
            var tail := s[start + |sign|..];
            var n := CountDigits(tail);
            Strtoll(s) == if n == 0 then Parsed(0, 0) else Parsed(Signed(sign, tail[..n]), start + |sign| + n)
  {
    hide NatOf, CountDigits, CountSpaces;
  }

  /** A number that is read is there, where and what `strtoll` says. */
  lemma {:induction false} StrtollReads(s: string)
    requires Strtoll(s).end > 0
    ensures Leads(s, Strtoll(s).end, Strtoll(s).value)
  {
    StrtollParts(s);
    hide Strtoll, Signed, CountDigits, CountSpaces, SignAt, IsWhite, IsSign;
    var start := CountSpaces(s);
    var sign := SignAt(s, start);
    var tail := s[start + |sign|..];
    var n := CountDigits(tail);
    SpacesCounted(s);
    WhiteSpaces(s[..start]);
    DigitsCounted(tail);
    assert s == s[..start] + sign + tail[..n] + tail[n..];
    assert Spells(s, s[..start], sign, tail[..n], tail[n..]);
  }

  /** `strtoll` finds exactly the number that leads the text; without one it gives 0. */
  lemma {:induction false} StrtollIff(s: string)
    ensures forall end, value | end > 0 :: Strtoll(s) == Parsed(value, end) <==> Leads(s, end, value)
    ensures Strtoll(s) == Parsed(0, 0) <==> forall end, value :: !Leads(s, end, value)
  {
    hide Strtoll, Leads;
    forall end, value | Leads(s, end, value)
      ensures Strtoll(s) == Parsed(value, end) && end > 0
    {
      LeaderIsRead(s, end, value);
    }
    if Strtoll(s).end > 0 {
      StrtollReads(s);
    } else {
      NothingRead(s);
    }
  }

  lemma {:induction false} LeaderIsRead(s: string, end: nat, value: Int64)
    requires Leads(s, end, value)
    ensures Strtoll(s) == Parsed(value, end) && end > 0
  {
    var white, sign, digits, rest :|
      Spells(s, white, sign, digits, rest) && end == |s| - |rest| && value == Signed(sign, digits);
    hide Strtoll, Signed;
    StrtollOfDigits(s, white, sign, digits, rest);
  }

  lemma {:induction false} NothingRead(s: string)
    requires Strtoll(s).end == 0
    ensures Strtoll(s).value == 0
  {
  }

  /** `strtoll` finds a number exactly when one leads the text. */
  lemma {:induction false} StrtollHasNumber(s: string)
    ensures forall value :: HasNumber(s, value) <==> Strtoll(s).end > 0 && Strtoll(s).value == value
  {
    hide Strtoll, Leads;
    StrtollIff(s);
    forall value | HasNumber(s, value)
      ensures Strtoll(s).end > 0 && Strtoll(s).value == value
    {
      var end :| Leads(s, end, value);
      LeaderIsRead(s, end, value);
    }
    var p := Strtoll(s);
    if p.end > 0 {
      assert Leads(s, p.end, p.value);
    }
  }

  /** The argument is a number and nothing else exactly when `strtoll` reads it to its end. */
  lemma {:induction false} StrtollFills(s: string, value: Int64)
    requires s != ""
    ensures Strtoll(s) == Parsed(value, |s|) <==> Number(s, value)
  {
    hide Strtoll, Leads;
    StrtollIff(s);
  }

  /** Every printed integer is read back, up to the first character that is not a digit. */
  lemma {:induction false} StrtollOfPrint(i: Int64, rest: string)
    requires rest == "" || !IsDigit(rest[0])
    ensures Strtoll(Print(i) + rest) == Parsed(i, |Print(i)|)
  {
    hide NatOf, PrintNat, Strtoll;
    var digits := PrintNat(Magnitude(i));
    NatOfPrint(Magnitude(i));
    var sign := if i < 0 then "-" else "";
    assert Print(i) + rest == "" + sign + digits + rest;
    StrtollOfDigits(Print(i) + rest, "", sign, digits, rest);
  }

  lemma {:induction false} PrintNatLength(n: nat, bound: nat, width: nat)
    requires n < bound && bound == Pow10(width) && width > 0
    ensures |PrintNat(n)| <= width
  {
    if n >= 10 {
      PrintNatLength(n / 10, Pow10(width - 1), width - 1);
    }
  }

  function Pow10(n: nat): nat { if n == 0 then 1 else 10 * Pow10(n - 1) }

  /** No `int64_t` needs more than 20 characters. */
  lemma {:induction false} PrintLength(i: Int64)
    ensures |Print(i)| <= 20
  {
    assert Pow10(7) == 10_000_000;
    assert Pow10(13) == 10_000_000_000_000;
    assert Pow10(19) == 10_000_000_000_000_000_000;
    PrintNatLength(Magnitude(i), Pow10(19), 19);
  }
}
