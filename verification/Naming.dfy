/**
 The names of stored objects: `storage_gen_filename` and `storage_ocr_filename` of
 src/storage/storage_local.c, and the extension `processor_save_file` passes them.
 */
module Naming {
  import opened Bytes
  import opened Decimal

  const MAX_FILENAME: nat := 256
  const OCR_SUFFIX := "_ocr_result.txt"
  const STAMP_LENGTH: nat := 26

  datatype Broken = Broken(year: nat, month: nat, day: nat, hour: nat, minute: nat, second: nat)

  /** What `localtime` returns for the years 0 to 9999, with `tm_year` and `tm_mon` already adjusted. */
  type LocalTime = t: Broken |
      t.year <= 9999 && 1 <= t.month <= 12 && 1 <= t.day <= 31 && t.hour <= 23 && t.minute <= 59 && t.second <= 60
    witness Broken(1970, 1, 1, 0, 0, 0)

  /** "%0<width>d" of a number that has at most that many digits. */
  function Padded(n: nat, width: nat): (s: string)
    ensures |s| == width
    ensures '.' !in s
  {
    if width == 0 then "" else Padded(n / 10, width - 1) + [Digit(n % 10)]
  }

  /** The part of the name that comes from the clock. */
  function StampText(t: LocalTime): (s: string)
    ensures |s| == STAMP_LENGTH
    ensures '.' !in s
  {
    "upload_" + Padded(t.year, 4) + "-" + Padded(t.month, 2) + "-" + Padded(t.day, 2) +
    "_" + Padded(t.hour, 2) + "_" + Padded(t.minute, 2) + "_" + Padded(t.second, 2)
  }

  /** Everything before the last dot: `strrchr` and the `%.*s` that follows it. */
  function Base(s: string): (r: string)
    ensures r <= s
    ensures '.' !in s ==> r == s
  {
    if '.' !in s then s
    else if s[|s| - 1] == '.' then s[..|s| - 1]
    else Base(s[..|s| - 1])
  }

  /** `strrchr(name, '.')`, or the empty string. */
  function Extension(name: string): (e: string)
    ensures e == "" || (e[0] == '.' && '.' !in e[1..])
  {
    if '.' !in name then ""
    else if name[|name| - 1] == '.' then "."
    else Extension(name[..|name| - 1]) + [name[|name| - 1]]
  }

  function GenFilename(t: LocalTime, ext: string): string { Fit(StampText(t) + ext, MAX_FILENAME) }

  function OcrFilename(saved: string): (name: string)
    ensures name != ""
  {
    Fit(Base(saved) + OCR_SUFFIX, MAX_FILENAME)
  }

  // ---- What the names keep apart ----

  /** The shape of every saved name: a clock stamp, then nothing or a dot. */
  predicate SavedShape(name: string) {
    && |name| >= STAMP_LENGTH
    && (|name| > STAMP_LENGTH ==> name[STAMP_LENGTH] == '.')
    && OcrFilename(name) == name[..STAMP_LENGTH] + "_ocr_result.txt"
  }

  lemma {:induction false} BaseOfStamped(stamp: string, ext: string)
    requires '.' !in stamp
    requires ext == "" || (ext[0] == '.' && '.' !in ext[1..])
    ensures Base(stamp + ext) == stamp
    decreases |ext|
  {
    var s := stamp + ext;
    if ext == "" {
      assert s == stamp;
    } else {
      assert s[|stamp|] == '.';
      var shorter := ext[..|ext| - 1];
      assert s[..|s| - 1] == stamp + shorter;
      if |ext| > 1 {
        assert ext[|ext| - 1] == ext[1..][|ext| - 2];
        assert shorter[1..] <= ext[1..];
        BaseOfStamped(stamp, shorter);
      } else {
        assert stamp + shorter == stamp;
      }
    }
  }

  /** A name is what stands before its last dot, and its extension from that dot on. */
  lemma {:induction false} BaseAndExtension(name: string)
    ensures name == Base(name) + Extension(name)
    ensures Extension(name) == "" <==> '.' !in name
  {
    if '.' in name && name[|name| - 1] != '.' {
      BaseAndExtension(name[..|name| - 1]);
    }
  }

  /** Stamp and extension of the original, cut to 255 characters; no extension reaches the OCR name. */
  lemma {:induction false} GenFilenameShape(t: LocalTime, original: string)
    ensures SavedShape(GenFilename(t, Extension(original)))
    ensures GenFilename(t, Extension(original))[..STAMP_LENGTH] == StampText(t)
    ensures GenFilename(t, Extension(original)) <= StampText(t) + Extension(original)
    ensures |GenFilename(t, Extension(original))| ==
            if |Extension(original)| < 230 then 26 + |Extension(original)| else 255
  {
    var stamp, ext := StampText(t), Extension(original);
    var name := GenFilename(t, ext);
    var kept := name[STAMP_LENGTH..];
    assert kept <= ext;
    assert name == stamp + kept;
    BaseOfStamped(stamp, kept);
  }

  /** Saved names and OCR names never collide, whatever their stamps. */
  lemma {:induction false} SavedAndOcrNamesDisjoint(saved: string, other: string)
    requires SavedShape(saved) && SavedShape(other)
    ensures saved != OcrFilename(other)
  {
    assert OcrFilename(other)[STAMP_LENGTH] == '_';
  }

  /** Two records share an OCR name exactly when they share a stamp. */
  lemma {:induction false} OcrNameInjective(saved: string, other: string)
    requires SavedShape(saved) && SavedShape(other)
    ensures OcrFilename(saved) == OcrFilename(other) <==> saved[..STAMP_LENGTH] == other[..STAMP_LENGTH]
  {
    assert OcrFilename(saved)[..STAMP_LENGTH] == saved[..STAMP_LENGTH];
    assert OcrFilename(other)[..STAMP_LENGTH] == other[..STAMP_LENGTH];
  }

  /** These characters are digits that read as this number. */
  predicate Shows(s: string, n: nat) { (forall i | 0 <= i < |s| :: IsDigit(s[i])) && NatOf(s) == n }

  lemma {:induction false} NatOfPadded(n: nat, width: nat)
    requires n < Pow10(width)
    ensures Shows(Padded(n, width), n)
  {
    if width > 0 {
      var s := Padded(n, width);
      NatOfPadded(n / 10, width - 1);
      assert s[..width - 1] == Padded(n / 10, width - 1);
    }
  }

  /** The stamp is "upload_" and the date and time, largest unit first, with these separators. */
  lemma {:induction false} StampFields(t: LocalTime)
    ensures var s := StampText(t);
            && s[..7] == "upload_" && Shows(s[7..11], t.year)
            && s[11] == '-' && Shows(s[12..14], t.month) && s[14] == '-' && Shows(s[15..17], t.day)
            && s[17] == '_' && Shows(s[18..20], t.hour) && s[20] == '_' && Shows(s[21..23], t.minute)
            && s[23] == '_' && Shows(s[24..26], t.second)
  {
    hide Padded, Shows;
    var s := StampText(t);
    assert s[7..11] == Padded(t.year, 4) && s[12..14] == Padded(t.month, 2) && s[15..17] == Padded(t.day, 2);
    assert s[18..20] == Padded(t.hour, 2) && s[21..23] == Padded(t.minute, 2) && s[24..26] == Padded(t.second, 2);
    assert Pow10(4) == 10000 && Pow10(2) == 100;
    NatOfPadded(t.year, 4);
    NatOfPadded(t.month, 2);
    NatOfPadded(t.day, 2);
    NatOfPadded(t.hour, 2);
    NatOfPadded(t.minute, 2);
    NatOfPadded(t.second, 2);
  }

  /** Different seconds give different stamps. */
  lemma {:induction false} StampInjective(t: LocalTime, u: LocalTime)
    requires StampText(t) == StampText(u)
    ensures t == u
  {
    StampFields(t);
    StampFields(u);
    hide StampText, NatOf, IsDigit;
  }
}
