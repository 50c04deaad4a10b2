/** `strip_markdown_json` of src/ocr/gemini.c: taking the JSON out of a fenced code block. */
module Markdown {
  const FENCE := "```"
  const JSON_FENCE := "```json"
  const TAG := "json"

  predicate IsNewline(c: char) { c == '\n' || c == '\r' }

  predicate IsBlank(c: char) { c == ' ' || c == '\t' || IsNewline(c) }

  /** The characters the trims take away. */
  lemma {:induction false} BlankCharacters(c: char)
    ensures IsBlank(c) <==> c in {' ', '\t', '\n', '\r'}
  {
  }

  predicate Blank(s: string) { forall c | c in s :: IsBlank(c) }

  predicate FenceAt(s: string, i: nat) { i + 3 <= |s| && s[i] == '`' && s[i + 1] == '`' && s[i + 2] == '`' }

  predicate NoFence(s: string) { forall i | 0 <= i < |s| :: !FenceAt(s, i) }

  predicate Trimmed(s: string) { s != "" ==> !IsBlank(s[0]) && !IsBlank(s[|s| - 1]) }

  // ---- What the function computes ----

  function SkipNewlines(s: string): string { if s != "" && IsNewline(s[0]) then SkipNewlines(s[1..]) else s }

  function TrimLeft(s: string): (t: string)
    ensures |t| <= |s| && t == s[|s| - |t|..]
    ensures t != "" ==> !IsBlank(t[0])
  {
    if s != "" && IsBlank(s[0]) then TrimLeft(s[1..]) else s
  }

  function TrimRight(s: string): (t: string)
    ensures t <= s
    ensures t != "" ==> !IsBlank(t[|t| - 1])
  {
    if s != "" && IsBlank(s[|s| - 1]) then TrimRight(s[..|s| - 1]) else s
  }

  /** `strstr(s, "```")`: the first fence, or the length. */
  function FenceIndex(s: string): (n: nat)
    ensures n <= |s|
    ensures n < |s| ==> FenceAt(s, n)
    ensures forall i | 0 <= i < n :: !FenceAt(s, i)
  {
    if s == "" || FenceAt(s, 0) then 0 else Shifted(s); 1 + FenceIndex(s[1..])
  }

  lemma {:induction false} Shifted(s: string)
    requires s != ""
    ensures forall i | 1 <= i <= |s| :: FenceAt(s, i) <==> FenceAt(s[1..], i - 1)
  {
  }

  /** The text after an opening fence, if there is one. */
  function Opened(s: string): string {
    if JSON_FENCE <= s then SkipNewlines(s[7..])
    else if FENCE <= s then SkipNewlines(s[3..])
    else s
  }

  function BeforeFence(s: string): string { s[..FenceIndex(s)] }

  function Strip(s: string): string { TrimRight(TrimLeft(BeforeFence(Opened(s)))) }

  // ---- What the result looks like ----

  predicate SliceOf(t: string, s: string) { exists i, j :: 0 <= i <= j <= |s| && t == s[i..j] }

  lemma {:induction false} SkipNewlinesSuffix(s: string)
    ensures |SkipNewlines(s)| <= |s| && SkipNewlines(s) == s[|s| - |SkipNewlines(s)|..]
  {
    if s != "" && IsNewline(s[0]) {
      SkipNewlinesSuffix(s[1..]);
    }
  }

  lemma {:induction false} OpenedSuffix(s: string)
    ensures |Opened(s)| <= |s| && Opened(s) == s[|s| - |Opened(s)|..]
  {
    if JSON_FENCE <= s {
      SkipNewlinesSuffix(s[7..]);
    } else if FENCE <= s {
      SkipNewlinesSuffix(s[3..]);
    }
  }

  lemma {:induction false} SliceHasNoFence(s: string, i: nat, j: nat)
    requires i <= j <= |s| && forall k | 0 <= k < j :: FenceAt(s, k) ==> k + 3 > j
    ensures NoFence(s[i..j])
  {
    forall k | 0 <= k < j - i
      ensures !FenceAt(s[i..j], k)
    {
      if FenceAt(s[i..j], k) {
        assert FenceAt(s, i + k);
      }
    }
  }

  /** Trimming takes a contiguous piece. */
  lemma {:induction false} TrimIsSlice(cut: string) returns (i: nat, j: nat)
    ensures i <= j <= |cut| && TrimRight(TrimLeft(cut)) == cut[i..j] && Trimmed(cut[i..j])
  {
    hide TrimLeft, TrimRight;
    var left := TrimLeft(cut);
    var t := TrimRight(left);
    i := |cut| - |left|;
    j := i + |t|;
    assert t == cut[i..j];
    if t != "" {
      assert t[0] == left[0];
    }
  }

  /** On every input the result is a contiguous slice with no fence and no surrounding blanks. */
  lemma {:induction false} StripResult(s: string)
    ensures SliceOf(Strip(s), s) && NoFence(Strip(s)) && Trimmed(Strip(s))
  {
    hide TrimLeft, TrimRight, FenceIndex, Opened, NoFence, FenceAt;
    var o := Opened(s);
    OpenedSuffix(s);
    var base := |s| - |o|;
    var i, j := TrimIsSlice(BeforeFence(o));
    assert BeforeFence(o)[i..j] == o[i..j];
    BeforeFenceHasNone(o, j);
    SliceHasNoFence(o, i, j);
    assert Strip(s) == s[base + i..base + j];
  }

  lemma {:induction false} BeforeFenceHasNone(o: string, j: nat)
    requires j <= FenceIndex(o)
    ensures forall k | 0 <= k < j :: FenceAt(o, k) ==> k + 3 > j
  {
  }

  lemma {:induction false} TrimmedStays(s: string)
    requires Trimmed(s)
    ensures TrimRight(TrimLeft(s)) == s
  {
  }

  lemma {:induction false} NoFenceStays(s: string)
    requires NoFence(s)
    ensures FenceIndex(s) == |s| && BeforeFence(s) == s && Opened(s) == s
  {
    if FENCE <= s {
      assert FENCE == s[..3];
      assert FenceAt(s, 0);
    }
  }

  /** A bare body, without fence or surrounding blanks, comes back as it is. */
  lemma {:induction false} BareBody(body: string)
    requires NoFence(body) && Trimmed(body)
    ensures Strip(body) == body
  {
    NoFenceStays(body);
    TrimmedStays(body);
  }

  lemma {:induction false} StripIdempotent(s: string)
    ensures Strip(Strip(s)) == Strip(s)
  {
    StripResult(s);
    BareBody(Strip(s));
  }

  // ---- Unwrapping ----

  predicate EndsInTick(s: string) { s != "" && s[|s| - 1] == '`' }

  lemma {:induction false} TrimLeftBlank(blank: string, s: string)
    requires Blank(blank) && (s != "" ==> !IsBlank(s[0]))
    ensures TrimLeft(blank + s) == s
  {
    if blank == "" {
      assert blank + s == s;
    } else {
      assert IsBlank(blank[0]);
      assert (blank + s)[1..] == blank[1..] + s;
      TrimLeftBlank(blank[1..], s);
    }
  }

  lemma {:induction false} TrimRightBlank(s: string, blank: string)
    requires Blank(blank) && (s != "" ==> !IsBlank(s[|s| - 1]))
    ensures TrimRight(s + blank) == s
  {
    if blank == "" {
      assert s + blank == s;
    } else {
      assert IsBlank(blank[|blank| - 1]);
      assert (s + blank)[..|s + blank| - 1] == s + blank[..|blank| - 1];
      TrimRightBlank(s, blank[..|blank| - 1]);
    }
  }

  lemma {:induction false} TrimAround(before: string, s: string, after: string)
    requires Blank(before) && Blank(after) && Trimmed(s)
    ensures TrimRight(TrimLeft(before + s + after)) == s
  {
    if s != "" {
      assert before + s + after == before + (s + after);
      TrimLeftBlank(before, s + after);
      TrimRightBlank(s, after);
    } else {
      assert before + s + after == before + after + "";
      assert Blank(before + after);
      TrimLeftBlank(before + after, "");
    }
  }

  lemma {:induction false} SkipNewlinesBlank(blank: string, s: string) returns (left: string)
    requires Blank(blank) && (s != "" ==> !IsBlank(s[0]))
    ensures Blank(left) && SkipNewlines(blank + s) == left + s
  {
    if blank != "" && IsNewline(blank[0]) {
      assert (blank + s)[1..] == blank[1..] + s;
      left := SkipNewlinesBlank(blank[1..], s);
    } else {
      left := blank;
    }
  }

  /** The first fence after a fence-free body: before its trailing ticks when nothing separates them. */
  lemma {:induction false} FirstFence(before: string, body: string, after: string, rest: string)
    requires Blank(before) && Blank(after) && NoFence(body)
    ensures var s := before + body + after + FENCE + rest;
            FenceIndex(s) <= |before + body + after| &&
            (FenceIndex(s) == |before + body + after| <==> after != "" || !EndsInTick(body))
  {
    var s, n := before + body + after + FENCE + rest, |before + body + after|;
    assert FenceAt(s, n);
    forall i | 0 <= i < n && FenceAt(s, i)
      ensures after == "" && EndsInTick(body)
    {
      Placed(before, body, after, rest, i);
    }
    if after == "" && EndsInTick(body) {
      assert FenceAt(s, n - 1);
    }
  }

  lemma {:induction false} BlankHasNoTick(blank: string)
    requires Blank(blank)
    ensures forall k | 0 <= k < |blank| :: blank[k] != '`'
  {
    forall k | 0 <= k < |blank|
      ensures blank[k] != '`'
    {
      assert blank[k] in blank;
    }
  }

  lemma {:induction false} Layout(before: string, body: string, after: string, rest: string)
    ensures var s := before + body + after + FENCE + rest;
            && (forall k | 0 <= k < |before| :: s[k] == before[k])
            && (forall k | 0 <= k < |body| :: s[|before| + k] == body[k])
            && (forall k | 0 <= k < |after| :: s[|before| + |body| + k] == after[k])
  {
  }

  lemma {:induction false} Placed(before: string, body: string, after: string, rest: string, i: nat)
    requires Blank(before) && Blank(after) && NoFence(body)
    requires i < |before + body + after| && FenceAt(before + body + after + FENCE + rest, i)
    ensures after == "" && EndsInTick(body)
  {
    var s, b := before + body + after + FENCE + rest, |before|;
    BlankHasNoTick(before);
    BlankHasNoTick(after);
    Layout(before, body, after, rest);
    assert s[i] == '`' && s[i + 1] == '`' && s[i + 2] == '`';
    assert b <= i < b + |body|;
    assert !FenceAt(body, i - b);
    assert s[b + |body|] == '`' && s[b + (|body| - 1)] == '`';
  }

  /** `"```" + body` reads as a json fence when the body itself starts with the tag. */
  predicate TagSwallowed(open: string, before: string, body: string) {
    open == "```" && before == "" && "json" <= body
  }

  function Wrapped(open: string, before: string, body: string, after: string, rest: string): string {
    open + (before + body + after + "```" + rest)
  }

  /**
   * A fenced body is recovered exactly when its last tick cannot run into the closing fence and its
   * first letters cannot be taken for the tag of the opening one.
   */
  lemma {:induction false} UnwrapIff(open: string, before: string, body: string, after: string, rest: string)
    requires open == "```json" || open == "```"
    requires Blank(before) && Blank(after) && NoFence(body) && Trimmed(body)
    ensures Strip(Wrapped(open, before, body, after, rest)) == body <==>
            (after != "" || !EndsInTick(body)) && !TagSwallowed(open, before, body)
  {
    if TagSwallowed(open, before, body) {
      SwallowedIsShorter(body, after, rest);
    } else {
      UnwrapUntagged(open, before, body, after, rest);
    }
  }

  lemma {:induction false} UnwrapUntagged(open: string, before: string, body: string, after: string, rest: string)
    requires open == "```json" || open == "```"
    requires Blank(before) && Blank(after) && NoFence(body) && Trimmed(body) && !TagSwallowed(open, before, body)
    ensures Strip(Wrapped(open, before, body, after, rest)) == body <==> after != "" || !EndsInTick(body)
  {
    hide NoFence, TrimLeft, TrimRight, FenceIndex, SkipNewlines;
    if body == "" {
      UnwrapEmpty(open, before, after, rest);
    } else {
      var inner := body + after + FENCE + rest;
      var s := Wrapped(open, before, body, after, rest);
      assert before + body + after + FENCE + rest == before + inner;
      OpenedFence(open, before, body, after, rest);
      var left := SkipNewlinesBlank(before, inner);
      assert left + inner == left + body + after + FENCE + rest;
      FirstFence(left, body, after, rest);
      var n := FenceIndex(Opened(s));
      if n == |left + body + after| {
        assert BeforeFence(Opened(s)) == left + body + after;
        TrimAround(left, body, after);
      } else {
        ShorterBody(left, body, rest, n);
      }
    }
  }

  lemma {:induction false} NoTag(body: string, after: string, rest: string)
    requires Blank(after) && !(TAG <= body)
    ensures !(TAG <= body + after + FENCE + rest)
  {
    var u := body + after + FENCE + rest;
    if |body| >= 4 {
      assert u[..4] == body[..4];
    } else {
      BlankHasNoTick(after);
      assert u[|body|] == if after == "" then '`' else after[0];
      assert after != "" ==> after[0] in after;
      assert u[|body|] != TAG[|body|];
    }
  }

  lemma {:induction false} JsonFenceIff(text: string)
    ensures JSON_FENCE <= FENCE + text <==> TAG <= text
  {
    assert JSON_FENCE == FENCE + TAG;
    if |text| >= 4 {
      assert (FENCE + text)[..7] == FENCE + text[..4];
      assert (FENCE + text[..4])[3..] == text[..4] && JSON_FENCE[3..] == TAG;
    }
  }

  lemma {:induction false} OpenedFence(open: string, before: string, body: string, after: string, rest: string)
    requires open == "```json" || open == "```"
    requires Blank(before) && Blank(after) && !TagSwallowed(open, before, body)
    ensures Opened(Wrapped(open, before, body, after, rest)) == SkipNewlines(before + body + after + FENCE + rest)
  {
    hide SkipNewlines;
    var text := before + body + after + FENCE + rest;
    var s := Wrapped(open, before, body, after, rest);
    assert s[|open|..] == text;
    if open == FENCE {
      if before == "" {
        assert text == body + after + FENCE + rest;
        NoTag(body, after, rest);
      } else {
        assert text[0] == before[0] && before[0] in before;
      }
      JsonFenceIff(text);
    }
  }

  lemma {:induction false} TagBelongsToFence(lead: string, b: string, after: string, rest: string)
    ensures Wrapped(FENCE, "", TAG + (lead + b), after, rest) == Wrapped(JSON_FENCE, lead, b, after, rest)
  {
    assert JSON_FENCE == FENCE + TAG;
    var end := after + FENCE + rest;
    assert "" + (TAG + (lead + b)) + after + FENCE + rest == TAG + (lead + b + end);
    assert lead + b + after + FENCE + rest == lead + b + end;
    assert FENCE + (TAG + (lead + b + end)) == (FENCE + TAG) + (lead + b + end);
  }

  /** A piece of a fence-free text that ends like it, split into its leading blanks and the rest. */
  lemma {:induction false} SplitTail(body: string, from: nat) returns (lead: string, b: string)
    requires from <= |body| && NoFence(body) && Trimmed(body)
    ensures body[from..] == lead + b && Blank(lead) && NoFence(b) && Trimmed(b)
  {
    hide TrimLeft, NoFence;
    var tail := body[from..];
    TrimLeftDropsBlanks(tail);
    b := TrimLeft(tail);
    lead := tail[..|tail| - |b|];
    assert body[|body| - |b|..|body|] == b;
    assert NoFence(b) by {
      hide *;
      NoFenceSuffix(body, |body| - |b|);
    }
  }

  lemma {:induction false} NoFenceSuffix(body: string, from: nat)
    requires from <= |body| && NoFence(body)
    ensures NoFence(body[from..|body|])
  {
    SliceHasNoFence(body, from, |body|);
  }

  /** With the tag taken from the body, what comes back is shorter than the body. */
  lemma {:induction false} SwallowedIsShorter(body: string, after: string, rest: string)
    requires Blank(after) && NoFence(body) && Trimmed(body) && TAG <= body
    ensures |Strip(Wrapped(FENCE, "", body, after, rest))| < |body|
  {
    hide Strip, Wrapped, NoFence, Trimmed, Blank;
    var lead, b := SplitTail(body, 4);
    assert body == TAG + (lead + b) by {
      assert body[..4] == TAG;
    }
    TagBelongsToFence(lead, b, after, rest);
    StripBound(lead, b, after, rest);
  }

  lemma {:induction false} TrimLeftDropsBlanks(s: string)
    ensures Blank(s[..|s| - |TrimLeft(s)|])
  {
    if s != "" && IsBlank(s[0]) {
      var t := s[1..];
      TrimLeftDropsBlanks(t);
      assert s[..|s| - |TrimLeft(s)|] == [s[0]] + t[..|t| - |TrimLeft(t)|];
    }
  }

  lemma {:induction false} StripBound(before: string, body: string, after: string, rest: string)
    requires Blank(before) && Blank(after) && NoFence(body) && Trimmed(body)
    ensures |Strip(Wrapped(JSON_FENCE, before, body, after, rest))| <= |before + body|
  {
    hide NoFence, TrimLeft, TrimRight, FenceIndex, SkipNewlines;
    var s := Wrapped(JSON_FENCE, before, body, after, rest);
    UnwrapUntagged(JSON_FENCE, before, body, after, rest);
    if after == "" && body != "" {
      var inner := body + after + FENCE + rest;
      assert before + body + after + FENCE + rest == before + inner;
      OpenedFence(JSON_FENCE, before, body, after, rest);
      var left := SkipNewlinesBlank(before, inner);
      assert left + inner == left + body + after + FENCE + rest;
      SkipNewlinesSuffix(before + inner);
      FirstFence(left, body, after, rest);
      assert |left| <= |before|;
      var i, j := TrimIsSlice(BeforeFence(Opened(s)));
    }
  }

  /** Cutting before a tick of the body leaves something shorter than the body. */
  lemma {:induction false} ShorterBody(left: string, body: string, rest: string, n: nat)
    requires Blank(left) && body != "" && Trimmed(body) && n < |left + body|
    requires NoFence(body) && FenceAt(left + body + FENCE + rest, n)
    ensures TrimRight(TrimLeft((left + body + FENCE + rest)[..n])) != body
  {
    var s := left + body + FENCE + rest;
    BlankHasNoTick(left);
    assert forall k | 0 <= k < |left| :: s[k] == left[k];
    var kept := body[..n - |left|];
    assert s[..n] == left + kept;
    if kept != "" {
      assert kept[0] == body[0];
    }
    TrimLeftBlank(left, kept);
  }

  lemma {:induction false} UnwrapEmpty(open: string, before: string, after: string, rest: string)
    requires open == "```json" || open == "```"
    requires Blank(before) && Blank(after)
    ensures Strip(Wrapped(open, before, "", after, rest)) == ""
  {
    hide NoFence, TrimLeft, TrimRight, FenceIndex, SkipNewlines;
    var blank, tail := before + after, FENCE + rest;
    OpenedFence(open, before, "", after, rest);
    assert before + "" + after + FENCE + rest == blank + tail;
    var left := SkipNewlinesBlank(blank, tail);
    assert left + tail == left + "" + "" + FENCE + rest;
    assert NoFence("") by { SliceHasNoFence("", 0, 0); }
    FirstFence(left, "", "", rest);
    assert (left + tail)[..|left|] == left + "" + "";
    TrimAround(left, "", "");
  }

  // ---- Without both fences ----

  lemma {:induction false} BlanksAddNoFence(before: string, body: string, after: string)
    requires Blank(before) && Blank(after) && NoFence(body)
    ensures NoFence(before + body + after)
  {
    var s := before + body + after;
    BlankHasNoTick(before);
    BlankHasNoTick(after);
    forall i | 0 <= i < |s|
      ensures !FenceAt(s, i)
    {
      if FenceAt(s, i) {
        assert i >= |before| && i + 3 <= |before + body|;
        assert FenceAt(body, i - |before|);
      }
    }
  }

  /** A body without a fence comes back from between any blanks. */
  lemma {:induction false} PlainBody(before: string, body: string, after: string)
    requires Blank(before) && Blank(after) && NoFence(body) && Trimmed(body)
    ensures Strip(before + body + after) == body
  {
    BlanksAddNoFence(before, body, after);
    NoFenceStays(before + body + after);
    hide NoFence;
    TrimAround(before, body, after);
  }

  /** Text before a first fence that does not open the reply comes back, unless its last tick runs into the fence. */
  lemma {:induction false} BeforeFenceIff(before: string, body: string, after: string, rest: string)
    requires Blank(before) && Blank(after) && NoFence(body) && Trimmed(body)
    requires !(FENCE <= before + body + after + FENCE + rest)
    ensures Strip(before + body + after + FENCE + rest) == body <==> after != "" || !EndsInTick(body)
  {
    var s := before + body + after + FENCE + rest;
    assert JSON_FENCE[..3] == FENCE;
    assert Opened(s) == s;
    hide NoFence, TrimLeft, TrimRight, FenceIndex, Opened;
    FirstFence(before, body, after, rest);
    var n := FenceIndex(s);
    if n == |before + body + after| {
      assert BeforeFence(s) == before + body + after;
      TrimAround(before, body, after);
    } else {
      assert s == before + body + FENCE + rest;
      ShorterBody(before, body, rest, n);
    }
  }

  /** An opening fence that is never closed is taken off too, under the same condition on the tag. */
  lemma {:induction false} UnclosedIff(open: string, before: string, body: string, after: string)
    requires open == "```json" || open == "```"
    requires Blank(before) && Blank(after) && NoFence(body) && Trimmed(body)
    ensures Strip(open + (before + body + after)) == body <==> !TagSwallowed(open, before, body)
  {
    hide NoFence, Strip;
    if TagSwallowed(open, before, body) {
      var lead, b := SplitTail(body, 4);
      assert body == TAG + (lead + b) by {
        assert body[..4] == TAG;
      }
      assert JSON_FENCE == FENCE + TAG;
      assert open + (before + body + after) == JSON_FENCE + (lead + b + after);
      UnclosedBody(JSON_FENCE, lead, b, after);
    } else {
      UnclosedBody(open, before, body, after);
    }
  }

  lemma {:induction false} UnclosedBody(open: string, before: string, body: string, after: string)
    requires open == "```json" || open == "```"
    requires Blank(before) && Blank(after) && NoFence(body) && Trimmed(body) && !TagSwallowed(open, before, body)
    ensures Strip(open + (before + body + after)) == body
  {
    hide NoFence, TrimLeft, TrimRight, FenceIndex, SkipNewlines;
    OpenedUnclosed(open, before, body, after);
    var left: string, tail := "", after;
    if body == "" {
      assert before + body + after == before + after + "";
      left := SkipNewlinesBlank(before + after, "");
      tail := "";
    } else {
      assert before + body + after == before + (body + after);
      left := SkipNewlinesBlank(before, body + after);
    }
    assert SkipNewlines(before + body + after) == left + body + tail;
    BlanksAddNoFence(left, body, tail);
    NoFenceStays(left + body + tail);
    TrimAround(left, body, tail);
  }

  lemma {:induction false} OpenedUnclosed(open: string, before: string, body: string, after: string)
    requires open == "```json" || open == "```"
    requires Blank(before) && Blank(after) && !TagSwallowed(open, before, body)
    ensures Opened(open + (before + body + after)) == SkipNewlines(before + body + after)
  {
    hide SkipNewlines;
    var text := before + body + after;
    var s := open + text;
    assert s[|open|..] == text;
    if open == FENCE {
      if before != "" {
        assert text[0] == before[0] && before[0] in before;
      } else if |body| < 4 {
        assert after != "" ==> text[|body|] == after[0] && after[0] in after;
      } else {
        assert text[..4] == body[..4];
      }
      assert !(TAG <= text) by {
        assert |body| < 4 && before == "" && after != "" ==> text[|body|] != TAG[|body|];
      }
      JsonFenceIff(text);
    }
  }

  // ---- In place ----

  /** `raw` holds a C string of `len` characters; the result is the C string from `start`. */
  method StripMarkdownJson(raw: array<char>, len: nat) returns (start: nat, end: nat)
    requires len < raw.Length && raw[len] == '\0'
    modifies raw
    ensures start <= end <= len && raw[end] == '\0'
    ensures raw[start..end] == Strip(old(raw[..len]))
  {
    hide FenceIndex, TrimLeft, TrimRight, Opened;
    start := SkipOpening(raw, len);
    ghost var text := raw[start..len];
    end := FindFence(raw, start, len);
    raw[end] := '\0';
    assert raw[start..end] == text[..end - start];
    ghost var cut := raw[start..end];
    start := TrimStart(raw, start, end);
    end := TrimEnd(raw, start, end);
    assert raw[start..end] == TrimRight(TrimLeft(cut));
  }

  /** The two `strncmp` tests and the newlines after the one that matches. */
  method SkipOpening(raw: array<char>, len: nat) returns (start: nat)
    requires len <= raw.Length
    ensures start <= len && raw[start..len] == Opened(raw[..len])
  {
    hide SkipNewlines;
    ghost var s := raw[..len];
    if len >= 7 && raw[..7] == JSON_FENCE {
      assert s[..7] == JSON_FENCE && s[7..] == raw[7..len];
      start := SkipLines(raw, 7, len);
    } else if len >= 3 && raw[..3] == FENCE {
      assert len >= 7 ==> s[..7] == raw[..7];
      assert s[..3] == FENCE && s[3..] == raw[3..len];
      start := SkipLines(raw, 3, len);
    } else {
      assert len >= 7 ==> s[..7] == raw[..7];
      assert len >= 3 ==> s[..3] == raw[..3];
      start := 0;
    }
  }

  method SkipLines(raw: array<char>, from: nat, len: nat) returns (start: nat)
    requires from <= len <= raw.Length
    ensures from <= start <= len && raw[start..len] == SkipNewlines(raw[from..len])
  {
    start := from;
    while start < len && IsNewline(raw[start])
      invariant from <= start <= len && SkipNewlines(raw[start..len]) == SkipNewlines(raw[from..len])
    {
      assert raw[start..len][1..] == raw[start + 1..len];
      start := start + 1;
    }
  }

  /** The scan of `strstr`. */
  method FindFence(raw: array<char>, from: nat, len: nat) returns (at: nat)
    requires from <= len <= raw.Length
    ensures from <= at <= len && at == from + FenceIndex(raw[from..len])
  {
    at := from;
    while at < len && !(at + 3 <= len && raw[at] == '`' && raw[at + 1] == '`' && raw[at + 2] == '`')
      invariant from <= at <= len && at + FenceIndex(raw[at..len]) == from + FenceIndex(raw[from..len])
    {
      assert raw[at..len][1..] == raw[at + 1..len];
      assert !FenceAt(raw[at..len], 0);
      at := at + 1;
    }
    if at < len {
      assert FenceAt(raw[at..len], 0);
    }
  }

  method TrimStart(raw: array<char>, from: nat, to: nat) returns (start: nat)
    requires from <= to <= raw.Length
    ensures from <= start <= to && raw[start..to] == TrimLeft(raw[from..to])
  {
    hide TrimLeft;
    start := from;
    while start < to && IsBlank(raw[start])
      invariant from <= start <= to && TrimLeft(raw[start..to]) == TrimLeft(raw[from..to])
    {
      TrimLeftStep(raw[start..to]);
      assert raw[start..to][0] == raw[start];
      assert raw[start..to][1..] == raw[start + 1..to];
      start := start + 1;
    }
    TrimLeftStep(raw[start..to]);
  }

  lemma {:induction false} TrimLeftStep(s: string)
    ensures TrimLeft(s) == if s != "" && IsBlank(s[0]) then TrimLeft(s[1..]) else s
  {
  }

  lemma {:induction false} TrimRightStep(t: string, n: nat)
    requires 0 < n <= |t|
    ensures TrimRight(t[..n]) == if IsBlank(t[n - 1]) then TrimRight(t[..n - 1]) else t[..n]
  {
    assert t[..n][..n - 1] == t[..n - 1];
  }

  /** The right trim writes a terminator over every blank it drops. */
  method TrimEnd(raw: array<char>, start: nat, to: nat) returns (end: nat)
    requires start <= to < raw.Length && raw[to] == '\0'
    modifies raw
    ensures start <= end <= to && raw[end] == '\0'
    ensures raw[start..end] == TrimRight(old(raw[start..to]))
  {
    hide TrimRight;
    ghost var t := raw[start..to];
    end := to;
    assert t[..end - start] == t;
    while end > start && IsBlank(raw[end - 1])
      invariant start <= end <= to && raw[end] == '\0'
      invariant raw[start..end] == t[..end - start]
      invariant TrimRight(t[..end - start]) == TrimRight(t)
    {
      assert raw[end - 1] == raw[start..end][end - 1 - start];
      TrimRightStep(t, end - start);
      end := end - 1;
      raw[end] := '\0';
    }
    if end > start {
      assert raw[end - 1] == raw[start..end][end - 1 - start];
      TrimRightStep(t, end - start);
    } else {
      assert t[..end - start] == "";
    }
  }
}
