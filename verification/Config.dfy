/** The two comma-separated lists of src/config.c: the user whitelist and the model names. */
module Config {
  import opened Bytes
  import opened Decimal

  const MAX_ALLOWED_USERS: nat := 32
  const USER_BUF: nat := 1024
  const MAX_MODELS: nat := 8
  const MODELS_BUF: nat := 512
  const MODEL_LEN: nat := 128

  // ---- Fields and tokens ----

  /** Where the first comma stands, or the length. */
  function Comma(s: string): (n: nat)
    ensures n <= |s| && ',' !in s[..n]
    ensures n < |s| ==> s[n] == ','
  {
    if s == "" || s[0] == ',' then 0 else 1 + Comma(s[1..])
  }

  /** All fields between commas, empty ones included. */
  function Fields(s: string): seq<string>
    decreases |s|
  {
    var n := Comma(s);
    if n == |s| then [s] else [s[..n]] + Fields(s[n + 1..])
  }

  /** The successive results of `strtok_r(s, ",", ...)`: it steps over runs of commas. */
  function Tokens(s: string): seq<string>
    decreases |s|
  {
    if s == "" then []
    else if s[0] == ',' then Tokens(s[1..])
    else
      var n := Comma(s);
      if n == |s| then [s] else [s[..n]] + Tokens(s[n + 1..])
  }

  /** The fields are free of commas, and joined with commas they are the text again. */
  lemma {:induction false} FieldsJoin(s: string)
    ensures Fields(s) != [] && Join(Fields(s)) == s
    ensures forall k | 0 <= k < |Fields(s)| :: ',' !in Fields(s)[k]
    decreases |s|
  {
    var n := Comma(s);
    if n < |s| {
      FieldsJoin(s[n + 1..]);
      assert s == s[..n] + "," + s[n + 1..];
      assert Fields(s)[1..] == Fields(s[n + 1..]);
    } else {
      assert s[..n] == s;
    }
  }

  lemma {:induction false} FieldsOfJoin(items: seq<string>)
    requires items != [] && forall k | 0 <= k < |items| :: ',' !in items[k]
    ensures Fields(Join(items)) == items
  {
    if |items| == 1 {
      assert Join(items) == items[0] + "";
      CommaAfter(items[0], "");
    } else {
      var rest := "," + Join(items[1..]);
      assert Join(items) == items[0] + rest;
      CommaAfter(items[0], rest);
      assert (items[0] + rest)[|items[0]| + 1..] == Join(items[1..]);
      assert (items[0] + rest)[..|items[0]|] == items[0];
      FieldsOfJoin(items[1..]);
    }
  }

  function NonEmpty(fields: seq<string>): seq<string> {
    if fields == [] then []
    else (if fields[0] == "" then [] else [fields[0]]) + NonEmpty(fields[1..])
  }

  /** `strtok_r` yields the fields that are not empty. */
  lemma {:induction false} TokensAreFields(s: string)
    ensures Tokens(s) == NonEmpty(Fields(s))
    decreases |s|
  {
    if s == "" {
      NonEmptyOne("");
    } else if s[0] == ',' {
      TokensAreFields(s[1..]);
      NonEmptyCons("", Fields(s[1..]));
      assert s[..0] == "";
    } else {
      var n := Comma(s);
      if n == |s| {
        NonEmptyOne(s);
      } else {
        TokensAreFields(s[n + 1..]);
        NonEmptyCons(s[..n], Fields(s[n + 1..]));
      }
    }
  }

  lemma {:induction false} NonEmptyOne(field: string)
    ensures NonEmpty([field]) == if field == "" then [] else [field]
  {
    assert NonEmpty([field][1..]) == [];
  }

  lemma {:induction false} NonEmptyCons(field: string, fields: seq<string>)
    ensures NonEmpty([field] + fields) == (if field == "" then NonEmpty(fields) else [field] + NonEmpty(fields))
  {
    assert ([field] + fields)[1..] == fields;
  }

  function Join(items: seq<string>): string {
    if items == [] then "" else if |items| == 1 then items[0] else items[0] + "," + Join(items[1..])
  }

  lemma {:induction false} CommaAfter(s: string, rest: string)
    requires ',' !in s && (rest == "" || rest[0] == ',')
    ensures Comma(s + rest) == |s|
  {
    if s != "" {
      assert (s + rest)[1..] == s[1..] + rest;
      CommaAfter(s[1..], rest);
    } else {
      assert s + rest == rest;
    }
  }

  lemma {:induction false} TokensOfJoin(items: seq<string>)
    requires forall k | 0 <= k < |items| :: items[k] != "" && ',' !in items[k]
    ensures Tokens(Join(items)) == items
  {
    if |items| == 1 {
      assert Join(items) == items[0] + "";
      CommaAfter(items[0], "");
    } else if |items| > 1 {
      var rest := "," + Join(items[1..]);
      assert Join(items) == items[0] + rest;
      CommaAfter(items[0], rest);
      assert (items[0] + rest)[|items[0]| + 1..] == Join(items[1..]);
      TokensOfJoin(items[1..]);
    }
  }

  /** One `strtok_r` call on what is left of the buffer. */
  method NextToken(s: string, from: nat) returns (token: Option<string>, next: nat)
    requires from <= |s|
    ensures next <= |s|
    ensures token.None? ==> Tokens(s[from..]) == []
    ensures token.Some? ==> next > from && Tokens(s[from..]) == [token.value] + Tokens(s[next..])
  {
    hide Tokens;
    var i := from;
    while i < |s| && s[i] == ','
      invariant from <= i <= |s| && Tokens(s[i..]) == Tokens(s[from..])
    {
      SkipComma(s, i);
      i := i + 1;
    }
    if i == |s| {
      assert s[i..] == "";
      NoTokens();
      return None, i;
    }
    var rest := s[i..];
    var n := Comma(rest);
    next := if n == |rest| then |s| else i + n + 1;
    assert s[next..] == if n == |rest| then "" else rest[n + 1..];
    FirstToken(rest);
    return Some(rest[..n]), next;
  }

  lemma {:induction false} SkipComma(s: string, i: nat)
    requires i < |s| && s[i] == ','
    ensures Tokens(s[i..]) == Tokens(s[i + 1..])
  {
    assert s[i..][1..] == s[i + 1..];
  }

  lemma {:induction false} NoTokens()
    ensures Tokens("") == []
  {
  }

  lemma {:induction false} FirstToken(s: string)
    requires s != "" && s[0] != ','
    ensures Comma(s) > 0
    ensures Tokens(s) == [s[..Comma(s)]] + Tokens(if Comma(s) == |s| then "" else s[Comma(s) + 1..])
  {
    assert s[..|s|] == s;
  }

  // ---- The whitelist ----

  function SkipBlanks(s: string): string { if s != "" && s[0] == ' ' then SkipBlanks(s[1..]) else s }

  /** The ids of the first tokens, at most `room` of them; nothing when one of these has no number. */
  function IdsOf(tokens: seq<string>, room: nat): Option<seq<Int64>>
    decreases |tokens|
  {
    if tokens == [] || room == 0 then Some([])
    else
      var p := Strtoll(SkipBlanks(tokens[0]));
      var rest := IdsOf(tokens[1..], room - 1);
      if p.end == 0 || rest.None? then None else Some([p.value] + rest.value)
  }

  function UserIds(raw: string): Option<seq<Int64>> { IdsOf(Tokens(Fit(raw, USER_BUF)), MAX_ALLOWED_USERS) }

  lemma {:induction false} BlankFirst(s: string)
    requires s != "" && s[0] == ' '
    ensures Strtoll(s).end > 0 <==> Strtoll(s[1..]).end > 0
    ensures Strtoll(s).value == Strtoll(s[1..]).value
  {
    var start, rest := CountSpaces(s), s[1..];
    assert s[start..] == rest[start - 1..];
    if start < |s| {
      assert s[start] == rest[start - 1];
      assert s[start + 1..] == rest[start..];
    }
  }

  /** The blanks before a number make no difference to it. */
  lemma {:induction false} SkipBlanksNumber(s: string)
    ensures Strtoll(SkipBlanks(s)).end == 0 <==> Numberless(s)
    ensures !Numberless(s) ==> HasNumber(s, Strtoll(SkipBlanks(s)).value)
  {
    hide Strtoll, HasNumber;
    SkipBlanksReads(s);
    StrtollHasNumber(s);
    if Strtoll(s).end > 0 {
      assert HasNumber(s, Strtoll(s).value);
    }
  }

  lemma {:induction false} SkipBlanksReads(s: string)
    ensures Strtoll(SkipBlanks(s)).end > 0 <==> Strtoll(s).end > 0
    ensures Strtoll(SkipBlanks(s)).value == Strtoll(s).value
  {
    hide Strtoll;
    if s != "" && s[0] == ' ' {
      BlankFirst(s);
      SkipBlanksReads(s[1..]);
    }
  }

  /**
   The list is refused exactly when one of the tokens looked at has no number; otherwise there is one id for
   each of them, in order, and it is the number that leads the token.
   */
  lemma {:induction false} IdsIff(tokens: seq<string>, room: nat)
    ensures IdsOf(tokens, room).None? <==>
              exists k :: 0 <= k < |tokens| && k < room && Numberless(tokens[k])
    ensures IdsOf(tokens, room).Some? ==>
              var ids := IdsOf(tokens, room).value;
              && |ids| == (if |tokens| < room then |tokens| else room)
              && forall k | 0 <= k < |ids| :: HasNumber(tokens[k], ids[k])
    decreases |tokens|
  {
    hide Strtoll, HasNumber, SkipBlanks, Numberless;
    if tokens != [] && room > 0 {
      var rest := tokens[1..];
      SkipBlanksNumber(tokens[0]);
      IdsIff(rest, room - 1);
      if IdsOf(rest, room - 1).None? {
        var k :| 0 <= k < |rest| && k < room - 1 && Numberless(rest[k]);
        assert tokens[k + 1] == rest[k];
      }
      if exists k :: 0 <= k < |tokens| && k < room && Numberless(tokens[k]) {
        var k :| 0 <= k < |tokens| && k < room && Numberless(tokens[k]);
        assert k > 0 ==> tokens[k] == rest[k - 1];
      }
    }
  }

  /** The whitelist: at most 32 tokens of the first 1023 characters. */
  lemma {:induction false} WhitelistIff(raw: string, tokens: seq<string>)
    requires tokens == Tokens(Fit(raw, 1024))
    ensures UserIds(raw).None? <==> exists k :: 0 <= k < |tokens| && k < 32 && Numberless(tokens[k])
    ensures UserIds(raw).Some? ==>
              var ids := UserIds(raw).value;
              && |ids| == (if |tokens| < 32 then |tokens| else 32)
              && forall k | 0 <= k < |ids| :: HasNumber(tokens[k], ids[k])
  {
    hide Tokens, HasNumber, Numberless;
    IdsIff(tokens, 32);
  }

  /** `parse_user_ids`: the ids go into a fixed array, and -1 reports a bad one. */
  method ParseUserIds(raw: string, users: array<Int64>) returns (count: int)
    requires users.Length == MAX_ALLOWED_USERS
    modifies users
    ensures UserIds(raw).None? ==> count == -1
    ensures UserIds(raw).Some? ==>
              count == |UserIds(raw).value| && 0 <= count <= MAX_ALLOWED_USERS && users[..count] == UserIds(raw).value
  {
    hide Fit, Tokens, Strtoll, SkipBlanks, UserIds, IdsOf, Gathers;
    var buf := Fit(raw, USER_BUF);
    count := 0;
    assert buf[0..] == buf;
    var token, next := NextToken(buf, 0);
    ghost var left := Tokens(buf);
    GathersFirst(raw);
    assert users[..0] == [];
    while token.Some? && count < MAX_ALLOWED_USERS
      invariant 0 <= count <= MAX_ALLOWED_USERS && 0 <= next <= |buf|
      invariant left == (if token.Some? then [token.value] + Tokens(buf[next..]) else [])
      invariant Gathers(users[..count], left, MAX_ALLOWED_USERS - count, raw)
      decreases |left|
    {
      var p := Strtoll(SkipBlanks(token.value));
      assert left[1..] == Tokens(buf[next..]);
      GathersStep(users[..count], left, MAX_ALLOWED_USERS - count, raw);
      if p.end == 0 {
        return -1;
      }
      ghost var before := users[..count];
      users[count] := p.value;
      count := count + 1;
      assert users[..count] == before + [p.value];
      left := left[1..];
      token, next := NextToken(buf, next);
    }
    GathersLast(users[..count], left, MAX_ALLOWED_USERS - count, raw);
  }

  function Prepend(ids: seq<Int64>, rest: Option<seq<Int64>>): Option<seq<Int64>> {
    if rest.None? then None else Some(ids + rest.value)
  }

  /** The ids so far, followed by those of the tokens still to come, are the whitelist. */
  predicate Gathers(ids: seq<Int64>, tokens: seq<string>, room: nat, raw: string) {
    Prepend(ids, IdsOf(tokens, room)) == UserIds(raw)
  }

  lemma {:induction false} GathersFirst(raw: string)
    ensures Gathers([], Tokens(Fit(raw, USER_BUF)), MAX_ALLOWED_USERS, raw)
  {
    var all := UserIds(raw);
    assert all.Some? ==> [] + all.value == all.value;
  }

  lemma {:induction false} GathersStep(ids: seq<Int64>, tokens: seq<string>, room: nat, raw: string)
    requires Gathers(ids, tokens, room, raw) && tokens != [] && room > 0
    ensures var p := Strtoll(SkipBlanks(tokens[0]));
            if p.end == 0 then UserIds(raw).None? else Gathers(ids + [p.value], tokens[1..], room - 1, raw)
  {
    hide Strtoll, SkipBlanks, UserIds;
    var p := Strtoll(SkipBlanks(tokens[0]));
    PrependOne(ids, p.value, IdsOf(tokens[1..], room - 1));
  }

  lemma {:induction false} GathersLast(ids: seq<Int64>, tokens: seq<string>, room: nat, raw: string)
    requires Gathers(ids, tokens, room, raw) && (tokens == [] || room == 0)
    ensures UserIds(raw) == Some(ids)
  {
    assert ids + [] == ids;
  }

  lemma {:induction false} PrependOne(ids: seq<Int64>, id: Int64, rest: Option<seq<Int64>>)
    ensures Prepend(ids, Prepend([id], rest)) == Prepend(ids + [id], rest)
  {
    if rest.Some? {
      assert ids + ([id] + rest.value) == ids + [id] + rest.value;
    }
  }

  method IsAllowed(users: array<Int64>, count: nat, id: Int64) returns (allowed: bool)
    requires count <= users.Length
    ensures allowed <==> id in users[..count]
  {
    for i := 0 to count
      invariant id !in users[..i]
    {
      if users[i] == id {
        return true;
      }
    }
    return false;
  }

  function Printed(ids: seq<Int64>): seq<string> { seq(|ids|, i requires 0 <= i < |ids| => Print(ids[i])) }

  lemma {:induction false} JoinLength(ids: seq<Int64>)
    ensures |Join(Printed(ids))| <= 21 * |ids|
  {
    hide Print;
    if |ids| == 1 {
      PrintLength(ids[0]);
    } else if |ids| > 1 {
      PrintLength(ids[0]);
      JoinLength(ids[1..]);
      assert Printed(ids)[1..] == Printed(ids[1..]);
    }
  }

  lemma {:induction false} IdsOfPrinted(ids: seq<Int64>, room: nat)
    requires |ids| <= room
    ensures IdsOf(Printed(ids), room) == Some(ids)
  {
    hide Print, Strtoll;
    if ids != [] {
      IdsOfPrinted(ids[1..], room - 1);
      assert Printed(ids)[1..] == Printed(ids[1..]);
      assert SkipBlanks(Print(ids[0])) == Print(ids[0]);
      StrtollOfPrint(ids[0], "");
      assert Print(ids[0]) + "" == Print(ids[0]);
      assert [ids[0]] + ids[1..] == ids;
    }
  }

  /** Up to 32 printed ids fit the 1024-byte buffer and are read back as the same list. */
  lemma {:induction false} WhitelistRoundTrip(ids: seq<Int64>)
    requires 1 <= |ids| <= MAX_ALLOWED_USERS
    ensures |Join(Printed(ids))| < USER_BUF
    ensures UserIds(Join(Printed(ids))) == Some(ids)
  {
    hide Print, Strtoll;
    JoinLength(ids);
    forall k | 0 <= k < |ids|
      ensures Printed(ids)[k] != "" && ',' !in Printed(ids)[k]
    {
      assert ids[k..][0] == ids[k];
    }
    TokensOfJoin(Printed(ids));
    IdsOfPrinted(ids, MAX_ALLOWED_USERS);
  }

  // ---- The model names ----

  predicate IsBlank(c: char) { c == ' ' || c == '\t' }

  function TrimLeft(s: string): string { if s != "" && IsBlank(s[0]) then TrimLeft(s[1..]) else s }

  function TrimRight(s: string): string { if s != "" && IsBlank(s[|s| - 1]) then TrimRight(s[..|s| - 1]) else s }

  function Trim(s: string): string { TrimRight(TrimLeft(s)) }

  predicate Blank(s: string) { forall c | c in s :: c == ' ' || c == '\t' }

  /** No blank at either end. */
  predicate Tight(s: string) { s == "" || (s[0] !in {' ', '\t'} && s[|s| - 1] !in {' ', '\t'}) }

  /** s is t between blanks. */
  ghost predicate Pads(s: string, t: string) {
    Tight(t) && exists left, right :: Blank(left) && Blank(right) && s == left + t + right
  }

  lemma {:induction false} TrimLeftOf(left: string, s: string)
    requires Blank(left) && (s == "" || !IsBlank(s[0]))
    ensures TrimLeft(left + s) == s
  {
    if left != "" {
      assert left[0] in left && (left + s)[1..] == left[1..] + s;
      assert forall c | c in left[1..] :: c in left;
      TrimLeftOf(left[1..], s);
    } else {
      assert left + s == s;
    }
  }

  lemma {:induction false} TrimRightOf(s: string, right: string)
    requires Blank(right) && (s == "" || !IsBlank(s[|s| - 1]))
    ensures TrimRight(s + right) == s
    decreases |right|
  {
    if right != "" {
      assert right[|right| - 1] in right;
      var init := right[..|right| - 1];
      assert (s + right)[..|s + right| - 1] == s + init;
      assert forall c | c in init :: c in right;
      TrimRightOf(s, init);
    } else {
      assert s + right == s;
    }
  }

  lemma {:induction false} BlankTrims(s: string)
    requires Blank(s)
    ensures TrimLeft(s) == ""
  {
    assert s + "" == s;
    TrimLeftOf(s, "");
  }

  lemma {:induction false} TrimLeftSplits(s: string) returns (left: string)
    ensures s == left + TrimLeft(s) && Blank(left)
    ensures TrimLeft(s) == "" || !IsBlank(TrimLeft(s)[0])
  {
    left := "";
    if s != "" && IsBlank(s[0]) {
      var more := TrimLeftSplits(s[1..]);
      left := [s[0]] + more;
      assert s == [s[0]] + s[1..];
    }
  }

  lemma {:induction false} TrimRightSplits(s: string) returns (right: string)
    ensures s == TrimRight(s) + right && Blank(right)
    ensures TrimRight(s) == "" || !IsBlank(TrimRight(s)[|TrimRight(s)| - 1])
    decreases |s|
  {
    right := "";
    if s != "" && IsBlank(s[|s| - 1]) {
      var more := TrimRightSplits(s[..|s| - 1]);
      right := more + [s[|s| - 1]];
      assert s == s[..|s| - 1] + [s[|s| - 1]];
    }
  }

  /** Trimming gives exactly what stands between the blanks. */
  lemma {:induction false} TrimIff(s: string, t: string)
    ensures Trim(s) == t <==> Pads(s, t)
  {
    hide TrimLeft, TrimRight;
    if Pads(s, t) {
      var left, right :| Blank(left) && Blank(right) && s == left + t + right;
      if t == "" {
        assert Blank(s);
        BlankTrims(s);
        TrimRightOf("", "");
        assert TrimRight("" + "") == "";
      } else {
        assert s == left + (t + right);
        TrimLeftOf(left, t + right);
        TrimRightOf(t, right);
      }
    }
    var left := TrimLeftSplits(s);
    var right := TrimRightSplits(TrimLeft(s));
    assert s == left + Trim(s) + right;
    assert Trim(s) != "" ==> Trim(s)[0] == TrimLeft(s)[0];
    assert Pads(s, Trim(s));
  }

  /** The first `room` fields with something in them, trimmed and cut. */
  function ModelsIn(fields: seq<string>, room: nat): (models: seq<string>)
    ensures |models| <= room
    decreases |fields|
  {
    if fields == [] || room == 0 then []
    else if Trim(fields[0]) == "" then ModelsIn(fields[1..], room)
    else [Fit(Trim(fields[0]), MODEL_LEN)] + ModelsIn(fields[1..], room - 1)
  }

  /** Stepping over empty fields makes no difference to the models. */
  lemma {:induction false} EmptyFieldsDoNotMatter(fields: seq<string>, room: nat)
    ensures ModelsIn(NonEmpty(fields), room) == ModelsIn(fields, room)
    decreases |fields|
  {
    if fields != [] && room > 0 {
      EmptyFieldsDoNotMatter(fields[1..], room);
      EmptyFieldsDoNotMatter(fields[1..], room - 1);
      var rest := NonEmpty(fields[1..]);
      if fields[0] == "" {
        assert [] + rest == rest;
      } else {
        assert ([fields[0]] + rest)[1..] == rest;
      }
    }
  }

  /** `at` are the first fields from `start` on that are not blank, at most `room` of them. */
  ghost predicate FirstFilled(fields: seq<string>, start: nat, at: seq<nat>, room: nat) {
    && |at| <= room
    && (forall k | 0 <= k < |at| :: start <= at[k] < |fields| && !Blank(fields[at[k]]))
    && (forall k, l | 0 <= k < l < |at| :: at[k] < at[l])
    && (forall i | start <= i < |fields| && !Blank(fields[i]) ::
          i in at || (|at| == room && forall k | 0 <= k < |at| :: at[k] < i))
  }

  /** The model is the field without the blanks around it, cut to 127 characters. */
  ghost predicate Cut(field: string, model: string) { exists t :: Pads(field, t) && model == Fit(t, 128) }

  /** The models are the first eight fields that are not blank, without the blanks around them and cut. */
  lemma {:induction false} ModelsAreFirstFilled(fields: seq<string>) returns (at: seq<nat>)
    ensures FirstFilled(fields, 0, at, 8)
    ensures var models := ModelsIn(fields, MAX_MODELS);
            |models| == |at| && forall k | 0 <= k < |at| :: Cut(fields[at[k]], models[k])
  {
    hide ModelsIn, FirstFilled, Cut;
    at := FilledFrom(fields, 0, MAX_MODELS);
    assert fields[0..] == fields;
  }

  lemma {:induction false} FilledFrom(fields: seq<string>, start: nat, room: nat) returns (at: seq<nat>)
    requires start <= |fields|
    ensures FirstFilled(fields, start, at, room)
    ensures var models := ModelsIn(fields[start..], room);
            |models| == |at| && forall k | 0 <= k < |at| :: Cut(fields[at[k]], models[k])
    decreases |fields| - start
  {
    hide Trim, Pads, Blank, Cut, FirstFilled;
    at := [];
    if start == |fields| || room == 0 {
      NoneFilled(fields, start, room);
    } else {
      var field := fields[start..][0];
      assert fields[start..][1..] == fields[start + 1..];
      CutTrim(field);
      BlankIff(field);
      if Trim(field) == "" {
        at := FilledFrom(fields, start + 1, room);
        OneBlank(fields, start, at, room);
      } else {
        var more := FilledFrom(fields, start + 1, room - 1);
        at := [start] + more;
        OneFilled(fields, start, more, room);
      }
    }
  }

  lemma {:induction false} NoneFilled(fields: seq<string>, start: nat, room: nat)
    requires start == |fields| || room == 0
    ensures FirstFilled(fields, start, [], room)
  {
  }

  lemma {:induction false} OneBlank(fields: seq<string>, start: nat, at: seq<nat>, room: nat)
    requires start < |fields| && Blank(fields[start]) && FirstFilled(fields, start + 1, at, room)
    ensures FirstFilled(fields, start, at, room)
  {
    hide Blank;
  }

  lemma {:induction false} OneFilled(fields: seq<string>, start: nat, more: seq<nat>, room: nat)
    requires start < |fields| && !Blank(fields[start]) && room > 0 && FirstFilled(fields, start + 1, more, room - 1)
    ensures FirstFilled(fields, start, [start] + more, room)
  {
    hide Blank;
    var at := [start] + more;
    assert at[0] == start;
    forall i | i in more
      ensures i in at
    {
    }
  }

  lemma {:induction false} CutTrim(field: string)
    ensures Cut(field, Fit(Trim(field), MODEL_LEN))
  {
    hide Trim, Pads;
    TrimIff(field, Trim(field));
  }

  lemma {:induction false} BlankIff(s: string)
    ensures Blank(s) <==> Trim(s) == ""
  {
    hide Trim;
    TrimIff(s, "");
    if Blank(s) {
      assert Blank("") && s == s + "" + "";
      assert Pads(s, "");
    }
    if Pads(s, "") {
      var left, right :| Blank(left) && Blank(right) && s == left + "" + right;
      assert forall c | c in s :: c in left || c in right;
    }
  }

  /** Names printed with commas and any blanks around them are read back: the first eight, cut to 127 characters. */
  lemma {:induction false} ModelsRoundTrip(names: seq<string>, printed: seq<string>)
    requires names != [] && |printed| == |names| && |Join(printed)| < 512
    requires forall k | 0 <= k < |names| :: names[k] != "" && Pads(printed[k], names[k]) && ',' !in printed[k]
    ensures var models := ModelsIn(Fields(Fit(Join(printed), MODELS_BUF)), MAX_MODELS);
            && |models| == (if |names| < 8 then |names| else 8)
            && forall k | 0 <= k < |models| :: models[k] == Fit(names[k], 128)
  {
    hide Pads;
    FieldsOfJoin(printed);
    ModelsOfPadded(names, printed, MAX_MODELS);
  }

  lemma {:induction false} ModelsOfPadded(names: seq<string>, printed: seq<string>, room: nat)
    requires |printed| == |names|
    requires forall k | 0 <= k < |names| :: names[k] != "" && Pads(printed[k], names[k])
    ensures var models := ModelsIn(printed, room);
            && |models| == (if |names| < room then |names| else room)
            && forall k | 0 <= k < |models| :: models[k] == Fit(names[k], MODEL_LEN)
    decreases |names|
  {
    hide Pads, Trim;
    if names != [] && room > 0 {
      TrimIff(printed[0], names[0]);
      forall k | 0 <= k < |names| - 1
        ensures names[1..][k] != "" && Pads(printed[1..][k], names[1..][k])
      {
        assert names[1..][k] == names[k + 1] && printed[1..][k] == printed[k + 1];
      }
      ModelsOfPadded(names[1..], printed[1..], room - 1);
    }
  }

  method TrimToken(tok: string) returns (r: string)
    ensures r == Trim(tok)
  {
    var i := 0;
    while i < |tok| && IsBlank(tok[i])
      invariant i <= |tok| && TrimLeft(tok[i..]) == TrimLeft(tok)
    {
      i := i + 1;
    }
    var s := tok[i..];
    var len := |s|;
    assert s[..len] == s;
    while len > 0 && IsBlank(s[len - 1])
      invariant len <= |s| && TrimRight(s[..len]) == TrimRight(s)
    {
      len := len - 1;
      assert s[..len + 1][..len] == s[..len];
    }
    r := s[..len];
  }

  /** The model loop of `config_load`. */
  method ParseModels(csv: string, models: array<string>) returns (count: nat)
    requires models.Length == MAX_MODELS
    modifies models
    ensures count <= MAX_MODELS && models[..count] == ModelsIn(Fields(Fit(csv, MODELS_BUF)), MAX_MODELS)
  {
    var buf := Fit(csv, MODELS_BUF);
    TokensAreFields(buf);
    EmptyFieldsDoNotMatter(Fields(buf), MAX_MODELS);
    count := KeepModels(buf, models);
  }

  method KeepModels(buf: string, models: array<string>) returns (count: nat)
    requires models.Length == MAX_MODELS
    modifies models
    ensures count <= MAX_MODELS && models[..count] == ModelsIn(Tokens(buf), MAX_MODELS)
  {
    hide Tokens, Trim, Fit, ModelsIn;
    count := 0;
    assert buf[0..] == buf;
    ghost var left := Tokens(buf);
    var token, next := NextToken(buf, 0);
    while token.Some? && count < MAX_MODELS
      invariant 0 <= count <= MAX_MODELS && 0 <= next <= |buf|
      invariant left == (if token.Some? then [token.value] + Tokens(buf[next..]) else [])
      invariant Extends(models[..count], left, MAX_MODELS - count, Tokens(buf))
      decreases |left|
    {
      hide Extends;
      assert left[0] == token.value && left[1..] == Tokens(buf[next..]);
      ExtendsStep(models[..count], left, MAX_MODELS - count, Tokens(buf));
      count := KeepModel(token.value, models, count);
      left := left[1..];
      token, next := NextToken(buf, next);
    }
    ModelsEnd(left, MAX_MODELS - count);
  }

  /** What is kept so far, followed by the models still to come, is the whole list. */
  predicate Extends(kept: seq<string>, fields: seq<string>, room: nat, all: seq<string>) {
    kept + ModelsIn(fields, room) == ModelsIn(all, MAX_MODELS)
  }

  lemma {:induction false} ExtendsStep(kept: seq<string>, fields: seq<string>, room: nat, all: seq<string>)
    requires Extends(kept, fields, room, all) && fields != [] && room > 0
    ensures if Trim(fields[0]) == "" then Extends(kept + [], fields[1..], room, all)
            else Extends(kept + [Fit(Trim(fields[0]), MODEL_LEN)], fields[1..], room - 1, all)
  {
    hide Trim, Fit;
    if Trim(fields[0]) == "" {
      assert kept + [] == kept;
    } else {
      var model := Fit(Trim(fields[0]), MODEL_LEN);
      var rest := ModelsIn(fields[1..], room - 1);
      assert kept + ([model] + rest) == kept + [model] + rest;
    }
  }

  lemma {:induction false} ModelsEnd(fields: seq<string>, room: nat)
    requires fields == [] || room == 0
    ensures ModelsIn(fields, room) == []
  {
  }

  /** Trim one token and keep it unless it is blank. */
  method KeepModel(token: string, models: array<string>, count: nat) returns (next: nat)
    requires models.Length == MAX_MODELS && count < MAX_MODELS
    modifies models
    ensures next == (if Trim(token) == "" then count else count + 1) && next <= MAX_MODELS
    ensures models[..next] == old(models[..count]) + if Trim(token) == "" then [] else [Fit(Trim(token), MODEL_LEN)]
  {
    hide Trim, Fit;
    var tok := TrimToken(token);
    next := count;
    if tok != "" {
      models[count] := Fit(tok, MODEL_LEN);
      next := count + 1;
    }
  }

  /** For a list that fits the buffer, the models are exactly the first eight fields that are not blank. */
  lemma {:induction false} ModelsAreFirstFields(csv: string)
    requires |csv| < MODELS_BUF
    ensures ModelsIn(Tokens(Fit(csv, MODELS_BUF)), MAX_MODELS) == ModelsIn(Fields(csv), MAX_MODELS)
    ensures forall m | m in ModelsIn(Fields(csv), MAX_MODELS) :: 0 < |m| < MODEL_LEN
  {
    TokensAreFields(csv);
    EmptyFieldsDoNotMatter(Fields(csv), MAX_MODELS);
    ModelsAreShort(Fields(csv), MAX_MODELS);
  }

  lemma {:induction false} ModelsAreShort(fields: seq<string>, room: nat)
    ensures forall k | 0 <= k < |ModelsIn(fields, room)| :: 0 < |ModelsIn(fields, room)[k]| < MODEL_LEN
    decreases |fields|
  {
    if fields != [] && room > 0 {
      ModelsAreShort(fields[1..], if Trim(fields[0]) == "" then room else room - 1);
    }
  }
}
