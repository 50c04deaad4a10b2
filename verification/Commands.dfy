/**
 Command and callback routing in src/telegram/bot_commands.c, against what the user types and what
 the bot prints into its own buttons (src/telegram/bot.c).
 */
module Commands {
  import opened Bytes
  import opened Decimal

  const MODEL_LEN: nat := 128
  const CALLBACK_LEN: nat := 64

  /** What an update makes the bot do. */
  datatype Action =
    | Help
    | Models
    | List
    | DeleteFile(id: Int64)
    | Retry(id: Int64)
    | RetryWith(model: string, id: Int64)
    | Usage(command: string)
    | Invalid(command: string)
    | Unknown

  // ---- Commands ----

  /** `str_starts_with`: the command, and then the end of the text or a space. */
  predicate StartsWith(text: string, cmd: string) {
    && |cmd| <= |text| && text[..|cmd|] == cmd
    && (|text| == |cmd| || text[|cmd|] == ' ')
  }

  function FirstToken(text: string): string {
    if text == "" || text[0] == ' ' then "" else [text[0]] + FirstToken(text[1..])
  }

  /** A matcher holds exactly when the first space-delimited token is its command. */
  lemma {:induction false} StartsWithIsFirstToken(text: string, cmd: string)
    requires ' ' !in cmd && cmd != ""
    ensures StartsWith(text, cmd) <==> FirstToken(text) == cmd
  {
    FirstTokenPrefix(text);
    if StartsWith(text, cmd) {
      TokenEnds(text, |cmd|);
    }
  }

  lemma {:induction false} FirstTokenPrefix(text: string)
    ensures var n := |FirstToken(text)|;
            n <= |text| && FirstToken(text) == text[..n] && (n == |text| || text[n] == ' ')
  {
    if text != "" && text[0] != ' ' {
      FirstTokenPrefix(text[1..]);
    }
  }

  lemma {:induction false} TokenEnds(text: string, n: nat)
    requires n <= |text| && (n == |text| || text[n] == ' ') && ' ' !in text[..n]
    ensures FirstToken(text) == text[..n]
  {
    if n > 0 {
      assert text[0] == text[..n][0];
      assert text[1..][..n - 1] == text[..n][1..];
      TokenEnds(text[1..], n - 1);
    }
  }

  function SkipSpaces(s: string): string { if s != "" && s[0] == ' ' then SkipSpaces(s[1..]) else s }

  /** `strchr(s, c)`: where c first stands, or the length. */
  function IndexOf(s: string, c: char): (n: nat)
    ensures n <= |s|
    ensures n < |s| ==> s[n] == c
    ensures c !in s[..n]
  {
    if s == "" || s[0] == c then 0 else 1 + IndexOf(s[1..], c)
  }

  /** The actions that take an id. */
  datatype Kind = ToDelete | ToRetry | ToRetryWith(model: string)

  function Do(kind: Kind, id: Int64): Action {
    match kind
    case ToDelete => DeleteFile(id)
    case ToRetry => Retry(id)
    case ToRetryWith(model) => RetryWith(model, id)
  }

  /** A numeric argument that must fill the rest of the text. */
  function IdArgument(cmd: string, arg: string, kind: Kind): Action {
    var p := Strtoll(arg);
    if p.end == 0 || p.end != |arg| then Invalid(cmd) else Do(kind, p.value)
  }

  function SingleId(cmd: string, rest: string, kind: Kind): Action {
    var arg := SkipSpaces(rest);
    if arg == "" then Usage(cmd) else IdArgument(cmd, arg, kind)
  }

  function ModelAndId(rest: string): Action {
    var arg := SkipSpaces(rest);
    var n := IndexOf(arg, ' ');
    if arg == "" || n == |arg| || n == 0 then Usage("/retrywith")
    else IdArgument("/retrywith", SkipSpaces(arg[n..]), ToRetryWith(Fit(arg[..n], MODEL_LEN)))
  }

  /** What each command does with the text after it. */
  function Obey(cmd: string, rest: string): Action {
    if cmd == "/start" || cmd == "/help" then Help
    else if cmd == "/models" then Models
    else if cmd == "/list" then List
    else if cmd == "/delete" then SingleId(cmd, rest, ToDelete)
    else if cmd == "/retrywith" then ModelAndId(rest)
    else if cmd == "/retry" then SingleId(cmd, rest, ToRetry)
    else Unknown
  }

  const COMMANDS := ["/start", "/help", "/models", "/list", "/delete", "/retrywith", "/retry"]

  /** The first token decides, and the rest of the text is its argument. */
  function Route(text: string): Action {
    FirstTokenPrefix(text);
    var cmd := FirstToken(text);
    if cmd in COMMANDS then Obey(cmd, text[|cmd|..]) else Unknown
  }

  /** Trying matchers one after the other, in the order of `commands`. */
  function TryInOrder(commands: seq<string>, text: string): Action {
    if commands == [] then Unknown
    else if StartsWith(text, commands[0]) then Obey(commands[0], text[|commands[0]|..])
    else TryInOrder(commands[1..], text)
  }

  /** Any order of the tests, with or without repetitions, routes a text the same way. */
  lemma {:induction false} OrderDoesNotMatter(commands: seq<string>, text: string)
    requires forall c | c in commands :: c in COMMANDS
    ensures TryInOrder(commands, text) == if FirstToken(text) in commands then Route(text) else Unknown
  {
    hide Obey, StartsWith;
    FirstTokenPrefix(text);
    if commands != [] {
      assert commands[0] in commands;
      StartsWithIsFirstToken(text, commands[0]);
      assert forall c | c in commands[1..] :: c in commands;
      OrderDoesNotMatter(commands[1..], text);
    }
  }

  // ---- What users type ----

  function Spaces(n: nat): (s: string)
    ensures |s| == n && forall i | 0 <= i < n :: s[i] == ' '
  {
    seq(n, _ => ' ')
  }

  lemma {:induction false} SkipSpacesOf(n: nat, s: string)
    requires s != "" && s[0] != ' '
    ensures SkipSpaces(Spaces(n) + s) == s
  {
    if n > 0 {
      assert (Spaces(n) + s)[1..] == Spaces(n - 1) + s;
      SkipSpacesOf(n - 1, s);
    } else {
      assert Spaces(0) + s == s;
    }
  }

  lemma {:induction false} PrintedArgument(id: Int64, n: nat, cmd: string, kind: Kind)
    ensures SkipSpaces(Spaces(n) + Print(id)) == Print(id)
    ensures IdArgument(cmd, Print(id), kind) == Do(kind, id)
  {
    hide Print, Strtoll;
    SkipSpacesOf(n, Print(id));
    StrtollOfPrint(id, "");
    assert Print(id) + "" == Print(id);
  }

  lemma {:induction false} DispatchOf(cmd: string, rest: string)
    requires cmd in COMMANDS && (rest == "" || rest[0] == ' ')
    ensures Route(cmd + rest) == Obey(cmd, rest)
  {
    hide Obey;
    var text := cmd + rest;
    assert text[..|cmd|] == cmd && text[|cmd|..] == rest;
    TokenEnds(text, |cmd|);
  }

  /** "/delete", some spaces and any id deletes that id; likewise "/retry". */
  lemma {:induction false} TypedIdIsRecovered(id: Int64, n: nat)
    requires n > 0
    ensures Route("/delete" + (Spaces(n) + Print(id))) == DeleteFile(id)
    ensures Route("/retry" + (Spaces(n) + Print(id))) == Retry(id)
  {
    hide Print, Strtoll, SkipSpaces, IdArgument;
    DispatchOf("/delete", Spaces(n) + Print(id));
    DispatchOf("/retry", Spaces(n) + Print(id));
    PrintedArgument(id, n, "/delete", ToDelete);
    PrintedArgument(id, n, "/retry", ToRetry);
  }

  /** "/retrywith" recovers any model without spaces, cut to 127 characters, and any id. */
  lemma {:induction false} TypedModelIsRecovered(model: string, id: Int64, n: nat, k: nat)
    requires model != "" && ' ' !in model && n > 0 && k > 0
    ensures Route("/retrywith" + (Spaces(n) + (model + (Spaces(k) + Print(id))))) ==
            RetryWith(Fit(model, MODEL_LEN), id)
  {
    hide Print, Strtoll, SkipSpaces, IdArgument, IndexOf;
    var tail := Spaces(k) + Print(id);
    var arg := model + tail;
    DispatchOf("/retrywith", Spaces(n) + arg);
    SkipSpacesOf(n, arg);
    IndexAfter(model, tail, ' ');
    assert arg[..|model|] == model && arg[|model|..] == tail;
    PrintedArgument(id, k, "/retrywith", ToRetryWith(Fit(model, MODEL_LEN)));
  }

  lemma {:induction false} IndexAfter(s: string, rest: string, c: char)
    requires c !in s && rest != "" && rest[0] == c
    ensures IndexOf(s + rest, c) == |s|
  {
    if s != "" {
      assert (s + rest)[1..] == s[1..] + rest;
      IndexAfter(s[1..], rest, c);
    } else {
      assert s + rest == rest;
    }
  }

  // ---- Every text ----

  /** The text is this command, alone or followed by a space. */
  predicate Is(text: string, cmd: string) { text == cmd || cmd + " " <= text }

  lemma {:induction false} IsStartsWith(text: string, cmd: string)
    ensures Is(text, cmd) <==> StartsWith(text, cmd)
  {
    if StartsWith(text, cmd) && |text| > |cmd| {
      assert text[..|cmd| + 1] == cmd + " ";
    }
    if cmd + " " <= text {
      assert text[|cmd|] == (cmd + " ")[|cmd|];
      assert text[..|cmd|] == (cmd + " ")[..|cmd|];
    }
  }

  /** The commands without an argument, and what no command matches. */
  lemma {:induction false} RouteIff(text: string)
    ensures Route(text) == Help <==> Is(text, "/start") || Is(text, "/help")
    ensures Route(text) == Models <==> Is(text, "/models")
    ensures Route(text) == List <==> Is(text, "/list")
    ensures Route(text) == Unknown <==>
              && !Is(text, "/start") && !Is(text, "/help") && !Is(text, "/models") && !Is(text, "/list")
              && !Is(text, "/delete") && !Is(text, "/retrywith") && !Is(text, "/retry")
  {
    hide Is, StartsWith, FirstToken, Strtoll, SkipSpaces, IndexOf;
    forall c | c in COMMANDS
      ensures Is(text, c) <==> FirstToken(text) == c
    {
      IsStartsWith(text, c);
      StartsWithIsFirstToken(text, c);
    }
    assert "/start" in COMMANDS && "/help" in COMMANDS && "/models" in COMMANDS && "/list" in COMMANDS;
    assert "/delete" in COMMANDS && "/retrywith" in COMMANDS && "/retry" in COMMANDS;
    FirstTokenPrefix(text);
  }

  /** Any text is some spaces and an argument that does not begin with one. */
  lemma {:induction false} Split(s: string) returns (n: nat, arg: string)
    ensures s == Spaces(n) + arg && (arg == "" || arg[0] != ' ')
  {
    if s != "" && s[0] == ' ' {
      n, arg := Split(s[1..]);
      n := n + 1;
      assert s == [' '] + s[1..];
      assert Spaces(n) == [' '] + Spaces(n - 1);
    } else {
      n, arg := 0, s;
    }
  }

  lemma {:induction false} SkipAll(n: nat, arg: string)
    requires arg == "" || arg[0] != ' '
    ensures SkipSpaces(Spaces(n) + arg) == arg
  {
    if arg != "" {
      SkipSpacesOf(n, arg);
    } else if n > 0 {
      assert (Spaces(n) + arg)[1..] == Spaces(n - 1) + arg;
      SkipAll(n - 1, arg);
    }
  }

  lemma {:induction false} IdArgumentIff(cmd: string, arg: string, kind: Kind)
    ensures forall id :: IdArgument(cmd, arg, kind) == Do(kind, id) <==> Number(arg, id)
    ensures IdArgument(cmd, arg, kind) == Invalid(cmd) <==> forall id :: !Number(arg, id)
    ensures IdArgument(cmd, arg, kind) == Invalid(cmd) || exists id :: IdArgument(cmd, arg, kind) == Do(kind, id)
  {
    hide Strtoll, Leads;
    StrtollIff(arg);
    forall id | Number(arg, id)
      ensures Strtoll(arg) == Parsed(id, |arg|) && |arg| > 0
    {
      LeaderIsRead(arg, |arg|, id);
    }
    var p := Strtoll(arg);
    if p.end > 0 && p.end == |arg| {
      assert Number(arg, p.value);
      assert IdArgument(cmd, arg, kind) == Do(kind, p.value);
    }
  }

  /**
   What follows "/delete" or "/retry" and its spaces is an id exactly when all of it is one number. Nothing but
   spaces is answered with the usage, and anything else is refused.
   */
  lemma {:induction false} IdCommandIff(cmd: string, n: nat, arg: string)
    requires cmd == "/delete" || cmd == "/retry"
    requires if arg == "" then true else n > 0 && arg[0] != ' '
    ensures var action := Route(cmd + (Spaces(n) + arg));
            && (action == Usage(cmd) <==> arg == "")
            && (action == Invalid(cmd) <==> arg != "" && forall id :: !Number(arg, id))
            && (forall id :: action == (if cmd == "/delete" then DeleteFile(id) else Retry(id)) <==> Number(arg, id))
  {
    hide Strtoll, SkipSpaces, IdArgument, Leads;
    DispatchOf(cmd, Spaces(n) + arg);
    SkipAll(n, arg);
    var kind := if cmd == "/delete" then ToDelete else ToRetry;
    IdArgumentIff(cmd, arg, kind);
    if arg == "" {
      NoNumber();
    }
  }

  lemma {:induction false} NoNumber()
    ensures forall id :: !Number("", id)
  {
  }

  /** "/retrywith" wants a model, a space and then nothing but a number. */
  lemma {:induction false} ModelCommandIff(n: nat, model: string, k: nat, arg: string)
    requires n > 0 && model != "" && ' ' !in model && k > 0 && (arg == "" || arg[0] != ' ')
    ensures var action := Route("/retrywith" + (Spaces(n) + (model + (Spaces(k) + arg))));
            && (action == Invalid("/retrywith") <==> forall id :: !Number(arg, id))
            && (forall m, id :: action == RetryWith(m, id) <==> m == Fit(model, 128) && Number(arg, id))
  {
    hide Strtoll, SkipSpaces, IdArgument, IndexOf, Leads;
    var tail := Spaces(k) + arg;
    DispatchOf("/retrywith", Spaces(n) + (model + tail));
    SkipSpacesOf(n, model + tail);
    IndexAfter(model, tail, ' ');
    assert (model + tail)[..|model|] == model && (model + tail)[|model|..] == tail;
    SkipAll(k, arg);
    IdArgumentIff("/retrywith", arg, ToRetryWith(Fit(model, MODEL_LEN)));
  }

  /** Without a model, or without a space behind it, "/retrywith" answers with its usage. */
  lemma {:induction false} ModelCommandUsage(n: nat, model: string)
    requires ' ' !in model && (model == "" || n > 0)
    ensures Route("/retrywith" + (Spaces(n) + model)) == Usage("/retrywith")
  {
    hide SkipSpaces, IndexOf;
    DispatchOf("/retrywith", Spaces(n) + model);
    SkipAll(n, model);
    assert model == "" || model[0] in model;
  }

  // ---- Buttons ----

  function RetryData(id: Int64): string { "retry:" + Print(id) }

  function DeleteData(id: Int64): string { "delete:" + Print(id) }

  function ModelData(model: string, id: Int64): string { "rwm:" + model + ":" + Print(id) }

  function HasPrefix(s: string, prefix: string): bool { |prefix| <= |s| && s[..|prefix|] == prefix }

  /** The callback branch of `bot_dispatch_update`, for an allowed user. */
  function Callback(data: string): Action {
    if HasPrefix(data, "delete:") then DeleteFile(Strtoll(data[7..]).value)
    else if HasPrefix(data, "retry:") then Retry(Strtoll(data[6..]).value)
    else if HasPrefix(data, "rwm:") then
      var rest := data[4..];
      var n := IndexOf(rest, ':');
      if n == |rest| then Unknown else RetryWith(Fit(rest[..n], MODEL_LEN), Strtoll(rest[n + 1..]).value)
    else Unknown
  }

  /** Every button the bot prints fits its buffer and comes back as the same action on the same id. */
  lemma {:induction false} ButtonsRoundTrip(id: Int64)
    ensures |RetryData(id)| < CALLBACK_LEN && Callback(RetryData(id)) == Retry(id)
    ensures |DeleteData(id)| < CALLBACK_LEN && Callback(DeleteData(id)) == DeleteFile(id)
  {
    hide Print, Strtoll;
    PrintLength(id);
    StrtollOfPrint(id, "");
    assert Print(id) + "" == Print(id);
    assert RetryData(id)[6..] == Print(id) && RetryData(id)[0] == 'r';
    assert DeleteData(id)[7..] == Print(id);
  }

  /** What `strtoll` makes of a text whose end nobody checks: the number that leads it, or 0. */
  ghost predicate Worth(s: string, value: Int64) {
    HasNumber(s, value) || (value == 0 && Numberless(s))
  }

  lemma {:induction false} StrtollIsWorth(s: string, value: Int64)
    ensures Strtoll(s).value == value <==> Worth(s, value)
  {
    hide Strtoll, HasNumber;
    StrtollHasNumber(s);
    if Strtoll(s).end == 0 {
      NothingRead(s);
    } else {
      assert HasNumber(s, Strtoll(s).value);
    }
  }

  /** Callback data is routed by its prefix, and anything else is unknown. */
  lemma {:induction false} CallbackIff(data: string, id: Int64)
    ensures "delete:" <= data ==> (Callback(data) == DeleteFile(id) <==> Worth(data[7..], id))
    ensures "retry:" <= data ==> (Callback(data) == Retry(id) <==> Worth(data[6..], id))
    ensures Callback(data) == Unknown <==>
              !("delete:" <= data) && !("retry:" <= data) && !("rwm:" <= data && ':' in data[4..])
  {
    hide Strtoll, Worth;
    if "delete:" <= data {
      assert data[..7] == "delete:" && data[0] == "delete:"[0] && data[0] != "retry:"[0];
      StrtollIsWorth(data[7..], id);
    } else if "retry:" <= data {
      assert data[..6] == "retry:" && data[0] == "retry:"[0] && data[0] != "delete:"[0];
      StrtollIsWorth(data[6..], id);
    } else if "rwm:" <= data {
      var rest := data[4..];
      assert data[..4] == "rwm:";
      assert ':' in rest <==> IndexOf(rest, ':') < |rest|;
    }
  }

  lemma {:induction false} ModelCallbackIff(model: string, rest: string, id: Int64)
    requires ':' !in model
    ensures Callback("rwm:" + (model + (":" + rest))) == RetryWith(Fit(model, 128), id) <==> Worth(rest, id)
  {
    hide Strtoll, Worth, IndexOf;
    var tail := model + (":" + rest);
    var data := "rwm:" + tail;
    assert data[4..] == tail && data[..4] == "rwm:" && data[0] == 'r' && data[1] == 'w';
    IndexAfter(model, ":" + rest, ':');
    assert tail[..|model|] == model && tail[|model| + 1..] == rest;
    StrtollIsWorth(rest, id);
  }

  /** Data for a retry with a model comes back too, for any model without a colon. */
  lemma {:induction false} ModelButtonRoundTrip(model: string, id: Int64)
    requires ':' !in model
    ensures Callback(ModelData(model, id)) == RetryWith(Fit(model, 128), id)
  {
    hide Callback, Print, Strtoll, Worth;
    StrtollOfPrint(id, "");
    assert Print(id) + "" == Print(id);
    StrtollIsWorth(Print(id), id);
    ModelCallbackIff(model, Print(id), id);
    assert ModelData(model, id) == "rwm:" + (model + (":" + Print(id)));
  }

  // ---- The handler ----

  /** The `while (*arg == ' ') arg++` loops. */
  method Skip(text: string, from: nat) returns (i: nat)
    requires from <= |text|
    ensures i <= |text| && text[i..] == SkipSpaces(text[from..])
  {
    i := from;
    while i < |text| && text[i] == ' '
      invariant i <= |text| && SkipSpaces(text[i..]) == SkipSpaces(text[from..])
    {
      i := i + 1;
    }
  }

  /** `handle_command`. */
  method HandleCommand(text: string) returns (a: Action)
    ensures a == Route(text)
  {
    hide StartsWith, FirstToken;
    forall c | c in COMMANDS
      ensures StartsWith(text, c) <==> FirstToken(text) == c
    {
      StartsWithIsFirstToken(text, c);
    }
    assert "/start" in COMMANDS && "/help" in COMMANDS && "/models" in COMMANDS && "/list" in COMMANDS;
    assert "/delete" in COMMANDS && "/retrywith" in COMMANDS && "/retry" in COMMANDS;
    if StartsWith(text, "/start") || StartsWith(text, "/help") {
      return Help;
    }
    if StartsWith(text, "/models") {
      return Models;
    }
    if StartsWith(text, "/list") {
      return List;
    }
    if StartsWith(text, "/delete") {
      a := HandleId(text, "/delete");
      return;
    }
    if StartsWith(text, "/retrywith") {
      a := HandleRetryWith(text);
      return;
    }
    if StartsWith(text, "/retry") {
      a := HandleId(text, "/retry");
      return;
    }
    return Unknown;
  }

  method HandleId(text: string, cmd: string) returns (a: Action)
    requires cmd == "/delete" || cmd == "/retry"
    requires StartsWith(text, cmd)
    ensures a == Obey(cmd, text[|cmd|..])
  {
    var arg := Skip(text, |cmd|);
    if arg == |text| {
      return Usage(cmd);
    }
    var p := Strtoll(text[arg..]);
    if p.end == 0 || arg + p.end != |text| {
      return Invalid(cmd);
    }
    return if cmd == "/delete" then DeleteFile(p.value) else Retry(p.value);
  }

  method HandleRetryWith(text: string) returns (a: Action)
    requires StartsWith(text, "/retrywith")
    ensures a == ModelAndId(text[10..])
  {
    hide Strtoll;
    var arg := Skip(text, 10);
    if arg == |text| {
      return Usage("/retrywith");
    }
    var n := IndexOf(text[arg..], ' ');
    if arg + n == |text| || n == 0 {
      return Usage("/retrywith");
    }
    var modelLen := if n >= MODEL_LEN then MODEL_LEN - 1 else n;
    var model := text[arg..arg + modelLen];
    assert model == Fit(text[arg..][..n], MODEL_LEN);
    assert text[arg + n..] == text[arg..][n..];
    var idStr := Skip(text, arg + n);
    var p := Strtoll(text[idStr..]);
    if p.end == 0 || idStr + p.end != |text| {
      return Invalid("/retrywith");
    }
    return RetryWith(model, p.value);
  }
}
