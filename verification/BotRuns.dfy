/**
 The bot's loop is the protocol: `bot_start`, on anything an update server can answer, goes through the
 steps of LongPoll, so what every run of the protocol guarantees holds for the loop as it is written.
 */
module BotRuns {
  import opened LongPoll
  import opened Delivery

  /** What the server does before a turn, and what the turn meets. */
  datatype Exchange = Exchange(before: seq<Step>, turn: Turn)

  predicate ServerStep(step: Step) { step.Enqueue? || step.Request? }

  /** A response holds a prefix of what the server has from the offset on; any request may also fail. */
  predicate CanGive(s: State, turn: Turn) { turn.Response? ==> Ids(turn.items) <= AtLeast(s.queue, s.offset) }

  function Reply(turn: Turn): seq<Step> {
    match turn
    case NoResponse => [Fail]
    case Response(items) => [Answer(|Ids(items)|), Deliver] + Handle(|Ids(items)|) + [EndBatch]
  }

  /** One turn of the loop; `stops` says whether another thread clears the flag during it. */
  function TurnSteps(turn: Turn, stops: bool): seq<Step> { [Poll] + (if stops then [Stop] else []) + Reply(turn) }

  /** The turns of a loop whose flag is cleared during turn `stopDuring`. */
  function LoopSteps(exchanges: seq<Exchange>, stopDuring: nat): seq<Step> {
    if exchanges == [] then []
    else
      var n := |exchanges| - 1;
      LoopSteps(exchanges[..n], stopDuring) + (exchanges[n].before + TurnSteps(exchanges[n].turn, n == stopDuring))
  }

  function Turns(exchanges: seq<Exchange>): (turns: seq<Turn>)
    ensures |turns| == |exchanges|
    ensures forall i | 0 <= i < |turns| :: turns[i] == exchanges[i].turn
  {
    seq(|exchanges|, i requires 0 <= i < |exchanges| => exchanges[i].turn)
  }

  predicate ExchangeOk(s: State, e: Exchange) {
    (forall step | step in e.before :: ServerStep(step)) && RunOk(s, e.before) && CanGive(Final(s, e.before), e.turn)
  }

  /** Every turn meets something the server can give at that point. */
  predicate ServerGives(s: State, exchanges: seq<Exchange>, stopDuring: nat) {
    exchanges == [] ||
    var n := |exchanges| - 1;
    var steps := LoopSteps(exchanges[..n], stopDuring);
    ServerGives(s, exchanges[..n], stopDuring) && (RunOk(s, steps) ==> ExchangeOk(Final(s, steps), exchanges[n]))
  }

  // ---- One turn ----

  lemma {:induction false} ServerStepsKeep(s: State, steps: seq<Step>)
    requires RunOk(s, steps) && forall step | step in steps :: ServerStep(step)
    ensures var t := Final(s, steps);
            t.phase == s.phase && t.running == s.running && t.life == s.life && t.offset == s.offset && t.sent == s.sent
    decreases |steps|
  {
    if steps != [] {
      assert steps[0] in steps;
      ServerStepsKeep(Next(s, steps[0]), steps[1..]);
    }
  }

  /** Asking, with the flag cleared or not while the request is out. */
  lemma {:induction false} Asks(s: State, stops: bool)
    requires Enabled(s, Poll)
    ensures var steps := [Poll] + if stops then [Stop] else [];
            RunOk(s, steps) &&
            Final(s, steps) == s.(phase := Waiting, sent := s.sent + {s.offset}, reply := [], running := !stops)
  {
    OneStep(s, Poll);
    var s1 := Next(s, Poll);
    OneStep(s1, Stop);
    if stops {
      RunAppend(s, [Poll], [Stop]);
    } else {
      assert [Poll] + [] == [Poll];
    }
  }

  lemma {:induction false} Receives(s: State, n: nat)
    requires s.phase == Waiting && s.offset in s.sent && n <= |AtLeast(s.queue, s.offset)|
    ensures RunOk(s, [Answer(n), Deliver])
    ensures var t := Final(s, [Answer(n), Deliver]);
            && t.phase == Handling(AtLeast(s.queue, s.offset)[..n], 0, false)
            && t.life == s.life && t.offset == s.offset && t.running == s.running && t.sent == s.sent
  {
    OneStep(Next(s, Answer(n)), Deliver);
    assert [Answer(n), Deliver][1..] == [Deliver];
  }

  /** The bot works through what it received and is back at the head of its loop. */
  lemma {:induction false} Finishes(s: State)
    requires s.phase.Handling? && !s.phase.dispatched && s.phase.next == 0
    ensures var batch := s.phase.batch;
            var steps := Handle(|batch|) + [EndBatch];
            RunOk(s, steps) &&
            var t := Final(s, steps);
            && t.phase == Head && t.life == s.life + batch && t.offset == OffsetAfter(s.offset, batch)
            && t.running == s.running && t.sent == s.sent
  {
    var batch := s.phase.batch;
    HandleRuns(s, |batch|);
    assert batch[0..] == batch;
    OneStep(Final(s, Handle(|batch|)), EndBatch);
    RunAppend(s, Handle(|batch|), [EndBatch]);
  }

  lemma {:induction false} ReplyIsRun(s: State, turn: Turn)
    requires s.phase == Waiting && s.offset in s.sent && CanGive(s, turn)
    ensures RunOk(s, Reply(turn))
    ensures var t := Final(s, Reply(turn));
            && t.phase == Head && t.life == s.life + TurnIds(turn) && t.offset == OffsetAfter(s.offset, TurnIds(turn))
            && t.running == s.running && t.sent == s.sent
  {
    match turn
    case NoResponse => OneStep(s, Fail);
    case Response(items) =>
      var ids := Ids(items);
      var steps := [Answer(|ids|), Deliver];
      Receives(s, |ids|);
      hide RunOk, Final, Next, Handle;
      Finishes(Final(s, steps));
      RunAppend(s, steps, Handle(|ids|) + [EndBatch]);
      assert Reply(turn) == steps + (Handle(|ids|) + [EndBatch]);
  }

  /** Every turn on an answer the server can give is a piece of a run. */
  lemma {:induction false} TurnIsRun(s: State, turn: Turn, stops: bool)
    requires Enabled(s, Poll) && CanGive(s, turn)
    ensures RunOk(s, TurnSteps(turn, stops))
    ensures var t := Final(s, TurnSteps(turn, stops));
            && t.phase == Head && t.life == s.life + TurnIds(turn) && t.offset == OffsetAfter(s.offset, TurnIds(turn))
            && t.running == !stops && t.sent == s.sent + {s.offset}
  {
    Asks(s, stops);
    hide RunOk, Final, Next, Reply;
    var ask := [Poll] + if stops then [Stop] else [];
    ReplyIsRun(Final(s, ask), turn);
    RunAppend(s, ask, Reply(turn));
  }

  // ---- The loop ----

  /** The state t the loop is in after these turns from s. */
  predicate LoopReaches(s: State, t: State, turns: seq<Turn>, running: bool) {
    && t.phase == Head && t.running == running
    && t.life == s.life + LifeOf(turns) && t.offset == OffsetAfter(s.offset, LifeOf(turns))
    && (forall offset | offset in OffsetsOf(s.offset, turns) :: offset in t.sent)
  }

  lemma {:induction false} ExchangeIsRun(s: State, t: State, turns: seq<Turn>, e: Exchange, stops: bool)
    requires LoopReaches(s, t, turns, true) && ExchangeOk(t, e)
    ensures RunOk(t, e.before + TurnSteps(e.turn, stops))
    ensures LoopReaches(s, Final(t, e.before + TurnSteps(e.turn, stops)), turns + [e.turn], !stops)
  {
    ServerStepsKeep(t, e.before);
    TurnIsRun(Final(t, e.before), e.turn, stops);
    hide RunOk, Final, TurnSteps, OffsetAfter, LifeOf, OffsetsOf, TurnIds, CanGive, Enabled;
    RunAppend(t, e.before, TurnSteps(e.turn, stops));
    ReachesFurther(s, t, Final(t, e.before + TurnSteps(e.turn, stops)), turns, e.turn, !stops);
  }

  lemma {:induction false} ReachesFurther(s: State, t: State, u: State, turns: seq<Turn>, turn: Turn, running: bool)
    requires LoopReaches(s, t, turns, true)
    requires u.phase == Head && u.running == running && u.sent == t.sent + {t.offset}
    requires u.life == t.life + TurnIds(turn) && u.offset == OffsetAfter(t.offset, TurnIds(turn))
    ensures LoopReaches(s, u, turns + [turn], running)
  {
    hide OffsetAfter, LifeOf, OffsetsOf, TurnIds;
    OneTurn(s.offset, turns + [turn], |turns|);
    assert (turns + [turn])[..|turns|] == turns && (turns + [turn])[..|turns| + 1] == turns + [turn];
    assert s.life + LifeOf(turns) + TurnIds(turn) == s.life + (LifeOf(turns) + TurnIds(turn));
  }

  /** The loop of `bot_start`, up to the turn in which the flag is cleared, is a run of the protocol. */
  lemma {:induction false} LoopIsRun(s: State, exchanges: seq<Exchange>, stopDuring: nat)
    requires s.phase == Head && s.running && |exchanges| <= stopDuring + 1
    requires ServerGives(s, exchanges, stopDuring)
    ensures RunOk(s, LoopSteps(exchanges, stopDuring))
    ensures LoopReaches(s, Final(s, LoopSteps(exchanges, stopDuring)), Turns(exchanges), |exchanges| <= stopDuring)
    decreases |exchanges|
  {
    if exchanges == [] {
      NoTurns(s.offset);
      assert Turns(exchanges) == [];
    } else {
      hide LoopReaches, ExchangeOk, TurnSteps, RunOk, Final;
      var n := |exchanges| - 1;
      var init, e := exchanges[..n], exchanges[n];
      LoopIsRun(s, init, stopDuring);
      var t := Final(s, LoopSteps(init, stopDuring));
      ExchangeIsRun(s, t, Turns(init), e, n == stopDuring);
      RunAppend(s, LoopSteps(init, stopDuring), e.before + TurnSteps(e.turn, n == stopDuring));
      assert Turns(exchanges) == Turns(init) + [e.turn];
    }
  }

  /** The turns that are taken: all up to the one in which the flag is cleared. */
  function Made(exchanges: seq<Exchange>, stopDuring: nat): seq<Exchange> {
    if stopDuring < |exchanges| then exchanges[..stopDuring + 1] else exchanges
  }

  /**
   `bot_new` and `bot_start`: one process life of the loop as the source writes it, next to the run of
   the protocol it follows. Both dispatch the same updates and end with the same offset.
   */
  method OneLife(turns: seq<Turn>, stopDuring: nat, ghost down: State, ghost exchanges: seq<Exchange>)
    returns (bot: TgBot, ghost at: seq<(nat, nat)>)
    requires Inv(down) && down.phase == Down && Turns(exchanges) == turns
    requires ServerGives(Next(down, Start), Made(exchanges, stopDuring), stopDuring)
    ensures fresh(bot)
    ensures var steps := [Start] + LoopSteps(Made(exchanges, stopDuring), stopDuring);
            RunOk(down, steps) &&
            var t := Final(down, steps);
            && Inv(t) && t.phase == Head && t.running == bot.running
            && bot.life == t.life && bot.offset == t.offset
            && (forall offset | offset in bot.asked :: offset in t.sent)
    ensures NumberedIn(turns[..if stopDuring < |turns| then stopDuring + 1 else |turns|], at, bot.life)
    ensures bot.offset == if bot.life == [] then 0 else bot.life[|bot.life| - 1] + 1
  {
    hide OffsetsOf, LifeOf, NumberedIn, ServerGives, LoopSteps;
    bot := new TgBot();
    at := bot.Start(turns, stopDuring);
    assert bot.life[0..] == bot.life;
    ghost var made := Made(exchanges, stopDuring);
    ghost var up := Next(down, Start);
    LoopIsRun(up, made, stopDuring);
    LifeIsRun(down, LoopSteps(made, stopDuring));
    assert Turns(made) == if stopDuring < |turns| then turns[..stopDuring + 1] else turns[..|turns|];
  }

  lemma {:induction false} LifeIsRun(down: State, steps: seq<Step>)
    requires Inv(down) && down.phase == Down && RunOk(Next(down, Start), steps)
    ensures RunOk(down, [Start] + steps) && Final(down, [Start] + steps) == Final(Next(down, Start), steps)
    ensures Inv(Final(down, [Start] + steps))
  {
    hide Inv, Next;
    OneStep(down, Start);
    RunAppend(down, [Start], steps);
    RunKeepsInv(down, [Start] + steps);
  }
}
