/** What long polling guarantees for the updates of src/telegram/bot.c, on every run. */
module Delivery {
  import opened LongPoll

  /** Safety over whole runs, from an empty server and a bot that was never started. */
  lemma {:induction false} EveryRunIsSafe(steps: seq<Step>)
    requires RunOk(INITIAL, steps)
    ensures var s := Final(INITIAL, steps);
            // no update is confirmed before it was dispatched
            && s.confirmed <= s.handled
            // nothing is lost: what was not dispatched is still queued, so delivery is at least once
            && (forall id | id in s.known :: id in s.handled || id in s.queue)
            // within one process life, each update at most once and in increasing order
            && Increasing(s.life)
            // and the server is never asked to forget an update that was not dispatched
            && (forall o, id | o in s.sent && id in s.known && id < o :: id in s.handled)
  {
    RunKeepsInv(INITIAL, steps);
  }

  /** Within one process life the offset never decreases. */
  lemma {:induction false} OffsetNeverDecreases(s: State, step: Step)
    requires Inv(s) && Enabled(s, step) && step != Start
    ensures Next(s, step).offset >= s.offset
  {
    if step == Advance {
      var p := s.phase;
      assert p.batch[p.next..][0] == p.batch[p.next];
    }
  }

  /** The flag is read at the loop head only, so a stopped bot has dispatched all it received. */
  lemma {:induction false} StopFinishesTheBatch(s: State)
    requires Inv(s) && Enabled(s, Exit)
    ensures s.received == s.life && forall id | id in s.received :: id in s.handled
  {
  }

  // ---- One poll on a network that loses nothing ----

  function Handle(n: nat): seq<Step> { if n == 0 then [] else [Dispatch, Advance] + Handle(n - 1) }

  /** Ask, get everything that is queued, dispatch it all. */
  function LosslessPoll(s: State): seq<Step> {
    var n := |AtLeast(s.queue, s.offset)|;
    [Poll, Answer(n), Deliver] + Handle(n) + [EndBatch]
  }

  lemma {:induction false} RunAppend(s: State, a: seq<Step>, b: seq<Step>)
    requires RunOk(s, a) && RunOk(Final(s, a), b)
    ensures RunOk(s, a + b) && Final(s, a + b) == Final(Final(s, a), b)
    decreases |a|
  {
    if a == [] {
      assert a + b == b;
    } else {
      RunAppend(Next(s, a[0]), a[1..], b);
      assert (a + b)[1..] == a[1..] + b;
    }
  }

  /** From s to t the bot works through these updates of its batch, and nothing else happens. */
  predicate WorksThrough(s: State, t: State, ids: seq<UpdateId>) {
    && t.life == s.life + ids && t.offset == OffsetAfter(s.offset, ids)
    && (forall id | id in ids :: id in t.handled)
    && s.handled <= t.handled && t.queue == s.queue && t.known == s.known
    && t.running == s.running && t.sent == s.sent
  }

  lemma {:induction false} WorksFurther(s: State, t: State, u: State, id: UpdateId, rest: seq<UpdateId>)
    requires WorksThrough(s, t, [id]) && WorksThrough(t, u, rest)
    ensures WorksThrough(s, u, [id] + rest)
  {
    assert s.life + [id] + rest == s.life + ([id] + rest);
    assert id in [id];
  }

  lemma {:induction false} HandleRuns(s: State, n: nat)
    requires s.phase.Handling? && !s.phase.dispatched && s.phase.next + n == |s.phase.batch|
    ensures RunOk(s, Handle(n))
    ensures var t := Final(s, Handle(n));
            t.phase == Handling(s.phase.batch, |s.phase.batch|, false) &&
            WorksThrough(s, t, s.phase.batch[s.phase.next..])
    decreases n
  {
    var batch, next := s.phase.batch, s.phase.next;
    if n > 0 {
      hide RunOk, Final, Next, Handle, WorksThrough;
      HandleOne(s);
      var s2 := Final(s, [Dispatch, Advance]);
      HandleRuns(s2, n - 1);
      HandleMore(n);
      RunAppend(s, [Dispatch, Advance], Handle(n - 1));
      WorksFurther(s, s2, Final(s, Handle(n)), batch[next], batch[next + 1..]);
      assert batch[next..] == [batch[next]] + batch[next + 1..];
    } else {
      assert batch[next..] == [];
    }
  }

  lemma {:induction false} HandleMore(n: nat)
    requires n > 0
    ensures Handle(n) == [Dispatch, Advance] + Handle(n - 1)
  {
  }

  lemma {:induction false} HandleOne(s: State)
    requires Enabled(s, Dispatch)
    ensures RunOk(s, [Dispatch, Advance])
    ensures var t := Final(s, [Dispatch, Advance]);
            t.phase == Handling(s.phase.batch, s.phase.next + 1, false) &&
            WorksThrough(s, t, [s.phase.batch[s.phase.next]])
  {
    OneStep(Next(s, Dispatch), Advance);
    assert [Dispatch, Advance][1..] == [Advance];
  }

  lemma {:induction false} OneStep(s: State, step: Step)
    requires Enabled(s, step)
    ensures RunOk(s, [step]) && Final(s, [step]) == Next(s, step)
  {
    assert [step][1..] == [];
  }

  lemma {:induction false} AskRuns(s: State)
    requires Enabled(s, Poll)
    ensures var q := AtLeast(s.queue, s.offset);
            var steps := [Poll, Answer(|q|), Deliver];
            RunOk(s, steps) &&
            var t := Final(s, steps);
            && t.phase == Handling(q, 0, false) && t.life == s.life && t.queue == q
            && t.known == s.known && t.handled == s.handled
  {
    var q := AtLeast(s.queue, s.offset);
    var steps := [Poll, Answer(|q|), Deliver];
    var s1 := Next(s, Poll);
    var s2 := Next(s1, Answer(|q|));
    assert q[..|q|] == q;
    OneStep(s2, Deliver);
    assert steps[1..] == [Answer(|q|), Deliver];
    assert steps[1..][1..] == [Deliver];
    assert Final(s1, steps[1..]) == Final(s2, [Deliver]);
  }

  /** From the loop head, one lossless poll dispatches every update the server knows. */
  lemma {:induction false} LosslessPollDelivers(s: State)
    requires Inv(s) && Enabled(s, Poll)
    ensures RunOk(s, LosslessPoll(s))
    ensures var t := Final(s, LosslessPoll(s));
            t.phase == Head && t.life == s.life + AtLeast(s.queue, s.offset) &&
            forall id | id in s.known :: id in t.handled
  {
    hide AtLeast;
    var q := AtLeast(s.queue, s.offset);
    var ask := [Poll, Answer(|q|), Deliver];
    AskRuns(s);
    var t := Final(s, ask);
    HandleRuns(t, |q|);
    assert q[0..] == q;
    var u := Final(t, Handle(|q|));
    OneStep(u, EndBatch);
    RunAppend(t, Handle(|q|), [EndBatch]);
    RunAppend(s, ask, Handle(|q|) + [EndBatch]);
    assert LosslessPoll(s) == ask + (Handle(|q|) + [EndBatch]);
    forall id | id in s.known
      ensures id in u.handled
    {
      if id in s.queue && id >= s.offset {
        assert id in q;
      }
    }
  }

  /** After a restart, exactly the updates still queued are dispatched (again), each of them once. */
  lemma {:induction false} RestartRedeliversTheQueue(s: State)
    requires Inv(s) && s.phase == Down
    ensures var up := Next(s, Start);
            RunOk(up, LosslessPoll(up)) && Final(up, LosslessPoll(up)).life == s.queue
  {
    var up := Next(s, Start);
    StepKeepsInv(s, Start);
    LosslessPollDelivers(up);
    KeepAll(s.queue);
    assert [] + s.queue == s.queue;
  }

  lemma {:induction false} KeepAll(queue: seq<UpdateId>)
    ensures AtLeast(queue, 0) == queue
  {
    if queue != [] {
      KeepAll(queue[1..]);
    }
  }

  // ---- The loop as the source writes it ----

  /** One element of `result`: an update with its id, or an object without a numeric `update_id`. */
  datatype Item = Update(id: UpdateId) | Unnumbered

  /** What one turn of the loop meets: no usable response, or an array. */
  datatype Turn = NoResponse | Response(items: seq<Item>)

  function Ids(items: seq<Item>): seq<UpdateId> {
    if items == [] then []
    else
      var init := Ids(items[..|items| - 1]);
      match items[|items| - 1]
      case Update(id) => init + [id]
      case Unnumbered => init
  }

  /** These are the ids of the numbered items, in order and each of them once; `at` says where they stand. */
  ghost predicate Numbered(items: seq<Item>, at: seq<nat>, ids: seq<UpdateId>) {
    && |at| == |ids|
    && (forall k | 0 <= k < |at| :: at[k] < |items| && items[at[k]] == Update(ids[k]))
    && (forall k, l | 0 <= k < l < |at| :: at[k] < at[l])
    && (forall i | 0 <= i < |items| && items[i].Update? :: i in at)
  }

  lemma {:induction false} IdsNumbered(items: seq<Item>) returns (at: seq<nat>)
    ensures Numbered(items, at, Ids(items))
    decreases |items|
  {
    at := [];
    if items != [] {
      hide Numbered;
      var init := items[..|items| - 1];
      at := IdsNumbered(init);
      OneMore(init, items[|items| - 1], at, Ids(init));
      assert items == init + [items[|items| - 1]];
      if items[|items| - 1].Update? {
        at := at + [|init|];
      }
    } else {
      assert Ids(items) == [];
    }
  }

  lemma {:induction false} OneMore(init: seq<Item>, item: Item, at: seq<nat>, ids: seq<UpdateId>)
    requires Numbered(init, at, ids)
    ensures if item.Update? then Numbered(init + [item], at + [|init|], ids + [item.id])
            else Numbered(init + [item], at, ids)
  {
    var items, more := init + [item], at + [|init|];
    assert more[|at|] == |init|;
    forall i | 0 <= i < |init| && items[i].Update?
      ensures i in at && i in more
    {
      assert init[i].Update?;
    }
  }

  function OffsetAfter(offset: nat, ids: seq<UpdateId>): nat { if ids == [] then offset else ids[|ids| - 1] + 1 }

  class TgBot {
    var offset: nat
    var running: bool
    /** The updates dispatched, and the offsets asked for, since the bot was created. */
    ghost var life: seq<UpdateId>
    ghost var asked: seq<nat>

    constructor ()
      ensures offset == 0 && running && life == [] && asked == []
    {
      offset, running, life, asked := 0, true, [], [];
    }

    /** The inner loop: dispatch first, move the offset second. */
    method HandleResult(items: seq<Item>) returns (ghost at: seq<nat>)
      modifies `offset, `life
      ensures life == old(life) + Ids(items)
      ensures offset == OffsetAfter(old(offset), Ids(items))
      ensures old(life) <= life && Numbered(items, at, life[|old(life)|..])
      ensures offset == if at == [] then old(offset) else items[at[|at| - 1]].id + 1
    {
      for i := 0 to |items|
        invariant life == old(life) + Ids(items[..i])
        invariant offset == OffsetAfter(old(offset), Ids(items[..i]))
      {
        assert items[..i + 1][..i] == items[..i];
        if items[i].Update? {
          life := life + [items[i].id];
          offset := items[i].id + 1;
        }
      }
      assert items[..|items|] == items;
      at := IdsNumbered(items);
    }

    /** One turn of the loop. */
    method TakeTurn(turn: Turn)
      modifies `offset, `life, `asked
      ensures asked == old(asked) + [old(offset)]
      ensures life == old(life) + TurnIds(turn)
      ensures offset == OffsetAfter(old(offset), TurnIds(turn))
    {
      asked := asked + [offset];
      if turn.Response? {
        var _ := HandleResult(turn.items);
      }
    }

    /** `bot_start`; `stopDuring` is the turn in which another thread clears the flag. */
    method Start(turns: seq<Turn>, stopDuring: nat) returns (ghost at: seq<(nat, nat)>)
      modifies this
      ensures var made := if !old(running) then 0 else if stopDuring < |turns| then stopDuring + 1 else |turns|;
              && life == old(life) + LifeOf(turns[..made])
              && asked == old(asked) + OffsetsOf(old(offset), turns[..made])
              && offset == OffsetAfter(old(offset), LifeOf(turns[..made]))
      ensures running == (old(running) && stopDuring >= |turns|)
      ensures var made := if !old(running) then 0 else if stopDuring < |turns| then stopDuring + 1 else |turns|;
              old(life) <= life && NumberedIn(turns[..made], at, life[|old(life)|..])
      ensures offset == if at == [] then old(offset) else turns[at[|at| - 1].0].items[at[|at| - 1].1].id + 1
    {
      hide LifeOf, OffsetsOf, TurnIds;
      var i := 0;
      NoTurns(offset);
      while i < |turns| && running
        invariant 0 <= i <= |turns|
        invariant running == (old(running) && i <= stopDuring)
        invariant i > 0 ==> old(running) && i <= stopDuring + 1
        invariant life == old(life) + LifeOf(turns[..i])
        invariant asked == old(asked) + OffsetsOf(old(offset), turns[..i])
        invariant offset == OffsetAfter(old(offset), LifeOf(turns[..i]))
      {
        OneTurn(old(offset), turns, i);
        if i == stopDuring {
          running := false;
        }
        TakeTurn(turns[i]);
        i := i + 1;
      }
      at := LifeNumbered(turns[..i]);
    }
  }

  /** The updates of one turn. */
  function TurnIds(turn: Turn): seq<UpdateId> {
    match turn
    case NoResponse => []
    case Response(items) => Ids(items)
  }

  /** The updates dispatched over these turns. */
  function LifeOf(turns: seq<Turn>): seq<UpdateId> {
    if turns == [] then []
    else LifeOf(turns[..|turns| - 1]) + TurnIds(turns[|turns| - 1])
  }

  predicate Earlier(a: (nat, nat), b: (nat, nat)) { a.0 < b.0 || (a.0 == b.0 && a.1 < b.1) }

  predicate At(turns: seq<Turn>, a: (nat, nat), item: Item) {
    a.0 < |turns| && turns[a.0].Response? && a.1 < |turns[a.0].items| && turns[a.0].items[a.1] == item
  }

  /** The same over several turns: `at` gives the turn and the place in its response. */
  ghost predicate NumberedIn(turns: seq<Turn>, at: seq<(nat, nat)>, ids: seq<UpdateId>) {
    && |at| == |ids|
    && (forall k | 0 <= k < |at| :: At(turns, at[k], Update(ids[k])))
    && (forall k, l | 0 <= k < l < |at| :: Earlier(at[k], at[l]))
    && (forall a: (nat, nat), id | At(turns, a, Update(id)) :: a in at)
  }

  function Tagged(turn: nat, at: seq<nat>): (tagged: seq<(nat, nat)>)
    ensures |tagged| == |at|
    ensures forall k | 0 <= k < |at| :: tagged[k] == (turn, at[k])
  {
    seq(|at|, k requires 0 <= k < |at| => (turn, at[k]))
  }

  /** Over any turns, each update that came is dispatched once, in the order of turns and of places in them. */
  lemma {:induction false} LifeNumbered(turns: seq<Turn>) returns (at: seq<(nat, nat)>)
    ensures NumberedIn(turns, at, LifeOf(turns))
    decreases |turns|
  {
    at := [];
    if turns != [] {
      hide Numbered, NumberedIn, Ids;
      var n := |turns| - 1;
      var before := LifeNumbered(turns[..n]);
      match turns[n]
      case NoResponse =>
        at := before;
        QuietTurn(turns, at, LifeOf(turns[..n]));
        assert LifeOf(turns[..n]) + [] == LifeOf(turns[..n]);
      case Response(items) =>
        var last := IdsNumbered(items);
        at := before + Tagged(n, last);
        LoudTurn(turns, before, LifeOf(turns[..n]), last, Ids(items));
    }
  }

  lemma {:induction false} QuietTurn(turns: seq<Turn>, at: seq<(nat, nat)>, ids: seq<UpdateId>)
    requires turns != [] && turns[|turns| - 1].NoResponse? && NumberedIn(turns[..|turns| - 1], at, ids)
    ensures NumberedIn(turns, at, ids)
  {
    var front := turns[..|turns| - 1];
    assert forall a: (nat, nat), item :: At(turns, a, item) <==> At(front, a, item);
  }

  lemma {:induction false} LoudTurn(
    turns: seq<Turn>, before: seq<(nat, nat)>, ids: seq<UpdateId>, last: seq<nat>, more: seq<UpdateId>)
    requires turns != [] && turns[|turns| - 1].Response? && NumberedIn(turns[..|turns| - 1], before, ids)
    requires Numbered(turns[|turns| - 1].items, last, more)
    ensures NumberedIn(turns, before + Tagged(|turns| - 1, last), ids + more)
  {
    var n := |turns| - 1;
    var front, at, tagged := turns[..n], before + Tagged(n, last), Tagged(n, last);
    forall k | 0 <= k < |at|
      ensures At(turns, at[k], Update((ids + more)[k]))
    {
      if k < |before| {
        assert At(front, before[k], Update(ids[k]));
      }
    }
    forall a: (nat, nat), id | At(turns, a, Update(id))
      ensures a in at
    {
      if a.0 < n {
        assert At(front, a, Update(id));
      } else {
        var k :| 0 <= k < |last| && last[k] == a.1;
        assert at[|before| + k] == a;
      }
    }
    forall k, l | 0 <= k < l < |at|
      ensures Earlier(at[k], at[l])
    {
      if k < |before| {
        assert At(front, before[k], Update(ids[k]));
      }
    }
  }

  /** The offset each turn asks for. */
  function OffsetsOf(offset: nat, turns: seq<Turn>): (s: seq<nat>)
    ensures |s| == |turns|
  {
    if turns == [] then []
    else OffsetsOf(offset, turns[..|turns| - 1]) + [OffsetAfter(offset, LifeOf(turns[..|turns| - 1]))]
  }

  lemma {:induction false} NoTurns(offset: nat)
    ensures LifeOf([]) == [] && OffsetsOf(offset, []) == [] && OffsetAfter(offset, []) == offset
  {
  }

  /** Turn k asks for what comes after everything the turns before it brought. */
  lemma {:induction false} OffsetOfTurn(offset: nat, turns: seq<Turn>, k: nat)
    requires k < |turns|
    ensures var ids := LifeOf(turns[..k]);
            OffsetsOf(offset, turns)[k] == if ids == [] then offset else ids[|ids| - 1] + 1
    decreases |turns|
  {
    hide LifeOf;
    if k < |turns| - 1 {
      assert turns[..|turns| - 1][..k] == turns[..k];
      OffsetOfTurn(offset, turns[..|turns| - 1], k);
    }
  }

  lemma {:induction false} OneTurn(offset: nat, turns: seq<Turn>, i: nat)
    requires i < |turns|
    ensures var before, ids := turns[..i], TurnIds(turns[i]);
            && LifeOf(turns[..i + 1]) == LifeOf(before) + ids
            && OffsetsOf(offset, turns[..i + 1]) == OffsetsOf(offset, before) + [OffsetAfter(offset, LifeOf(before))]
            && OffsetAfter(offset, LifeOf(before) + ids) == OffsetAfter(OffsetAfter(offset, LifeOf(before)), ids)
  {
    assert turns[..i + 1][..i] == turns[..i];
  }
}
