/**
 Long polling in src/telegram/bot.c as a protocol: the bot, the update server, and a network that may
 lose, delay or repeat requests and lose responses. The process may be stopped or may crash.
 */
module LongPoll {
  type UpdateId = nat

  /** Where the bot is in `bot_start`. */
  datatype Phase =
    | Down
    | Head
    | Waiting
    /** In the inner loop before update `next`; `dispatched` once its handler has returned. */
    | Handling(batch: seq<UpdateId>, next: nat, dispatched: bool)

  datatype State = State(
    // server
    queue: seq<UpdateId>,
    known: set<UpdateId>,
    confirmed: set<UpdateId>,
    last: UpdateId,
    // network: every offset ever sent may still reach the server, at any time and any number of times
    sent: set<nat>,
    reply: seq<UpdateId>,
    // bot
    phase: Phase,
    running: bool,
    offset: nat,
    // history
    life: seq<UpdateId>,
    received: seq<UpdateId>,
    handled: set<UpdateId>)

  const INITIAL := State([], {}, {}, 0, {}, [], Down, false, 0, [], [], {})

  datatype Step =
    | Enqueue(id: UpdateId)
    | Start
    | Poll
    | Request(offset: nat)
    | Answer(count: nat)
    | Deliver
    | Fail
    | Dispatch
    | Advance
    | EndBatch
    | Stop
    | Exit
    | Crash

  /** What the server keeps when a request with this offset arrives. */
  function AtLeast(queue: seq<UpdateId>, offset: nat): (q: seq<UpdateId>)
    ensures forall id :: id in q <==> id in queue && id >= offset
  {
    if queue == [] then []
    else if queue[0] < offset then AtLeast(queue[1..], offset)
    else [queue[0]] + AtLeast(queue[1..], offset)
  }

  predicate Increasing(s: seq<UpdateId>) { forall i, j | 0 <= i < j < |s| :: s[i] < s[j] }

  predicate Enabled(s: State, step: Step) {
    match step
    case Enqueue(id) => id > s.last
    case Start => s.phase == Down
    case Poll => s.phase == Head && s.running
    case Request(offset) => offset in s.sent
    case Answer(count) => s.phase == Waiting && s.offset in s.sent && count <= |AtLeast(s.queue, s.offset)|
    case Deliver => s.phase == Waiting
    case Fail => s.phase == Waiting
    case Dispatch => s.phase.Handling? && s.phase.next < |s.phase.batch| && !s.phase.dispatched
    case Advance => s.phase.Handling? && s.phase.next < |s.phase.batch| && s.phase.dispatched
    case EndBatch => s.phase.Handling? && s.phase.next == |s.phase.batch|
    case Stop => true
    case Exit => s.phase == Head && !s.running
    case Crash => s.phase != Down
  }

  /** A request with this offset reaches the server, which forgets everything below it. */
  function Confirm(s: State, offset: nat): State {
    s.(queue := AtLeast(s.queue, offset), confirmed := s.confirmed + (set id | id in s.queue && id < offset))
  }

  function Next(s: State, step: Step): State
    requires Enabled(s, step)
  {
    match step
    case Enqueue(id) => s.(queue := s.queue + [id], known := s.known + {id}, last := id)
    case Start => s.(phase := Head, running := true, offset := 0, life := [], received := [])
    case Poll => s.(phase := Waiting, sent := s.sent + {s.offset}, reply := [])
    case Request(offset) => Confirm(s, offset)
    case Answer(count) => Confirm(s, s.offset).(reply := AtLeast(s.queue, s.offset)[..count])
    case Deliver => s.(phase := Handling(s.reply, 0, false), received := s.received + s.reply)
    case Fail => s.(phase := Head)
    case Dispatch =>
      var id := s.phase.batch[s.phase.next];
      s.(phase := s.phase.(dispatched := true), life := s.life + [id], handled := s.handled + {id})
    case Advance =>
      s.(phase := Handling(s.phase.batch, s.phase.next + 1, false), offset := s.phase.batch[s.phase.next] + 1)
    case EndBatch => s.(phase := Head)
    case Stop => s.(running := false)
    case Exit => s.(phase := Down)
    case Crash => s.(phase := Down)
  }

  predicate RunOk(s: State, steps: seq<Step>)
    decreases |steps|
  {
    steps == [] || (Enabled(s, steps[0]) && RunOk(Next(s, steps[0]), steps[1..]))
  }

  function Final(s: State, steps: seq<Step>): State
    requires RunOk(s, steps)
    decreases |steps|
  {
    if steps == [] then s else Final(Next(s, steps[0]), steps[1..])
  }

  // ---- The invariant ----

  /** Everything the server ever queued below this offset has been dispatched. */
  predicate Covered(s: State, offset: nat) {
    offset <= s.last + 1 && forall id | id in s.known && id < offset :: id in s.handled
  }

  predicate ServerOk(s: State) {
    && Increasing(s.queue)
    && (forall id | id in s.known :: id <= s.last)
    && (forall id | id in s.queue :: id in s.known && id !in s.confirmed)
    && (forall id | id in s.known :: id in s.queue || id in s.confirmed)
    && (forall id | id in s.confirmed :: id in s.known)
    && (forall id | id in s.handled :: id in s.known)
  }

  /** Nothing between the offset and the end of this list is missing from it, except what was dispatched. */
  predicate NoGaps(s: State, batch: seq<UpdateId>, from: nat) {
    && Increasing(batch)
    && (forall i | 0 <= i < |batch| :: batch[i] in s.known && batch[i] >= from)
    && (forall i, id | 0 <= i < |batch| && id in s.known && from <= id < batch[i] :: id in batch || id in s.handled)
  }

  /** The updates of the current batch that still have to be dispatched. */
  function Remaining(p: Phase): seq<UpdateId> {
    if !p.Handling? || p.next > |p.batch| then []
    else if p.dispatched && p.next < |p.batch| then p.batch[p.next + 1..]
    else p.batch[p.next..]
  }

  predicate BotOk(s: State) {
    && Covered(s, s.offset)
    && Increasing(s.life)
    && (forall id | id in s.life :: id in s.handled)
    && (s.phase == Waiting ==> NoGaps(s, s.reply, s.offset))
    && match s.phase
       case Handling(batch, next, dispatched) =>
         && next <= |batch| && (dispatched ==> next < |batch|)
         && NoGaps(s, batch[next..], s.offset)
         && (dispatched ==> s.life != [] && s.life[|s.life| - 1] == batch[next])
         && (!dispatched ==> forall id | id in s.life :: id < s.offset)
         && s.received == s.life + Remaining(s.phase)
       case Down => true
       case _ => (forall id | id in s.life :: id < s.offset) && s.received == s.life
  }

  predicate Inv(s: State) {
    && ServerOk(s) && BotOk(s)
    && (forall id | id in s.confirmed :: id in s.handled)
    && (forall o | o in s.sent :: Covered(s, o))
  }

  lemma {:induction false} AtLeastIncreasing(queue: seq<UpdateId>, offset: nat)
    requires Increasing(queue)
    ensures Increasing(AtLeast(queue, offset))
  {
    if queue != [] {
      AtLeastIncreasing(queue[1..], offset);
      var rest := AtLeast(queue[1..], offset);
      forall i | 0 <= i < |rest|
        ensures queue[0] < rest[i]
      {
        assert rest[i] in queue[1..];
      }
    }
  }

  lemma {:induction false} ConfirmKeepsInv(s: State, offset: nat)
    requires Inv(s) && offset in s.sent
    ensures Inv(Confirm(s, offset))
  {
    AtLeastIncreasing(s.queue, offset);
  }

  /** A prefix of what the server still holds leaves no gap. */
  lemma {:induction false} ReplyHasNoGaps(s: State, count: nat)
    requires Inv(s) && count <= |AtLeast(s.queue, s.offset)|
    ensures NoGaps(s, AtLeast(s.queue, s.offset)[..count], s.offset)
  {
    var q := AtLeast(s.queue, s.offset);
    var batch := q[..count];
    AtLeastIncreasing(s.queue, s.offset);
    assert forall i | 0 <= i < count :: batch[i] == q[i] && q[i] in q;
    forall i, id | 0 <= i < count && id in s.known && s.offset <= id < batch[i]
      ensures id in batch || id in s.handled
    {
      if id in s.queue {
        var k :| 0 <= k < |q| && q[k] == id;
        assert batch[k] == id;
      }
    }
  }

  lemma {:induction false} AnswerKeepsInv(s: State, count: nat)
    requires Inv(s) && Enabled(s, Answer(count))
    ensures Inv(Next(s, Answer(count)))
  {
    ReplyHasNoGaps(s, count);
    ConfirmKeepsInv(s, s.offset);
    NewReply(Confirm(s, s.offset), AtLeast(s.queue, s.offset)[..count]);
  }

  lemma {:induction false} NewReply(s: State, reply: seq<UpdateId>)
    requires Inv(s) && s.phase == Waiting && NoGaps(s, reply, s.offset)
    ensures Inv(s.(reply := reply))
  {
    hide Increasing;
  }

  lemma {:induction false} IncreasingAppend(s: seq<UpdateId>, id: UpdateId)
    requires Increasing(s) && forall x | x in s :: x < id
    ensures Increasing(s + [id])
  {
    assert forall i | 0 <= i < |s| :: s[i] in s;
  }

  /** Dispatching more never opens a gap or uncovers an offset. */
  lemma {:induction false} MoreHandled(s: State, t: State, batch: seq<UpdateId>, from: nat)
    requires t.known == s.known && t.last == s.last && s.handled <= t.handled
    ensures NoGaps(s, batch, from) ==> NoGaps(t, batch, from)
    ensures Covered(s, from) ==> Covered(t, from)
  {
  }

  lemma {:induction false} DispatchKeepsInv(s: State)
    requires Inv(s) && Enabled(s, Dispatch)
    ensures Inv(Next(s, Dispatch))
  {
    var p, t := s.phase, Next(s, Dispatch);
    assert p.batch[p.next..][0] == p.batch[p.next];
    assert Remaining(p) == [p.batch[p.next]] + p.batch[p.next + 1..];
    IncreasingAppend(s.life, p.batch[p.next]);
    MoreHandled(s, t, p.batch[p.next..], s.offset);
    forall o | o in s.sent ensures Covered(t, o) { MoreHandled(s, t, [], o); }
    hide Increasing, NoGaps, Covered;
  }

  lemma {:induction false} AdvanceKeepsInv(s: State)
    requires Inv(s) && Enabled(s, Advance)
    ensures Inv(Next(s, Advance))
  {
    var p, rest := s.phase, s.phase.batch[s.phase.next..];
    assert rest[0] == p.batch[p.next];
    assert p.batch[p.next + 1..] == rest[1..];
    assert forall id | id in s.life :: id <= rest[0];
    FirstCovers(s, rest);
    RestHasNoGaps(s, rest);
    hide NoGaps, Covered;
  }

  /** Once the first update of a list without gaps is dispatched, everything up to it is. */
  lemma {:induction false} FirstCovers(s: State, rest: seq<UpdateId>)
    requires ServerOk(s) && Covered(s, s.offset) && NoGaps(s, rest, s.offset) && rest != [] && rest[0] in s.handled
    ensures Covered(s, rest[0] + 1)
  {
    assert rest[0] in s.known;
    forall id | id in s.known && id < rest[0] + 1
      ensures id in s.handled
    {
      assert id < rest[0] ==> id !in rest;
    }
  }

  lemma {:induction false} RestHasNoGaps(s: State, rest: seq<UpdateId>)
    requires NoGaps(s, rest, s.offset) && rest != []
    ensures NoGaps(s, rest[1..], rest[0] + 1)
  {
    assert forall i | 0 <= i < |rest[1..]| :: rest[1..][i] == rest[i + 1];
    assert forall id | id in rest && id > rest[0] :: id in rest[1..];
  }

  lemma {:induction false} EnqueueKeepsInv(s: State, id: UpdateId)
    requires Inv(s) && Enabled(s, Enqueue(id))
    ensures Inv(Next(s, Enqueue(id)))
  {
    IncreasingAppend(s.queue, id);
    hide Increasing;
  }

  lemma {:induction false} ControlKeepsInv(s: State, step: Step)
    requires Inv(s) && Enabled(s, step) && (step.Start? || step.Poll? || step.Stop? || step.Exit? || step.Crash?)
    ensures Inv(Next(s, step))
  {
  }

  lemma {:induction false} ReplyKeepsInv(s: State, step: Step)
    requires Inv(s) && Enabled(s, step) && (step.Deliver? || step.Fail? || step.EndBatch?)
    ensures Inv(Next(s, step))
  {
    assert s.reply[0..] == s.reply;
  }

  lemma {:induction false} StepKeepsInv(s: State, step: Step)
    requires Inv(s) && Enabled(s, step)
    ensures Inv(Next(s, step))
  {
    hide Inv;
    match step
    case Request(offset) => ConfirmKeepsInv(s, offset);
    case Answer(count) => AnswerKeepsInv(s, count);
    case Dispatch => DispatchKeepsInv(s);
    case Advance => AdvanceKeepsInv(s);
    case Enqueue(id) => EnqueueKeepsInv(s, id);
    case Start => ControlKeepsInv(s, step);
    case Poll => ControlKeepsInv(s, step);
    case Stop => ControlKeepsInv(s, step);
    case Exit => ControlKeepsInv(s, step);
    case Crash => ControlKeepsInv(s, step);
    case Deliver => ReplyKeepsInv(s, step);
    case Fail => ReplyKeepsInv(s, step);
    case EndBatch => ReplyKeepsInv(s, step);
  }

  lemma {:induction false} RunKeepsInv(s: State, steps: seq<Step>)
    requires Inv(s) && RunOk(s, steps)
    ensures Inv(Final(s, steps))
    decreases |steps|
  {
    hide Inv, Next;
    if steps != [] {
      StepKeepsInv(s, steps[0]);
      RunKeepsInv(Next(s, steps[0]), steps[1..]);
    }
  }
}
