/**
 Long polling and the receipt pipeline together. The bot moves its offset past an update whatever the
 handler did, so an update the server has forgotten may have left nothing: these are exactly the
 updates whose file has no live record.
 */
module EndToEnd {
  import opened Bytes
  import L = LongPoll
  import P = Pipeline
  import T = PipelineTables
  import S = PipelineStore
  import G = PipelineGuarantees
  import H = PipelineHashes

  /** What an update asks for: a file to store, or one of the commands retry and delete. */
  datatype Request = File(data: seq<Byte>) | Command

  type Payload = L.UpdateId -> Request

  datatype Joint = Joint(
    poll: L.State,
    world: P.World,
    /** Uploads whose last handler to finish left their file without a record, and that were not stored since. */
    missed: set<L.UpdateId>,
    /** Uploads whose file had a record that was deleted, and that were not stored since. */
    erased: set<L.UpdateId>)

  const INITIAL := Joint(L.INITIAL, P.EMPTY, {}, {})

  datatype JointStep =
    /** A step of the protocol that runs no handler. */
    | Network(step: L.Step)
    /** The handler of the next update runs to its end. */
    | Handled(op: P.Op)
    /** The handler returns before the pipeline: no such file, a failed or empty download, nothing to do. */
    | Skipped
    /** The process dies inside the handler, after `stop` effects. */
    | Interrupted(op: P.Op, stop: nat)

  predicate Fits(op: P.Op, request: Request) {
    match request
    case File(data) => data != [] && op.HandleFile? && op.upload.data == data
    case Command => !op.HandleFile?
  }

  function Current(s: L.State): L.UpdateId
    requires L.Enabled(s, L.Dispatch)
  {
    s.phase.batch[s.phase.next]
  }

  predicate Enabled(j: Joint, step: JointStep, payload: Payload) {
    match step
    case Network(n) => L.Enabled(j.poll, n) && n != L.Dispatch
    case Handled(op) => L.Enabled(j.poll, L.Dispatch) && Fits(op, payload(Current(j.poll)))
    case Skipped => L.Enabled(j.poll, L.Dispatch)
    case Interrupted(op, _) => L.Enabled(j.poll, L.Dispatch) && Fits(op, payload(Current(j.poll)))
  }

  /** More than the effects of any operation. */
  const ALL: nat := 5

  predicate Carries(payload: Payload, id: L.UpdateId, hash: string) {
    payload(id).File? && P.FileHash(payload(id).data) == hash
  }

  function Carrying(ids: set<L.UpdateId>, payload: Payload, hash: string): set<L.UpdateId> {
    set id | id in ids && Carries(payload, id, hash)
  }

  /** The file is known already, or nothing fails on the way to its row. */
  predicate Stored(w: P.World, u: P.Upload, stop: nat) {
    P.HashTaken(w, P.FileHash(u.data)) || H.Stores(w, u, stop)
  }

  /** The account after a call: an upload that stores its file settles it, a delete that works erases it. */
  function Settled(j: Joint, c: P.Call, payload: Payload): Joint {
    match c.op
    case HandleFile(u) =>
      if Stored(j.world, u, c.stop) then
        j.(missed := j.missed - Carrying(j.missed, payload, P.FileHash(u.data)),
           erased := j.erased - Carrying(j.erased, payload, P.FileHash(u.data)))
      else j
    case Delete(id, _, _, _, _) =>
      if H.RemovesRow(j.world, c, id) then
        j.(erased := j.erased + Carrying(j.poll.handled, payload, j.world.files[id].hash))
      else j
    case _ => j
  }

  function Performed(j: Joint, c: P.Call, payload: Payload): Joint {
    Settled(j, c, payload).(world := P.After(j.world, c))
  }

  /** A handler that finishes without its file in the tables is a miss. */
  predicate Misses(w: P.World, step: JointStep, request: Request) {
    match step
    case Handled(op) => op.HandleFile? && !Stored(w, op.upload, ALL)
    case Skipped => request.File? && !P.HashTaken(w, P.FileHash(request.data))
    case _ => false
  }

  /** The handler has returned: the update counts as dispatched, and as missed if it was. */
  function Finished(j: Joint, done: Joint, step: JointStep, payload: Payload): Joint
    requires L.Enabled(j.poll, L.Dispatch)
  {
    var id := Current(j.poll);
    done.(poll := L.Next(j.poll, L.Dispatch),
          missed := done.missed + if Misses(j.world, step, payload(id)) then {id} else {})
  }

  function Next(j: Joint, step: JointStep, payload: Payload): Joint
    requires Enabled(j, step, payload)
  {
    match step
    case Network(n) => j.(poll := L.Next(j.poll, n))
    case Handled(op) => Finished(j, Performed(j, P.Call(op, ALL), payload), step, payload)
    case Skipped => Finished(j, j, step, payload)
    case Interrupted(op, stop) => Performed(j, P.Call(op, stop), payload).(poll := L.Next(j.poll, L.Crash))
  }

  predicate RunOk(j: Joint, steps: seq<JointStep>, payload: Payload)
    decreases |steps|
  {
    steps == [] || (Enabled(j, steps[0], payload) && RunOk(Next(j, steps[0], payload), steps[1..], payload))
  }

  function Final(j: Joint, steps: seq<JointStep>, payload: Payload): Joint
    requires RunOk(j, steps, payload)
    decreases |steps|
  {
    if steps == [] then j else Final(Next(j, steps[0], payload), steps[1..], payload)
  }

  // ---- Every run ----

  /** The account of one update is right: its file has a record exactly when it was neither missed nor erased. */
  predicate Accounted(j: Joint, payload: Payload, id: L.UpdateId) {
    payload(id).File? ==>
      (P.HashTaken(j.world, P.FileHash(payload(id).data)) <==> id !in j.missed && id !in j.erased)
  }

  predicate Inv(j: Joint, payload: Payload) {
    && L.Inv(j.poll) && T.TablesOk(j.world)
    && j.missed <= j.poll.handled && j.erased <= j.poll.handled
    && forall id | id in j.poll.handled :: Accounted(j, payload, id)
  }

  lemma {:induction false} PerformedAccounts(j: Joint, c: P.Call, payload: Payload, id: L.UpdateId)
    requires T.TablesOk(j.world) && id in j.poll.handled && Accounted(j, payload, id)
    ensures Accounted(Performed(j, c, payload), payload, id)
  {
    hide P.After, P.FileHash, P.HashTaken, H.Stores, T.TablesOk;
    if payload(id).File? {
      var hash := P.FileHash(payload(id).data);
      H.HashesAfter(j.world, c, hash);
      if c.op.HandleFile? {
        assert !H.RemovesHash(j.world, c, hash);
      } else if c.op.Delete? {
        DeletedHash(j.world, c, hash);
      } else {
        assert !H.RemovesHash(j.world, c, hash);
      }
    }
  }

  lemma {:induction false} DeletedHash(w: P.World, c: P.Call, hash: string)
    requires c.op.Delete?
    ensures H.RemovesHash(w, c, hash) <==> H.RemovesRow(w, c, c.op.id) && w.files[c.op.id].hash == hash
  {
    if H.RemovesRow(w, c, c.op.id) && w.files[c.op.id].hash == hash {
      assert c.op.id in w.files;
    }
  }

  lemma {:induction false} PerformedKeeps(j: Joint, c: P.Call, payload: Payload)
    requires Inv(j, payload)
    ensures var k := Performed(j, c, payload);
            && T.TablesOk(k.world) && k.poll == j.poll
            && k.missed <= j.poll.handled && k.erased <= j.poll.handled
            && forall id | id in j.poll.handled :: Accounted(k, payload, id)
  {
    T.CallSound(j.world, c);
    hide L.Inv, P.After, P.FileHash, H.Stores, Stored, H.RemovesRow, T.FilesOk, T.ReceiptsOk, Accounted;
    forall id | id in j.poll.handled
      ensures Accounted(Performed(j, c, payload), payload, id)
    {
      PerformedAccounts(j, c, payload, id);
    }
  }

  /** A handler that finishes for an upload misses it, or settles its account. */
  lemma {:induction false} HandlerSettles(j: Joint, op: P.Op, payload: Payload, id: L.UpdateId)
    requires Inv(j, payload) && Fits(op, payload(id))
    ensures var k, miss := Performed(j, P.Call(op, ALL), payload), Misses(j.world, Handled(op), payload(id));
            && (miss ==> payload(id).File?)
            && (payload(id).File? ==>
                  && (miss <==> !P.HashTaken(k.world, P.FileHash(payload(id).data)))
                  && (!miss ==> id !in k.missed && id !in k.erased))
  {
    if op.HandleFile? {
      H.UploadStoresIff(j.world, op.upload, ALL);
    }
    hide L.Inv, P.After, P.FileHash, P.HashTaken, H.Stores, T.TablesOk;
  }

  /** Which updates count as dispatched after each kind of step. */
  lemma {:induction false} HandledBy(s: L.State, step: L.Step)
    requires L.Inv(s) && L.Enabled(s, step)
    ensures L.Inv(L.Next(s, step))
    ensures L.Next(s, step).handled == s.handled + if step == L.Dispatch then {Current(s)} else {}
  {
    L.StepKeepsInv(s, step);
    hide L.Inv;
  }

  /** The account stays right when the current update is added to it, as a miss or not. */
  lemma {:induction false} CurrentAccounted(
    done: Joint, k: Joint, ids: set<L.UpdateId>, id: L.UpdateId, miss: bool, payload: Payload)
    requires forall x | x in ids :: Accounted(done, payload, x)
    requires k.world == done.world && k.erased == done.erased
    requires k.missed == done.missed + if miss then {id} else {}
    requires miss ==> payload(id).File?
    requires payload(id).File? ==>
               && (miss <==> !P.HashTaken(done.world, P.FileHash(payload(id).data)))
               && (!miss ==> id !in done.missed && id !in done.erased)
    ensures forall x | x in ids + {id} :: Accounted(k, payload, x)
  {
    hide P.FileHash, P.HashTaken;
    forall x | x in ids + {id}
      ensures Accounted(k, payload, x)
    {
      assert x in ids ==> Accounted(done, payload, x);
    }
  }

  lemma {:induction false} HandledKeepsInv(j: Joint, op: P.Op, payload: Payload)
    requires Inv(j, payload) && Enabled(j, Handled(op), payload)
    ensures Inv(Next(j, Handled(op), payload), payload)
  {
    HandledBy(j.poll, L.Dispatch);
    PerformedKeeps(j, P.Call(op, ALL), payload);
    HandlerSettles(j, op, payload, Current(j.poll));
    hide L.Inv, L.Next, P.After, P.FileHash, P.HashTaken, T.FilesOk, T.ReceiptsOk;
    hide Performed, Accounted, Current, Misses;
    FinishedKeepsInv(j, Performed(j, P.Call(op, ALL), payload), Handled(op), payload);
  }

  /** What a finished handler leaves, given the account of the tables it leaves. */
  lemma {:induction false} FinishedKeepsInv(j: Joint, done: Joint, step: JointStep, payload: Payload)
    requires L.Inv(j.poll) && L.Enabled(j.poll, L.Dispatch) && T.TablesOk(done.world)
    requires done.missed <= j.poll.handled && done.erased <= j.poll.handled
    requires forall x | x in j.poll.handled :: Accounted(done, payload, x)
    requires var id := Current(j.poll);
             var miss := Misses(j.world, step, payload(id));
             && (miss ==> payload(id).File?)
             && (payload(id).File? ==>
                   && (miss <==> !P.HashTaken(done.world, P.FileHash(payload(id).data)))
                   && (!miss ==> id !in done.missed && id !in done.erased))
    ensures Inv(Finished(j, done, step, payload), payload)
  {
    hide L.Inv, L.Next, L.Enabled, P.FileHash, P.HashTaken, T.TablesOk, Accounted, Current, Misses, Finished;
    var id, k := Current(j.poll), Finished(j, done, step, payload);
    HandledBy(j.poll, L.Dispatch);
    FinishedFields(j, done, step, payload);
    CurrentAccounted(done, k, j.poll.handled, id, Misses(j.world, step, payload(id)), payload);
  }

  lemma {:induction false} FinishedFields(j: Joint, done: Joint, step: JointStep, payload: Payload)
    requires L.Enabled(j.poll, L.Dispatch)
    ensures var k, id := Finished(j, done, step, payload), Current(j.poll);
            && k.world == done.world && k.erased == done.erased && k.poll == L.Next(j.poll, L.Dispatch)
            && k.missed == done.missed + if Misses(j.world, step, payload(id)) then {id} else {}
  {
    hide L.Next, Misses, Current;
  }

  lemma {:induction false} SkippedKeepsInv(j: Joint, payload: Payload)
    requires Inv(j, payload) && Enabled(j, Skipped, payload)
    ensures Inv(Next(j, Skipped, payload), payload)
  {
    var id := Current(j.poll);
    assert id in j.poll.handled ==> Accounted(j, payload, id);
    hide L.Inv, L.Next, P.FileHash, P.HashTaken, T.TablesOk, Current;
    FinishedKeepsInv(j, j, Skipped, payload);
  }

  /** The account of a state does not look at the protocol. */
  lemma {:induction false} SameAccount(j: Joint, poll: L.State, ids: set<L.UpdateId>, payload: Payload)
    requires forall x | x in ids :: Accounted(j, payload, x)
    ensures forall x | x in ids :: Accounted(j.(poll := poll), payload, x)
  {
    hide P.FileHash, P.HashTaken;
    forall x | x in ids
      ensures Accounted(j.(poll := poll), payload, x)
    {
      assert Accounted(j, payload, x);
    }
  }

  lemma {:induction false} InterruptedKeepsInv(j: Joint, op: P.Op, stop: nat, payload: Payload)
    requires Inv(j, payload) && Enabled(j, Interrupted(op, stop), payload)
    ensures Inv(Next(j, Interrupted(op, stop), payload), payload)
  {
    HandledBy(j.poll, L.Crash);
    PerformedKeeps(j, P.Call(op, stop), payload);
    SameAccount(Performed(j, P.Call(op, stop), payload), L.Next(j.poll, L.Crash), j.poll.handled, payload);
    hide L.Inv, L.Next, T.TablesOk, Performed, Accounted;
  }

  lemma {:induction false} NetworkKeepsInv(j: Joint, n: L.Step, payload: Payload)
    requires Inv(j, payload) && Enabled(j, Network(n), payload)
    ensures Inv(Next(j, Network(n), payload), payload)
  {
    HandledBy(j.poll, n);
    SameAccount(j, L.Next(j.poll, n), j.poll.handled, payload);
    hide L.Inv, L.Next, T.TablesOk, Accounted;
  }

  lemma {:induction false} StepKeepsInv(j: Joint, step: JointStep, payload: Payload)
    requires Inv(j, payload) && Enabled(j, step, payload)
    ensures Inv(Next(j, step, payload), payload)
  {
    hide Inv, Next, Enabled;
    match step
    case Network(n) => NetworkKeepsInv(j, n, payload);
    case Handled(op) => HandledKeepsInv(j, op, payload);
    case Skipped => SkippedKeepsInv(j, payload);
    case Interrupted(op, stop) => InterruptedKeepsInv(j, op, stop, payload);
  }

  lemma {:induction false} RunKeepsInv(j: Joint, steps: seq<JointStep>, payload: Payload)
    requires Inv(j, payload) && RunOk(j, steps, payload)
    ensures Inv(Final(j, steps, payload), payload)
    decreases |steps|
  {
    hide Inv, Next, Enabled;
    if steps != [] {
      StepKeepsInv(j, steps[0], payload);
      RunKeepsInv(Next(j, steps[0], payload), steps[1..], payload);
    }
  }

  lemma {:induction false} EveryRunIsAccounted(steps: seq<JointStep>, payload: Payload)
    requires RunOk(INITIAL, steps, payload)
    ensures Inv(Final(INITIAL, steps, payload), payload)
  {
    hide RunOk, Final;
    T.EmptyOk();
    RunKeepsInv(INITIAL, steps, payload);
  }

  predicate StoredOnce(w: P.World, hash: string) {
    exists id :: id in w.files && w.files[id].hash == hash &&
                 forall k | k in w.files && w.files[k].hash == hash :: k == id
  }

  /**
   In every run with lost, delayed and repeated messages, restarts, handlers that fail anywhere and
   crashes anywhere inside them: a dispatched upload is in exactly one live record if and only if no
   finished handler missed it and no delete took it since it was last stored.
   */
  lemma {:induction false} DispatchedIsStoredOnceIff(steps: seq<JointStep>, payload: Payload, id: L.UpdateId)
    requires RunOk(INITIAL, steps, payload)
    requires id in Final(INITIAL, steps, payload).poll.handled && payload(id).File?
    ensures var j := Final(INITIAL, steps, payload);
            StoredOnce(j.world, P.FileHash(payload(id).data)) <==> id !in j.missed && id !in j.erased
  {
    hide P.FileHash, RunOk, Final;
    EveryRunIsAccounted(steps, payload);
    assert Accounted(Final(INITIAL, steps, payload), payload, id);
  }

  /** The same for every upload the server has forgotten: confirmed updates were all dispatched. */
  lemma {:induction false} ConfirmedIsStoredOnceIff(steps: seq<JointStep>, payload: Payload, id: L.UpdateId)
    requires RunOk(INITIAL, steps, payload)
    requires id in Final(INITIAL, steps, payload).poll.confirmed && payload(id).File?
    ensures var j := Final(INITIAL, steps, payload);
            StoredOnce(j.world, P.FileHash(payload(id).data)) <==> id !in j.missed && id !in j.erased
  {
    hide RunOk, Final, StoredOnce, P.FileHash;
    EveryRunIsAccounted(steps, payload);
    DispatchedIsStoredOnceIff(steps, payload, id);
  }

  /** On the same runs no two live records ever share a hash, and no record has two receipts. */
  lemma {:induction false} NeverTwoRecords(steps: seq<JointStep>, payload: Payload)
    requires RunOk(INITIAL, steps, payload)
    ensures var w := Final(INITIAL, steps, payload).world;
            && (forall i, k | i in w.files && k in w.files && w.files[i].hash == w.files[k].hash :: i == k)
            && (forall r, s | r in w.receipts && s in w.receipts && w.receipts[r].fileId == w.receipts[s].fileId ::
                  r == s)
  {
    hide RunOk, Final;
    EveryRunIsAccounted(steps, payload);
  }

  // ---- The bytes of confirmed uploads ----

  /** The calls the handlers make, in order. */
  function CallsOf(steps: seq<JointStep>): seq<P.Call>
    decreases |steps|
  {
    if steps == [] then []
    else
      var rest := CallsOf(steps[1..]);
      match steps[0]
      case Handled(op) => [P.Call(op, ALL)] + rest
      case Interrupted(op, stop) => [P.Call(op, stop)] + rest
      case _ => rest
  }

  /** Seen from the tables and the store, a joint run is a run of the pipeline, so all it guarantees holds here. */
  lemma {:induction false} WorldIsRun(j: Joint, steps: seq<JointStep>, payload: Payload)
    requires RunOk(j, steps, payload)
    ensures Final(j, steps, payload).world == P.Run(j.world, CallsOf(steps))
    decreases |steps|
  {
    hide P.After, Stored;
    if steps != [] {
      WorldIsRun(Next(j, steps[0], payload), steps[1..], payload);
      var calls, rest := CallsOf(steps), CallsOf(steps[1..]);
      if calls != rest {
        assert calls[1..] == rest;
      }
    }
  }

  /** A live record has this hash, and the bytes in the store under its name have it too. */
  predicate BytesStored(w: P.World, hash: string) {
    exists id :: id in w.files && w.files[id].hash == hash && S.Intact(w, id)
  }

  /**
   In every joint run whose handler calls damage nothing, a confirmed upload's bytes are in the store under a
   live record if and only if no finished handler missed it and no delete took it since it was last stored.
   */
  lemma {:induction false} ConfirmedBytesAreStoredIff(steps: seq<JointStep>, payload: Payload, id: L.UpdateId)
    requires RunOk(INITIAL, steps, payload) && G.NoDamage(P.EMPTY, CallsOf(steps))
    requires id in Final(INITIAL, steps, payload).poll.confirmed && payload(id).File?
    ensures var j := Final(INITIAL, steps, payload);
            BytesStored(j.world, P.FileHash(payload(id).data)) <==> id !in j.missed && id !in j.erased
  {
    var calls, j := CallsOf(steps), Final(INITIAL, steps, payload);
    ConfirmedIsStoredOnceIff(steps, payload, id);
    WorldIsRun(INITIAL, steps, payload);
    T.EmptyOk();
    G.RunKeepsBytesIff(P.EMPTY, calls);
    assert calls[..|calls|] == calls;
    hide RunOk, Final, P.FileHash, P.Run, G.NoDamage, S.Intact, CallsOf;
    assert S.BytesOk(j.world);
    EveryRunIsAccounted(steps, payload);
    assert Accounted(j, payload, id);
  }

  // ---- Runs without a miss ----

  /** No handler misses its file, and no delete takes a record. */
  predicate Smooth(j: Joint, step: JointStep, payload: Payload)
    requires Enabled(j, step, payload)
  {
    match step
    case Network(_) => true
    case Handled(op) => !op.Delete? && !Misses(j.world, step, payload(Current(j.poll)))
    case Skipped => !Misses(j.world, step, payload(Current(j.poll)))
    case Interrupted(op, _) => !op.Delete?
  }

  predicate RunSmooth(j: Joint, steps: seq<JointStep>, payload: Payload)
    requires RunOk(j, steps, payload)
    decreases |steps|
  {
    steps != [] ==>
      Smooth(j, steps[0], payload) && RunSmooth(Next(j, steps[0], payload), steps[1..], payload)
  }

  lemma {:induction false} SmoothRunMissesNothing(j: Joint, steps: seq<JointStep>, payload: Payload)
    requires RunOk(j, steps, payload) && RunSmooth(j, steps, payload) && j.missed == {} && j.erased == {}
    ensures Final(j, steps, payload).missed == {} && Final(j, steps, payload).erased == {}
    decreases |steps|
  {
    hide Stored, P.After, P.FileHash;
    if steps != [] {
      SmoothRunMissesNothing(Next(j, steps[0], payload), steps[1..], payload);
    }
  }

  /** Where no handler misses and nothing is deleted, every confirmed upload is in exactly one record. */
  lemma {:induction false} SmoothRunStoresEverything(steps: seq<JointStep>, payload: Payload, id: L.UpdateId)
    requires RunOk(INITIAL, steps, payload) && RunSmooth(INITIAL, steps, payload)
    requires id in Final(INITIAL, steps, payload).poll.confirmed && payload(id).File?
    ensures StoredOnce(Final(INITIAL, steps, payload).world, P.FileHash(payload(id).data))
  {
    hide RunOk, Final, StoredOnce, P.FileHash, RunSmooth;
    SmoothRunMissesNothing(INITIAL, steps, payload);
    ConfirmedIsStoredOnceIff(steps, payload, id);
  }

  // ---- A run that loses an upload ----

  lemma {:induction false} RunAppend(j: Joint, a: seq<JointStep>, b: seq<JointStep>, payload: Payload)
    requires RunOk(j, a, payload) && RunOk(Final(j, a, payload), b, payload)
    ensures RunOk(j, a + b, payload) && Final(j, a + b, payload) == Final(Final(j, a, payload), b, payload)
    decreases |a|
  {
    hide Enabled, Next;
    if a == [] {
      assert a + b == b;
    } else {
      RunAppend(Next(j, a[0], payload), a[1..], b, payload);
      assert (a + b)[1..] == a[1..] + b;
    }
  }

  lemma {:induction false} OneStep(j: Joint, step: JointStep, payload: Payload)
    requires Enabled(j, step, payload)
    ensures RunOk(j, [step], payload) && Final(j, [step], payload) == Next(j, step, payload)
  {
    hide Enabled, Next;
    assert [step][1..] == [];
  }

  lemma {:induction false} Then(j: Joint, a: seq<JointStep>, step: JointStep, payload: Payload)
    requires RunOk(j, a, payload) && Enabled(Final(j, a, payload), step, payload)
    ensures RunOk(j, a + [step], payload)
    ensures Final(j, a + [step], payload) == Next(Final(j, a, payload), step, payload)
  {
    hide Enabled, Next;
    OneStep(Final(j, a, payload), step, payload);
    RunAppend(j, a, [step], payload);
  }

  /** One update arrives and is about to be dispatched. */
  function Arrival(id: L.UpdateId): seq<JointStep> {
    [Network(L.Enqueue(id))] + [Network(L.Start)] + [Network(L.Poll)] + [Network(L.Answer(1))] + [Network(L.Deliver)]
  }

  function Arrived(id: L.UpdateId): L.State {
    L.State([id], {id}, {}, id, {0}, [id], L.Handling([id], 0, false), true, 0, [], [id], {})
  }

  lemma {:induction false} Arrives(id: L.UpdateId, payload: Payload)
    requires id > 0
    ensures RunOk(INITIAL, Arrival(id), payload)
    ensures Final(INITIAL, Arrival(id), payload) == INITIAL.(poll := Arrived(id))
  {
    hide RunOk, Final;
    var s0 := L.INITIAL;
    var s1 := s0.(queue := [id], known := {id}, last := id);
    var s2 := s1.(phase := L.Head, running := true);
    var s3 := s2.(phase := L.Waiting, sent := {0});
    var s4 := s3.(reply := [id]);
    assert L.Next(s0, L.Enqueue(id)) == s1;
    assert L.Next(s3, L.Answer(1)) == s4 by { AnswersAll(s3); }
    assert L.Next(s4, L.Deliver) == Arrived(id) by { assert [] + [id] == [id]; }
    OneStep(INITIAL, Network(L.Enqueue(id)), payload);
    var a := [Network(L.Enqueue(id))];
    Then(INITIAL, a, Network(L.Start), payload);
    a := a + [Network(L.Start)];
    Then(INITIAL, a, Network(L.Poll), payload);
    a := a + [Network(L.Poll)];
    assert L.AtLeast([id], 0) == [id];
    Then(INITIAL, a, Network(L.Answer(1)), payload);
    a := a + [Network(L.Answer(1))];
    Then(INITIAL, a, Network(L.Deliver), payload);
  }

  lemma {:induction false} AnswersAll(s: L.State)
    requires |s.queue| == 1 && s.offset == 0 && s.confirmed == {} && L.Enabled(s, L.Answer(1))
    ensures L.Next(s, L.Answer(1)) == s.(reply := s.queue)
  {
    assert L.AtLeast(s.queue, 0) == s.queue;
    assert s.confirmed + (set id | id in s.queue && id < 0) == {};
  }

  /** The bot moves on and asks again, which confirms the update. */
  function Departure(): seq<JointStep> {
    [Network(L.Advance)] + [Network(L.EndBatch)] + [Network(L.Poll)] + [Network(L.Answer(0))]
  }

  lemma {:induction false} Departs(j: Joint, id: L.UpdateId, payload: Payload)
    requires j.poll == L.Next(Arrived(id), L.Dispatch)
    ensures RunOk(j, Departure(), payload)
    ensures var k := Final(j, Departure(), payload);
            k.poll.confirmed == {id} && k.poll.queue == [] && k == j.(poll := k.poll)
  {
    hide RunOk, Final;
    OneStep(j, Network(L.Advance), payload);
    var a := [Network(L.Advance)];
    Then(j, a, Network(L.EndBatch), payload);
    a := a + [Network(L.EndBatch)];
    Then(j, a, Network(L.Poll), payload);
    a := a + [Network(L.Poll)];
    assert L.AtLeast([id], id + 1) == [];
    Then(j, a, Network(L.Answer(0)), payload);
  }

  /** Any first upload whose handler finishes without a row is confirmed all the same, and is nowhere. */
  lemma {:induction false} MissedUploadIsConfirmed(id: L.UpdateId, payload: Payload, step: JointStep)
    requires id > 0 && payload(id).File?
    requires step.Handled? ==> Fits(step.op, payload(id))
    requires (step.Handled? || step.Skipped?) && Misses(P.EMPTY, step, payload(id))
    ensures var steps := Arrival(id) + [step] + Departure();
            RunOk(INITIAL, steps, payload) &&
            var j := Final(INITIAL, steps, payload);
            id in j.poll.confirmed && id !in j.poll.queue && id in j.missed &&
            !P.HashTaken(j.world, P.FileHash(payload(id).data))
  {
    hide RunOk, Final, P.FileHash, P.After, Performed;
    Arrives(id, payload);
    Then(INITIAL, Arrival(id), step, payload);
    var j := Final(INITIAL, Arrival(id) + [step], payload);
    Departs(j, id, payload);
    RunAppend(INITIAL, Arrival(id) + [step], Departure(), payload);
    var steps := Arrival(id) + [step] + Departure();
    EveryRunIsAccounted(steps, payload);
    assert id in Final(INITIAL, steps, payload).poll.handled;
    assert Accounted(Final(INITIAL, steps, payload), payload, id);
  }
}
