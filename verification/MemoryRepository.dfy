/**
 The array-backed repository of src/infra/file_repository_memory.c: linear search, append, update in
 place and shift-delete over a fixed array, refining a table from ids to records.
 */
module MemoryRepository {
  import opened Bytes

  const MAX_RECORDS: nat := 100
  const HASH_LEN: nat := 65
  const NAME_LEN: nat := 256
  const ORIGINAL_LEN: nat := 512

  type Id = nat

  datatype Record = Record(id: Id, original: string, hash: string, saved: string, ocrDone: bool, ocrName: string)

  /** The `FILE_REPO_*` codes these operations return. */
  datatype Code = Ok | OutOfMemory | NotFound | Duplicate

  // ---- The array as a sequence ----

  datatype Rows = Rows(rows: seq<Record>, nextId: Id)

  predicate IdsIncrease(r: Rows) {
    && (forall i, j | 0 <= i < j < |r.rows| :: r.rows[i].id < r.rows[j].id)
    && (forall i | 0 <= i < |r.rows| :: r.rows[i].id < r.nextId)
  }

  predicate UniqueHashes(r: Rows) {
    forall i, j | 0 <= i < j < |r.rows| :: r.rows[i].hash != r.rows[j].hash
  }

  predicate HasHash(r: Rows, hash: string) { exists i | 0 <= i < |r.rows| :: r.rows[i].hash == hash }

  /** The position of an id, or the number of rows. */
  function Position(rows: seq<Record>, id: Id): (p: nat)
    ensures p <= |rows|
    ensures p < |rows| ==> rows[p].id == id
    ensures forall i | 0 <= i < p :: rows[i].id != id
  {
    if rows == [] || rows[0].id == id then 0 else 1 + Position(rows[1..], id)
  }

  datatype Op =
    | Insert(original: string, hash: string, saved: string)
    | Mark(id: Id, ocrName: string)
    | Delete(id: Id)

  function NewRecord(id: Id, op: Op): Record
    requires op.Insert?
  {
    Record(id, Fit(op.original, ORIGINAL_LEN), Fit(op.hash, HASH_LEN), Fit(op.saved, NAME_LEN), false, "")
  }

  function Marked(r: Record, ocrName: string): Record { r.(ocrDone := true, ocrName := Fit(ocrName, NAME_LEN)) }

  function CodeOf(r: Rows, op: Op): Code {
    match op
    case Insert(_, hash, _) =>
      if |r.rows| >= MAX_RECORDS then OutOfMemory else if HasHash(r, hash) then Duplicate else Ok
    case Mark(id, _) => if Position(r.rows, id) < |r.rows| then Ok else NotFound
    case Delete(id) => if Position(r.rows, id) < |r.rows| then Ok else NotFound
  }

  function Apply(r: Rows, op: Op): Rows {
    if CodeOf(r, op) != Ok then r
    else
      match op
      case Insert(_, _, _) => Rows(r.rows + [NewRecord(r.nextId, op)], r.nextId + 1)
      case Mark(id, name) => var p := Position(r.rows, id); r.(rows := r.rows[p := Marked(r.rows[p], name)])
      case Delete(id) => var p := Position(r.rows, id); r.(rows := r.rows[..p] + r.rows[p + 1..])
  }

  // ---- The abstract table ----

  datatype Table = Table(recs: map<Id, Record>, nextId: Id)

  predicate TableHasHash(t: Table, hash: string) { exists id :: id in t.recs && t.recs[id].hash == hash }

  function TableCode(t: Table, op: Op): Code {
    match op
    case Insert(_, hash, _) =>
      if |t.recs| >= MAX_RECORDS then OutOfMemory else if TableHasHash(t, hash) then Duplicate else Ok
    case Mark(id, _) => if id in t.recs then Ok else NotFound
    case Delete(id) => if id in t.recs then Ok else NotFound
  }

  function TableApply(t: Table, op: Op): Table {
    if TableCode(t, op) != Ok then t
    else
      match op
      case Insert(_, _, _) => Table(t.recs[t.nextId := NewRecord(t.nextId, op)], t.nextId + 1)
      case Mark(id, name) => t.(recs := t.recs[id := Marked(t.recs[id], name)])
      case Delete(id) => t.(recs := t.recs - {id})
  }

  /** r is what a C buffer keeps of s when n characters fit. */
  predicate CutTo(r: string, s: string, n: nat) { r <= s && |r| == if |s| < n then |s| else n }

  ghost predicate OnlyChanges(t: Table, t': Table, id: Id) {
    && (forall other | other != id :: other in t'.recs <==> other in t.recs)
    && (forall other | other in t.recs && other != id :: t'.recs[other] == t.recs[other])
  }

  /** An insert is refused at 100 records or on a hash that is there; else the next id gets the new record. */
  lemma {:induction false} InsertIff(t: Table, original: string, hash: string, saved: string)
    ensures var op := Insert(original, hash, saved);
            var t' := TableApply(t, op);
            && (TableCode(t, op) == OutOfMemory <==> |t.recs| >= 100)
            && (TableCode(t, op) == Duplicate <==>
                  |t.recs| < 100 && exists id :: id in t.recs && t.recs[id].hash == hash)
            && (TableCode(t, op) == Ok <==>
                  |t.recs| < 100 && forall id | id in t.recs :: t.recs[id].hash != hash)
            && (TableCode(t, op) != Ok ==> t' == t)
            && (TableCode(t, op) == Ok ==>
                  && t'.nextId == t.nextId + 1 && OnlyChanges(t, t', t.nextId) && t.nextId in t'.recs
                  && var r := t'.recs[t.nextId];
                     && r.id == t.nextId && !r.ocrDone && r.ocrName == ""
                     && CutTo(r.original, original, 511) && CutTo(r.hash, hash, 64) && CutTo(r.saved, saved, 255))
  {
  }

  /** A mark changes the two OCR fields of one record, and a delete takes one record away. */
  lemma {:induction false} MarkAndDeleteIff(t: Table, id: Id, ocrName: string)
    ensures var t' := TableApply(t, Mark(id, ocrName));
            && TableCode(t, Mark(id, ocrName)) == (if id in t.recs then Ok else NotFound)
            && t'.nextId == t.nextId && OnlyChanges(t, t', id) && (id in t'.recs <==> id in t.recs)
            && (id in t.recs ==>
                  && t'.recs[id].ocrDone && CutTo(t'.recs[id].ocrName, ocrName, 255)
                  && t'.recs[id] == t.recs[id].(ocrDone := true, ocrName := t'.recs[id].ocrName))
    ensures var t' := TableApply(t, Delete(id));
            && TableCode(t, Delete(id)) == (if id in t.recs then Ok else NotFound)
            && t'.nextId == t.nextId && OnlyChanges(t, t', id) && id !in t'.recs
  {
  }

  function IdsOf(rows: seq<Record>): set<Id> { set r | r in rows :: r.id }

  function RecsOf(rows: seq<Record>): map<Id, Record> {
    map id | id in IdsOf(rows) && Position(rows, id) < |rows| :: rows[Position(rows, id)]
  }

  function Abs(r: Rows): Table { Table(RecsOf(r.rows), r.nextId) }

  // ---- Refinement ----

  lemma {:induction false} PositionOf(r: Rows, i: nat)
    requires IdsIncrease(r) && i < |r.rows|
    ensures Position(r.rows, r.rows[i].id) == i
  {
  }

  lemma {:induction false} InRecs(r: Rows, id: Id)
    ensures id in RecsOf(r.rows) <==> Position(r.rows, id) < |r.rows|
    ensures id in RecsOf(r.rows) ==> RecsOf(r.rows)[id] == r.rows[Position(r.rows, id)]
  {
    var p := Position(r.rows, id);
    if p < |r.rows| {
      assert r.rows[p] in r.rows;
    }
  }

  lemma {:induction false} RecsCount(r: Rows)
    requires IdsIncrease(r)
    ensures |RecsOf(r.rows)| == |r.rows|
    decreases |r.rows|
  {
    if r.rows != [] {
      var init, last := r.(rows := r.rows[..|r.rows| - 1]), r.rows[|r.rows| - 1];
      hide RecsOf;
      assert init.rows + [last] == r.rows;
      PrefixIncreases(init, last);
      RecsCount(init);
      PushedRecs(init, last);
    }
  }

  /** A row with a new id at the end of the array is a new entry of the table. */
  lemma {:induction false} PushedRecs(r: Rows, last: Record)
    requires IdsIncrease(Rows(r.rows + [last], r.nextId))
    ensures last.id !in RecsOf(r.rows)
    ensures RecsOf(r.rows + [last]) == RecsOf(r.rows)[last.id := last]
  {
    hide RecsOf;
    var s := Rows(r.rows + [last], r.nextId);
    PrefixIncreases(r, last);
    InRecs(r, last.id);
    PositionOf(s, |r.rows|);
    forall id
      ensures id in RecsOf(s.rows) <==> id in RecsOf(r.rows) || id == last.id
      ensures id in RecsOf(r.rows) ==> RecsOf(s.rows)[id] == RecsOf(r.rows)[id]
    {
      InRecs(r, id);
      InRecs(s, id);
      var p, q := Position(r.rows, id), Position(s.rows, id);
      if p < |r.rows| {
        PositionOf(s, p);
      }
      if q < |r.rows| {
        PositionOf(r, q);
      }
    }
    InRecs(s, last.id);
  }

  lemma {:induction false} PrefixIncreases(r: Rows, last: Record)
    requires IdsIncrease(Rows(r.rows + [last], r.nextId))
    ensures IdsIncrease(r) && Position(r.rows, last.id) == |r.rows|
  {
    var s := r.rows + [last];
    assert forall i | 0 <= i < |r.rows| :: r.rows[i] == s[i];
    assert s[|r.rows|] == last;
  }

  lemma {:induction false} ApplyKeepsIncrease(r: Rows, op: Op)
    requires IdsIncrease(r)
    ensures IdsIncrease(Apply(r, op)) && r.nextId <= Apply(r, op).nextId
  {
    if op.Delete? && CodeOf(r, op) == Ok {
      WithoutKeepsIncrease(r, Position(r.rows, op.id));
    }
  }

  lemma {:induction false} WithoutKeepsIncrease(r: Rows, p: nat)
    requires IdsIncrease(r) && p < |r.rows|
    ensures IdsIncrease(r.(rows := r.rows[..p] + r.rows[p + 1..]))
  {
    var rows := r.rows[..p] + r.rows[p + 1..];
    assert forall i | 0 <= i < |rows| :: rows[i] == r.rows[if i < p then i else i + 1];
  }

  lemma {:induction false} SameHashes(r: Rows, hash: string)
    requires IdsIncrease(r)
    ensures HasHash(r, hash) <==> TableHasHash(Abs(r), hash)
  {
    if HasHash(r, hash) {
      var i :| 0 <= i < |r.rows| && r.rows[i].hash == hash;
      PositionOf(r, i);
      InRecs(r, r.rows[i].id);
    }
  }

  lemma {:induction false} SameCode(r: Rows, op: Op)
    requires IdsIncrease(r)
    ensures CodeOf(r, op) == TableCode(Abs(r), op)
  {
    hide RecsOf, HasHash, TableHasHash;
    match op
    case Insert(_, hash, _) =>
      RecsCount(r);
      SameHashes(r, hash);
    case Mark(id, _) => InRecs(r, id);
    case Delete(id) => InRecs(r, id);
  }

  /** Each operation does to the array what the abstract operation does to the table. */
  lemma {:induction false} ApplyRefines(r: Rows, op: Op)
    requires IdsIncrease(r)
    ensures CodeOf(r, op) == TableCode(Abs(r), op)
    ensures Abs(Apply(r, op)) == TableApply(Abs(r), op)
  {
    hide RecsOf, HasHash, TableHasHash;
    SameCode(r, op);
    if CodeOf(r, op) == Ok {
      ApplyKeepsIncrease(r, op);
      match op
      case Insert(_, _, _) => PushedRecs(r.(nextId := r.nextId + 1), NewRecord(r.nextId, op));
      case Mark(id, name) => MarkRefines(r, id, name);
      case Delete(id) => DeleteRefines(r, id);
    }
  }

  lemma {:induction false} MarkRefines(r: Rows, id: Id, name: string)
    requires IdsIncrease(r) && Position(r.rows, id) < |r.rows|
    ensures id in RecsOf(r.rows)
    ensures RecsOf(Apply(r, Mark(id, name)).rows) == RecsOf(r.rows)[id := Marked(RecsOf(r.rows)[id], name)]
  {
    hide RecsOf;
    var s, p := Apply(r, Mark(id, name)), Position(r.rows, id);
    ApplyKeepsIncrease(r, Mark(id, name));
    InRecs(r, id);
    var recs, expected := RecsOf(s.rows), RecsOf(r.rows)[id := Marked(RecsOf(r.rows)[id], name)];
    forall x
      ensures x in recs <==> x in expected
      ensures x in recs ==> recs[x] == expected[x]
    {
      InRecs(r, x);
      InRecs(s, x);
      if Position(r.rows, x) < |r.rows| {
        PositionOf(s, Position(r.rows, x));
      }
      if Position(s.rows, x) < |s.rows| {
        PositionOf(r, Position(s.rows, x));
      }
    }
  }

  lemma {:induction false} DeleteRefines(r: Rows, id: Id)
    requires IdsIncrease(r) && Position(r.rows, id) < |r.rows|
    ensures RecsOf(Apply(r, Delete(id)).rows) == RecsOf(r.rows) - {id}
  {
    hide RecsOf, IdsIncrease, Position;
    var recs, expected := RecsOf(Apply(r, Delete(id)).rows), RecsOf(r.rows) - {id};
    forall x
      ensures x in recs <==> x in expected
      ensures x in recs ==> recs[x] == expected[x]
    {
      EntryWithout(r, Position(r.rows, id), x);
    }
  }

  lemma {:induction false} EntryWithout(r: Rows, p: nat, x: Id)
    requires IdsIncrease(r) && p < |r.rows|
    ensures var recs, rest := RecsOf(r.rows), RecsOf(r.rows[..p] + r.rows[p + 1..]);
            && (x in rest <==> x in recs && x != r.rows[p].id)
            && (x in rest ==> rest[x] == recs[x])
  {
    hide RecsOf;
    PositionOf(r, p);
    InRecs(r, x);
    InRecs(r.(rows := r.rows[..p] + r.rows[p + 1..]), x);
    PositionWithout(r, p, x);
  }

  /** Where an id is found once row p is gone. */
  lemma {:induction false} PositionWithout(r: Rows, p: nat, x: Id)
    requires IdsIncrease(r) && p < |r.rows|
    ensures var s := r.rows[..p] + r.rows[p + 1..];
            Position(s, x) ==
            var q := Position(r.rows, x); if q == p then |s| else if q < p then q else q - 1
  {
    hide Position;
    var s := r.rows[..p] + r.rows[p + 1..];
    assert forall i | 0 <= i < |s| :: s[i] == r.rows[if i < p then i else i + 1];
    var q := Position(r.rows, x);
    if q < |r.rows| && q != p {
      WithoutKeepsIncrease(r, p);
      PositionOf(r.(rows := s), if q < p then q else q - 1);
    } else {
      assert forall i | 0 <= i < |s| :: s[i].id != x;
    }
  }

  function Run(r: Rows, ops: seq<Op>): Rows
    decreases |ops|
  {
    if ops == [] then r else Run(Apply(r, ops[0]), ops[1..])
  }

  function TableRun(t: Table, ops: seq<Op>): Table
    decreases |ops|
  {
    if ops == [] then t else TableRun(TableApply(t, ops[0]), ops[1..])
  }

  /** Every run of the array is a run of the table, with ids still increasing along the array. */
  lemma {:induction false} RunRefines(r: Rows, ops: seq<Op>)
    requires IdsIncrease(r)
    ensures IdsIncrease(Run(r, ops)) && Abs(Run(r, ops)) == TableRun(Abs(r), ops)
    decreases |ops|
  {
    if ops != [] {
      ApplyRefines(r, ops[0]);
      ApplyKeepsIncrease(r, ops[0]);
      RunRefines(Apply(r, ops[0]), ops[1..]);
    }
  }

  // ---- Unique hashes, for hashes that fit the buffer ----

  /** An accepted insert keeps hashes unique exactly when what is left of its hash is new. */
  lemma {:induction false} InsertKeepsUniqueIff(r: Rows, op: Op)
    requires UniqueHashes(r) && op.Insert? && CodeOf(r, op) == Ok
    ensures UniqueHashes(Apply(r, op)) <==> !HasHash(r, Fit(op.hash, HASH_LEN))
  {
    var s := Apply(r, op);
    if HasHash(r, Fit(op.hash, HASH_LEN)) {
      var i :| 0 <= i < |r.rows| && r.rows[i].hash == Fit(op.hash, HASH_LEN);
      assert s.rows[i].hash == s.rows[|r.rows|].hash;
    }
  }

  predicate ShortHash(op: Op) { op.Insert? ==> |op.hash| < HASH_LEN }

  lemma {:induction false} RunKeepsUnique(r: Rows, ops: seq<Op>)
    requires UniqueHashes(r) && forall k | 0 <= k < |ops| :: ShortHash(ops[k])
    ensures UniqueHashes(Run(r, ops))
    decreases |ops|
  {
    if ops != [] {
      if ops[0].Insert? && CodeOf(r, ops[0]) == Ok {
        InsertKeepsUniqueIff(r, ops[0]);
      }
      RunKeepsUnique(Apply(r, ops[0]), ops[1..]);
    }
  }

  /** A hash that does not fit is accepted again and again. */
  lemma {:induction false} LongHashIsNotUnique(op: Op)
    requires op.Insert? && |op.hash| >= HASH_LEN
    ensures !UniqueHashes(Run(Rows([], 1), [op, op]))
  {
    var r1 := Apply(Rows([], 1), op);
    var r2 := Apply(r1, op);
    assert [op, op][1..] == [op];
    assert Run(r1, [op]) == Run(r2, []);
    assert r2.rows[0].hash == r2.rows[1].hash;
  }

  // ---- Listing ----

  function Shown(count: nat, limit: int): nat { if 0 < limit < count then limit else count }

  function Reversed(s: seq<Record>): (t: seq<Record>)
    ensures |t| == |s|
    ensures forall i | 0 <= i < |s| :: t[i] == s[|s| - 1 - i]
  {
    if s == [] then [] else [s[|s| - 1]] + Reversed(s[..|s| - 1])
  }

  /** What `list` passes to its callback, in order. */
  function Listed(r: Rows, limit: int): seq<Record> { Reversed(r.rows[|r.rows| - Shown(|r.rows|, limit)..]) }

  /** The newest records, newest first, as many as asked for; all of them for a limit of zero or less. */
  lemma {:induction false} ListedIsNewest(r: Rows, limit: int)
    requires IdsIncrease(r)
    ensures var l := Listed(r, limit);
            && |l| == (if limit > 0 && limit < |r.rows| then limit else |r.rows|)
            && (forall record | record in l :: record in r.rows)
            && (forall i, j | 0 <= i < j < |l| :: l[i].id > l[j].id)
            && (forall i, k | 0 <= i < |l| && 0 <= k < |r.rows| && r.rows[k] !in l :: r.rows[k].id < l[i].id)
  {
    hide Reversed;
    var n, l := |r.rows| - Shown(|r.rows|, limit), Listed(r, limit);
    assert forall i | 0 <= i < |l| :: l[i] == r.rows[|r.rows| - 1 - i];
    forall k | n <= k < |r.rows|
      ensures r.rows[k] in l
    {
      assert l[|r.rows| - 1 - k] == r.rows[k];
    }
  }

  // ---- The repository ----

  class Repository {
    const records: array<Record>
    var count: nat
    var nextId: Id

    ghost predicate Valid()
      reads this, records
    {
      records.Length == MAX_RECORDS && count <= MAX_RECORDS && IdsIncrease(View())
    }

    ghost function View(): Rows
      reads this, records
    {
      Rows(if count <= records.Length then records[..count] else [], nextId)
    }

    constructor ()
      ensures Valid() && fresh(records) && View() == Rows([], 1)
    {
      records := new Record[MAX_RECORDS](_ => Record(0, "", "", "", false, ""));
      count, nextId := 0, 1;
    }

    method FindByHash(hash: string) returns (code: Code, out: Record)
      requires Valid()
      ensures code == if HasHash(View(), hash) then Ok else NotFound
      ensures code == Ok <==> exists i :: 0 <= i < |View().rows| && View().rows[i].hash == hash
      ensures code == Ok ==> out.hash == hash && out.id in Abs(View()).recs && Abs(View()).recs[out.id] == out
    {
      for i := 0 to count
        invariant forall k | 0 <= k < i :: records[k].hash != hash
      {
        if records[i].hash == hash {
          assert View().rows[i].hash == hash;
          PositionOf(View(), i);
          InRecs(View(), records[i].id);
          return Ok, records[i];
        }
      }
      return NotFound, Record(0, "", "", "", false, "");
    }

    /** The search loop shared by find-by-id, mark and delete. */
    method Search(id: Id) returns (p: nat)
      requires Valid()
      ensures p == Position(View().rows, id)
    {
      p := 0;
      while p < count && records[p].id != id
        invariant p <= count
        invariant Position(View().rows, id) == p + Position(View().rows[p..], id)
      {
        p := p + 1;
      }
    }

    method FindById(id: Id) returns (code: Code, out: Record)
      requires Valid()
      ensures code == if id in Abs(View()).recs then Ok else NotFound
      ensures code == Ok ==> out == Abs(View()).recs[id]
    {
      InRecs(View(), id);
      var p := Search(id);
      if p < count {
        return Ok, records[p];
      }
      return NotFound, Record(0, "", "", "", false, "");
    }

    method Insert(original: string, hash: string, saved: string) returns (code: Code, outId: Id)
      requires Valid()
      modifies this, records
      ensures Valid() && code == CodeOf(old(View()), Op.Insert(original, hash, saved))
      ensures View() == Apply(old(View()), Op.Insert(original, hash, saved))
      ensures code == Ok ==> outId == old(nextId)
    {
      ApplyKeepsIncrease(View(), Op.Insert(original, hash, saved));
      if count >= MAX_RECORDS {
        return OutOfMemory, 0;
      }
      var found, _ := FindByHash(hash);
      if found == Ok {
        return Duplicate, 0;
      }
      ghost var rows := View().rows;
      records[count] :=
        Record(nextId, Fit(original, ORIGINAL_LEN), Fit(hash, HASH_LEN), Fit(saved, NAME_LEN), false, "");
      nextId := nextId + 1;
      count := count + 1;
      assert View().rows == rows + [records[count - 1]];
      return Ok, nextId - 1;
    }

    method MarkOcrComplete(id: Id, ocrName: string) returns (code: Code)
      requires Valid()
      modifies records
      ensures Valid() && code == CodeOf(old(View()), Mark(id, ocrName))
      ensures View() == Apply(old(View()), Mark(id, ocrName))
    {
      ApplyKeepsIncrease(View(), Mark(id, ocrName));
      var p := Search(id);
      if p == count {
        return NotFound;
      }
      records[p] := records[p].(ocrDone := true, ocrName := Fit(ocrName, NAME_LEN));
      return Ok;
    }

    method DeleteById(id: Id) returns (code: Code)
      requires Valid()
      modifies this, records
      ensures Valid() && code == CodeOf(old(View()), Delete(id))
      ensures View() == Apply(old(View()), Delete(id))
    {
      ApplyKeepsIncrease(View(), Delete(id));
      ghost var rows := View().rows;
      var p := Search(id);
      if p == count {
        return NotFound;
      }
      assert records[..p] == rows[..p] && records[p + 1..count] == rows[p + 1..];
      ShiftDown(p);
      count := count - 1;
      assert View().rows == rows[..p] + rows[p + 1..];
      return Ok;
    }

    /** "Shift remaining records down". */
    method ShiftDown(p: nat)
      requires records.Length == MAX_RECORDS && p < count <= MAX_RECORDS
      modifies records
      ensures records[..count - 1] == old(records[..p]) + old(records[p + 1..count])
    {
      ghost var rows := records[..count];
      var j := p;
      while j < count - 1
        invariant p <= j < count
        invariant forall k | 0 <= k < p || j <= k < count :: records[k] == rows[k]
        invariant forall k | p <= k < j :: records[k] == rows[k + 1]
      {
        records[j] := records[j + 1];
        j := j + 1;
      }
      assert records[..count - 1] == rows[..p] + rows[p + 1..];
    }

    method List(limit: int) returns (shown: seq<Record>)
      requires Valid()
      ensures shown == Listed(View(), limit)
    {
      hide Reversed, IdsIncrease, Listed;
      ghost var rows := View().rows;
      shown := [];
      var max := if limit > 0 && limit < count then limit else count;
      ListedFrom(View(), limit);
      var i, done := count, 0;
      assert rows[i..] == [];
      ReversedEmpty();
      while i > 0 && done < max
        invariant 0 <= i <= count
        invariant i + done == count && done <= max
        invariant shown == Reversed(rows[i..])
      {
        i := i - 1;
        assert records[i] == rows[i];
        ReversedStep(rows, i);
        shown := shown + [records[i]];
        done := done + 1;
      }
    }
  }

  lemma {:induction false} ListedFrom(r: Rows, limit: int)
    ensures var from := |r.rows| - if limit > 0 && limit < |r.rows| then limit else |r.rows|;
            Listed(r, limit) == Reversed(r.rows[from..])
  {
    hide Reversed;
  }

  lemma {:induction false} ReversedEmpty()
    ensures Reversed([]) == []
  {
  }

  lemma {:induction false} ReversedStep(rows: seq<Record>, i: nat)
    requires i < |rows|
    ensures Reversed(rows[i..]) == Reversed(rows[i + 1..]) + [rows[i]]
  {
    hide Reversed;
    assert rows[i..] == [rows[i]] + rows[i + 1..];
  }
}
