/**
 What runs keep true of the stored objects while uploads carry distinct seconds and deletes run to
 their end: every live record's bytes are the bytes that were hashed, its OCR text is what the last
 save of text left, and no operation touches another record's objects.
 */
module PipelineStore {
  import opened Bytes
  import opened Naming
  import opened Pipeline
  import opened PipelineTables

  /** The clock part of a name. */
  function Stamp(name: string): string { if |name| >= STAMP_LENGTH then name[..STAMP_LENGTH] else name }

  /** A save of OCR text that opened its file. */
  datatype TextSave = TextSave(text: Text, outcome: Save)

  /** History: the seconds used by uploads; for each id its last save of text, and the last that was complete. */
  datatype Notes = Notes(used: set<string>, last: map<Id, TextSave>, whole: map<Id, Text>)

  const NOTHING := Notes({}, map[], map[])

  function TextNoted(n: Notes, id: Id, text: Text, outcome: Save): Notes {
    if outcome == NotOpened then n
    else
      n.(last := n.last[id := TextSave(text, outcome)],
         whole := if outcome == Saved then n.whole[id := text] else n.whole)
  }

  /** The bytes the last save of text left for id, and the text last saved completely; nothing if there is none. */
  function LeftText(n: Notes, id: Id): Text {
    if id in n.last then LeftBytes(n.last[id].text, n.last[id].outcome) else []
  }

  function WholeText(n: Notes, id: Id): Text { if id in n.whole then n.whole[id] else [] }

  function OcrNoted(n: Notes, id: Id, o: OcrRun, stop: nat): Notes {
    if o.text.Some? && stop >= 1 then TextNoted(n, id, o.text.value, o.saveText) else n
  }

  /** The upload got as far as a row of its own. */
  predicate Accepted(w: World, u: Upload) {
    Admitted(w, u) && Recorded(w, u)
  }

  function NotesAfter(w: World, n: Notes, c: Call): Notes {
    match c.op
    case HandleFile(u) =>
      var n1 := n.(used := n.used + {StampText(u.time)});
      if Accepted(w, u) && c.stop >= 2 then OcrNoted(n1, w.nextId, u.ocr, c.stop - 2) else n1
    case RetryWithModel(id, _, _, o) =>
      if Effects(w, c.op) != [] then OcrNoted(n, id, o, c.stop) else n
    case _ => n
  }

  /** Stamps tell records apart, and every object belongs to a second that was used. */
  predicate Named(w: World, n: Notes) {
    && (forall name | name in w.store :: Stamp(name) in n.used)
    && (forall id | id in w.files :: SavedShape(w.files[id].saved) && Stamp(w.files[id].saved) in n.used)
    && (forall i, j | i in w.files && j in w.files && i != j :: Stamp(w.files[i].saved) != Stamp(w.files[j].saved))
    && (forall id | id in n.whole :: id in n.last)
    && (forall id | id in n.last :: id < w.nextId)
    && (forall id | id in n.last && n.last[id].outcome == Saved :: id in n.whole && n.whole[id] == n.last[id].text)
  }

  /** The stored bytes of record id hash to its `file_hash`. */
  predicate Intact(w: World, id: Id)
    requires id in w.files
  {
    w.files[id].saved in w.store && FileHash(w.store[w.files[id].saved]) == w.files[id].hash
  }

  predicate BytesOk(w: World) { forall id | id in w.files :: Intact(w, id) }

  /** The OCR object of record id is what the last save of text left for it. */
  predicate TextIs(w: World, n: Notes, id: Id)
    requires id in w.files
  {
    var name := OcrFilename(w.files[id].saved);
    (name in w.store <==> id in n.last) && (id in n.last ==> w.store[name] == LeftText(n, id))
  }

  predicate TextOk(w: World, n: Notes) { forall id | id in w.files :: TextIs(w, n, id) }

  predicate Good(w: World, n: Notes) { TablesOk(w) && Named(w, n) && BytesOk(w) && TextOk(w, n) }

  /** The premises on one call: a fresh second, and a delete that reaches and executes its DELETE. */
  predicate Disciplined(w: World, n: Notes, c: Call) {
    match c.op
    case HandleFile(u) => StampText(u.time) !in n.used
    case Delete(_, _, _, _, row) => Effects(w, c.op) == [] || c.stop == 0 || (c.stop >= 3 && row == Executed)
    case _ => true
  }

  // ---- One effect at a time ----

  lemma {:induction false} OcrStamp(saved: string)
    requires SavedShape(saved)
    ensures Stamp(OcrFilename(saved)) == Stamp(saved)
  {
  }

  /** Records with different stamps own different objects. */
  lemma {:induction false} ObjectsApart(saved: string, other: string)
    requires SavedShape(saved) && SavedShape(other)
    ensures saved != OcrFilename(other)
    ensures Stamp(saved) != Stamp(other) ==> saved != other && OcrFilename(saved) != OcrFilename(other)
  {
    SavedAndOcrNamesDisjoint(saved, other);
    OcrNameInjective(saved, other);
  }

  lemma {:induction false} StoreKeepsTables(w: World, store: map<string, seq<Byte>>)
    requires TablesOk(w)
    ensures TablesOk(w.(store := store))
  {
  }

  lemma {:induction false} IdsIssued(w: World)
    requires TablesOk(w)
    ensures w.nextId !in w.files && forall id | id in w.files :: id < w.nextId
  {
  }

  /** Record id is untouched by a write to a name it does not own. */
  lemma {:induction false} ForeignWrite(w: World, n: Notes, id: Id, name: string, bytes: seq<Byte>, outcome: Save)
    requires id in w.files && Intact(w, id) && TextIs(w, n, id)
    requires name != w.files[id].saved && name != OcrFilename(w.files[id].saved)
    ensures Intact(Stored(w, name, bytes, outcome), id) && TextIs(Stored(w, name, bytes, outcome), n, id)
  {
    hide FileHash, OcrFilename;
  }

  /** Writing under a second nobody used touches nothing that belongs to a record. */
  lemma {:induction false} FreshObjectGood(w: World, n: Notes, name: string, bytes: seq<Byte>, outcome: Save)
    requires Good(w, n) && SavedShape(name) && Stamp(name) !in n.used
    ensures Good(Stored(w, name, bytes, outcome), n.(used := n.used + {Stamp(name)}))
  {
    hide FileHash, OcrFilename, SavedShape, TablesOk, Intact, TextIs;
    var w', n' := Stored(w, name, bytes, outcome), n.(used := n.used + {Stamp(name)});
    StoreKeepsTables(w, w'.store);
    forall id | id in w.files
      ensures Intact(w', id) && TextIs(w', n', id)
    {
      assert Intact(w, id) && TextIs(w, n, id);
      ObjectsApart(name, w.files[id].saved);
      ForeignWrite(w, n, id, name, bytes, outcome);
      SameNotes(w', n, n', id);
    }
  }

  lemma {:induction false} SameNotes(w: World, n: Notes, n': Notes, id: Id)
    requires id in w.files && TextIs(w, n, id)
    requires (id in n.last <==> id in n'.last) && (id in n.last ==> n.last[id] == n'.last[id])
    ensures TextIs(w, n', id)
  {
  }

  /** The row that follows a complete save under a fresh second. */
  lemma {:induction false} RowGood(w: World, n: Notes, saved: string, data: seq<Byte>)
    requires Good(w, n) && SavedShape(saved) && Stamp(saved) !in n.used
    requires Inserts(w, FileHash(data), saved, Executed)
    ensures Good(Inserted(Stored(w, saved, data, Saved), FileHash(data), saved, Executed),
                 n.(used := n.used + {Stamp(saved)}))
  {
    hide FileHash, OcrFilename, SavedShape, TablesOk, Intact, TextIs;
    FreshObjectGood(w, n, saved, data, Saved);
    var w1, n' := Stored(w, saved, data, Saved), n.(used := n.used + {Stamp(saved)});
    var w2 := Inserted(w1, FileHash(data), saved, Executed);
    InsertedSound(w1, FileHash(data), saved, Executed);
    InsertsIgnoresStore(w, w1.store, FileHash(data), saved, Executed);
    IdsIssued(w);
    NewRowFits(w, n, saved, data);
    forall id | id in w.files
      ensures Intact(w2, id) && TextIs(w2, n', id)
    {
      assert Intact(w1, id) && TextIs(w1, n', id);
      SameObjects(w1, w2, n', id);
    }
  }

  /** A record whose names, hash and store are unchanged keeps its objects. */
  lemma {:induction false} SameObjects(w: World, w': World, n: Notes, id: Id)
    requires id in w.files && id in w'.files && w'.store == w.store
    requires w'.files[id].saved == w.files[id].saved && w'.files[id].hash == w.files[id].hash
    requires Intact(w, id) && TextIs(w, n, id)
    ensures Intact(w', id) && TextIs(w', n, id)
  {
  }

  lemma {:induction false} NewRowFits(w: World, n: Notes, saved: string, data: seq<Byte>)
    requires Named(w, n) && SavedShape(saved) && Stamp(saved) !in n.used && w.nextId !in w.files
    ensures var row := FileRow(saved, FileHash(data), false, "");
            var w2 := Stored(w, saved, data, Saved).(files := w.files[w.nextId := row], nextId := w.nextId + 1);
            Intact(w2, w.nextId) && TextIs(w2, n.(used := n.used + {Stamp(saved)}), w.nextId)
  {
    hide FileHash, SavedShape, OcrFilename;
    OcrStamp(saved);
    ObjectsApart(saved, saved);
    assert OcrFilename(saved) !in w.store;
  }

  lemma {:induction false} OcrObjectGood(w: World, n: Notes, id: Id, text: Text, outcome: Save)
    requires Good(w, n) && id in w.files
    ensures Good(Stored(w, OcrFilename(w.files[id].saved), text, outcome), TextNoted(n, id, text, outcome))
  {
    hide FileHash, OcrFilename, SavedShape, TablesOk, Intact, TextIs;
    var name := OcrFilename(w.files[id].saved);
    var w', n' := Stored(w, name, text, outcome), TextNoted(n, id, text, outcome);
    StoreKeepsTables(w, w'.store);
    OcrStamp(w.files[id].saved);
    IdsIssued(w);
    forall j | j in w.files
      ensures Intact(w', j) && TextIs(w', n', j)
    {
      assert Intact(w, j) && TextIs(w, n, j);
      ObjectsApart(w.files[j].saved, w.files[id].saved);
      if j == id {
        OwnOcrWrite(w, n, id, text, outcome);
      } else {
        ForeignWrite(w, n, j, name, text, outcome);
        SameNotes(w', n, n', j);
      }
    }
  }

  lemma {:induction false} OwnOcrWrite(w: World, n: Notes, id: Id, text: Text, outcome: Save)
    requires id in w.files && Intact(w, id) && TextIs(w, n, id)
    requires w.files[id].saved != OcrFilename(w.files[id].saved)
    ensures var w' := Stored(w, OcrFilename(w.files[id].saved), text, outcome);
            Intact(w', id) && TextIs(w', TextNoted(n, id, text, outcome), id)
  {
    hide FileHash, OcrFilename;
  }

  /** Changes to the tables that keep every record's names and hash keep the objects right. */
  lemma {:induction false} TablesOnlyGood(w: World, n: Notes, w': World)
    requires Good(w, n) && TablesOk(w') && w'.store == w.store && w'.nextId == w.nextId
    requires forall id | id in w'.files ::
               id in w.files && w'.files[id].saved == w.files[id].saved && w'.files[id].hash == w.files[id].hash
    ensures Good(w', n)
  {
    hide FileHash, OcrFilename, SavedShape, TablesOk, Intact, TextIs;
    forall id | id in w'.files
      ensures Intact(w', id) && TextIs(w', n, id)
    {
      assert Intact(w, id) && TextIs(w, n, id);
      SameObjects(w, w', n, id);
    }
  }

  // ---- Whole operations, at every stopping point ----

  lemma {:induction false} ParsedKeepsFiles(w: World, id: Id, json: string, outcome: Upsert)
    ensures Parsed(w, id, json, outcome).files == w.files
    ensures Parsed(w, id, json, outcome).store == w.store && Parsed(w, id, json, outcome).nextId == w.nextId
  {
  }

  lemma {:induction false} ParsedGood(w: World, n: Notes, id: Id, json: string, outcome: Upsert)
    requires Good(w, n)
    ensures Good(Parsed(w, id, json, outcome), n)
  {
    hide TablesOk, Named, BytesOk, TextOk, Parsed;
    ParsedSound(w, id, json, outcome);
    ParsedKeepsFiles(w, id, json, outcome);
    TablesOnlyGood(w, n, Parsed(w, id, json, outcome));
  }

  lemma {:induction false} MarkGood(w: World, n: Notes, id: Id, outcome: Db)
    requires Good(w, n) && id in w.files
    ensures Good(OcrMarked(w, id, OcrFilename(w.files[id].saved), outcome), n)
  {
    hide OcrFilename, TablesOk, Named, BytesOk, TextOk;
    OcrMarkedSound(w, id, OcrFilename(w.files[id].saved), outcome);
    TablesOnlyGood(w, n, OcrMarked(w, id, OcrFilename(w.files[id].saved), outcome));
  }

  lemma {:induction false} OcrGood(w: World, n: Notes, id: Id, o: OcrRun)
    requires Good(w, n) && id in w.files
    ensures forall k | 0 <= k < |OcrEffects(w, id, w.files[id].saved, o)| ::
              Good(OcrEffects(w, id, w.files[id].saved, o)[k], OcrNoted(n, id, o, k + 1))
  {
    hide Good, OcrFilename;
    if o.text.Some? {
      var name := OcrFilename(w.files[id].saved);
      var w1, n' := Stored(w, name, o.text.value, o.saveText), TextNoted(n, id, o.text.value, o.saveText);
      OcrObjectGood(w, n, id, o.text.value, o.saveText);
      var w2 := OcrMarked(w1, id, name, o.mark);
      MarkGood(w1, n', id, o.mark);
      if o.parse.json.Some? {
        ParsedGood(w2, n', id, o.parse.json.value, o.parse.upsert);
      }
    }
  }

  lemma {:induction false} UploadGood(w: World, n: Notes, u: Upload, stop: nat)
    requires Good(w, n) && StampText(u.time) !in n.used
    ensures Good(After(w, Call(HandleFile(u), stop)), NotesAfter(w, n, Call(HandleFile(u), stop)))
  {
    hide Good, FileHash, OcrFilename, SavedShape, OcrEffects, Inserts;
    var hash, saved, n1 := FileHash(u.data), SavedName(u), n.(used := n.used + {StampText(u.time)});
    GenFilenameShape(u.time, u.original);
    assert Stamp(saved) == StampText(u.time);
    FewerPremises(w, n, StampText(u.time));
    if Admitted(w, u) && stop > 0 {
      var w1 := Stored(w, saved, u.data, u.save);
      FreshObjectGood(w, n, saved, u.data, u.save);
      InsertsIgnoresStore(w, w1.store, hash, saved, u.insert);
      if u.save == Saved && Inserts(w1, hash, saved, u.insert) && stop > 1 {
        var w2 := Inserted(w1, hash, saved, u.insert);
        RowGood(w, n, saved, u.data);
        OcrGood(w2, n1, w.nextId, u.ocr);
        var e := OcrEffects(w2, w.nextId, saved, u.ocr);
        NoTextNoEffects(w2, w.nextId, saved, u.ocr);
        assert Effects(w, HandleFile(u)) == [w1, w2] + e;
        if stop > 2 && e != [] {
          var k := if stop - 2 < |e| then stop - 3 else |e| - 1;
          assert After(w, Call(HandleFile(u), stop)) == e[k];
        }
      }
    }
  }

  lemma {:induction false} NoTextNoEffects(w: World, id: Id, saved: string, o: OcrRun)
    ensures OcrEffects(w, id, saved, o) == [] <==> o.text.None?
  {
  }

  lemma {:induction false} InsertsIgnoresStore(
    w: World, store: map<string, seq<Byte>>, hash: string, saved: string, outcome: Db)
    ensures Inserts(w.(store := store), hash, saved, outcome) <==> Inserts(w, hash, saved, outcome)
    ensures Inserts(w, hash, saved, outcome) ==> outcome == Executed
  {
    assert w.(store := store).files == w.files;
  }

  lemma {:induction false} FewerPremises(w: World, n: Notes, stamp: string)
    requires Good(w, n)
    ensures Good(w, n.(used := n.used + {stamp}))
  {
    hide FileHash, OcrFilename, SavedShape, TablesOk, Intact, TextIs;
    forall id | id in w.files
      ensures TextIs(w, n.(used := n.used + {stamp}), id)
    {
      SameNotes(w, n, n.(used := n.used + {stamp}), id);
    }
  }

  lemma {:induction false} RetryWithModelGood(w: World, n: Notes, op: Op, stop: nat)
    requires Good(w, n) && op.RetryWithModel?
    ensures Good(After(w, Call(op, stop)), NotesAfter(w, n, Call(op, stop)))
  {
    hide Good, OcrEffects;
    var e := Effects(w, op);
    if e != [] {
      OcrGood(w, n, op.id, op.ocr);
      NoTextNoEffects(w, op.id, w.files[op.id].saved, op.ocr);
      if stop > 0 {
        var k := if stop < |e| then stop - 1 else |e| - 1;
        assert After(w, Call(op, stop)) == e[k];
      }
    }
  }

  lemma {:induction false} DeleteGood(w: World, n: Notes, d: Op, stop: nat)
    requires Good(w, n) && d.Delete? && Disciplined(w, n, Call(d, stop))
    ensures Good(After(w, Call(d, stop)), n)
  {
    hide FileHash, OcrFilename, SavedShape, TablesOk, Intact, TextIs, TakesOnly, DeleteEffects;
    if DeleteEffects(w, d) != [] && stop > 0 {
      CallSound(w, Call(d, stop));
      CompleteDelete(w, d, stop);
      OwnObjectsOnly(w, d);
      hide After;
      var w' := After(w, Call(d, stop));
      forall id | id in w'.files
        ensures Intact(w', id) && TextIs(w', n, id)
      {
        assert Intact(w, id) && TextIs(w, n, id);
        DeleteSpares(w, w', n, d.id, id);
      }
      TakesOnlyNames(w, w', n, d.id);
    }
  }

  /** From w to w' nothing but these objects went, and nothing was written. */
  predicate TakesOnly(w: World, w': World, own: set<string>) {
    && w'.store.Keys <= w.store.Keys
    && (forall name | name in w.store && name !in own :: name in w'.store && w'.store[name] == w.store[name])
    && (forall name | name in w'.store && name in w.store :: w'.store[name] == w.store[name])
  }

  function OwnObjects(w: World, id: Id): set<string>
    requires id in w.files
  {
    {w.files[id].saved, OcrFilename(w.files[id].saved)}
  }

  lemma {:induction false} TakesOnlyNames(w: World, w': World, n: Notes, gone: Id)
    requires Named(w, n) && gone in w.files && TakesOnly(w, w', OwnObjects(w, gone))
    ensures forall name | name in w'.store :: Stamp(name) in n.used
  {
    hide OcrFilename, SavedShape, Stamp;
  }

  /** Another record keeps its bytes and its text. */
  lemma {:induction false} DeleteSpares(w: World, w': World, n: Notes, gone: Id, id: Id)
    requires gone in w.files && id in w.files && id in w'.files && w'.files[id] == w.files[id]
    requires SavedShape(w.files[id].saved) && SavedShape(w.files[gone].saved)
    requires Stamp(w.files[id].saved) != Stamp(w.files[gone].saved)
    requires TakesOnly(w, w', OwnObjects(w, gone)) && Intact(w, id) && TextIs(w, n, id)
    ensures Intact(w', id) && TextIs(w', n, id)
  {
    hide FileHash, OcrFilename, SavedShape, Intact, TextIs;
    ObjectsApart(w.files[id].saved, w.files[gone].saved);
    ObjectsApart(w.files[gone].saved, w.files[id].saved);
    KeptObjects(w, w', n, id);
  }

  lemma {:induction false} CompleteDelete(w: World, d: Op, stop: nat)
    requires d.Delete? && DeleteEffects(w, d) != [] && stop >= 3 && d.row == Executed
    ensures var w' := After(w, Call(d, stop));
            w' == DeleteEffects(w, d)[2] && w'.files == w.files - {d.id} && w'.nextId == w.nextId
  {
  }

  /** A delete removes at most the two objects of its own record. */
  lemma {:induction false} OwnObjectsOnly(w: World, d: Op)
    requires TablesOk(w) && d.Delete? && DeleteEffects(w, d) != []
    ensures d.id in w.files
    ensures forall k | 0 <= k < 3 :: TakesOnly(w, DeleteEffects(w, d)[k], OwnObjects(w, d.id))
  {
    hide OcrFilename;
  }

  lemma {:induction false} KeptObjects(w: World, w': World, n: Notes, id: Id)
    requires id in w.files && id in w'.files && w'.files[id] == w.files[id]
    requires var own := {w.files[id].saved, OcrFilename(w.files[id].saved)};
             forall name | name in own ::
               (name in w.store <==> name in w'.store) && (name in w.store ==> w'.store[name] == w.store[name])
    requires Intact(w, id) && TextIs(w, n, id)
    ensures Intact(w', id) && TextIs(w', n, id)
  {
    hide FileHash, OcrFilename;
  }

  /** One call keeps every object right, wherever it stops and whatever fails in it. */
  lemma {:induction false} CallGood(w: World, n: Notes, c: Call)
    requires Good(w, n) && Disciplined(w, n, c)
    ensures Good(After(w, c), NotesAfter(w, n, c))
  {
    hide Good, UploadEffects, OcrEffects;
    match c.op
    case HandleFile(u) => UploadGood(w, n, u, c.stop);
    case RetryOcr(id, _, _, p) =>
      if p.json.Some? {
        ParsedGood(w, n, id, p.json.value, p.upsert);
      }
    case RetryWithModel(_, _, _, _) => RetryWithModelGood(w, n, c.op, c.stop);
    case Delete(_, _, _, _, _) => DeleteGood(w, n, c.op, c.stop);
  }

  function RunNotes(w: World, n: Notes, calls: seq<Call>): Notes
    decreases |calls|
  {
    if calls == [] then n else RunNotes(After(w, calls[0]), NotesAfter(w, n, calls[0]), calls[1..])
  }

  predicate RunDisciplined(w: World, n: Notes, calls: seq<Call>)
    decreases |calls|
  {
    calls == [] ||
    (Disciplined(w, n, calls[0]) && RunDisciplined(After(w, calls[0]), NotesAfter(w, n, calls[0]), calls[1..]))
  }

  /** In every disciplined run, every live record's bytes hash to its `file_hash`. */
  lemma {:induction false} RunGood(w: World, n: Notes, calls: seq<Call>)
    requires Good(w, n) && RunDisciplined(w, n, calls)
    ensures Good(Run(w, calls), RunNotes(w, n, calls))
    decreases |calls|
  {
    hide Good, Disciplined, After, NotesAfter;
    if calls != [] {
      CallGood(w, n, calls[0]);
      RunGood(After(w, calls[0]), NotesAfter(w, n, calls[0]), calls[1..]);
    }
  }

  lemma {:induction false} EmptyGood()
    ensures Good(EMPTY, NOTHING)
  {
  }

  /** From an empty database, every disciplined run ends with all live bytes right. */
  lemma {:induction false} EveryRunKeepsBytes(calls: seq<Call>)
    requires RunDisciplined(EMPTY, NOTHING, calls)
    ensures BytesOk(Run(EMPTY, calls))
  {
    hide Run, RunDisciplined, RunNotes;
    EmptyGood();
    RunGood(EMPTY, NOTHING, calls);
  }
}
