/**
 Exactly when an operation on one record reaches another. Names have the granularity of a second, so
 records of one second share the name of their OCR text, and an upload can hit a live record's bytes.
 */
module PipelineCollisions {
  import opened Bytes
  import opened Naming
  import opened Pipeline
  import opened PipelineTables
  import opened PipelineStore
  import opened PipelineGuarantees

  /** Writing these bytes under this name would change the store. */
  predicate Differs(w: World, name: string, bytes: seq<Byte>) { name !in w.store || w.store[name] != bytes }

  predicate SameSecond(saved: string, other: string) { Stamp(saved) == Stamp(other) }

  /** The upload writes other bytes under the saved name of record id. */
  predicate OverwritesBytes(w: World, u: Upload, stop: nat, id: Id)
    requires id in w.files
  {
    && Admitted(w, u) && stop >= 1 && u.save != NotOpened
    && SavedName(u) == w.files[id].saved && Differs(w, w.files[id].saved, LeftBytes(u.data, u.save))
  }

  /** An OCR run for a record saved as `saved` writes another text under the OCR name of record id. */
  predicate OverwritesText(w: World, saved: string, o: OcrRun, id: Id)
    requires id in w.files
  {
    && o.text.Some? && o.saveText != NotOpened && SameSecond(saved, w.files[id].saved)
    && Differs(w, OcrFilename(w.files[id].saved), LeftBytes(o.text.value, o.saveText))
  }

  /** The delete removes the text record id shares with the deleted record. */
  predicate RemovesText(w: World, d: Op, stop: nat, id: Id)
    requires d.Delete? && id in w.files
  {
    && DeleteEffects(w, d) != [] && stop >= 2 && w.files[d.id].ocrName != "" && d.removeOcr == Executed
    && SameSecond(w.files[d.id].saved, w.files[id].saved) && OcrFilename(w.files[id].saved) in w.store
  }

  predicate Reaches(w: World, c: Call, id: Id)
    requires id in w.files
  {
    match c.op
    case HandleFile(u) =>
      || OverwritesBytes(w, u, c.stop, id)
      || (Accepted(w, u) && c.stop >= 3 && OverwritesText(w, SavedName(u), u.ocr, id))
    case RetryOcr(_, _, _, _) => false
    case RetryWithModel(target, _, _, o) =>
      Effects(w, c.op) != [] && c.stop >= 1 && OverwritesText(w, w.files[target].saved, o, id)
    case Delete(_, _, _, _, _) => RemovesText(w, c.op, c.stop, id)
  }

  // ---- Rows and receipts ----

  predicate SameRecord(w: World, w': World, id: Id) {
    && (id in w.files <==> id in w'.files) && (id in w.files ==> w'.files[id] == w.files[id])
    && SameReceipts(w, w', id)
  }

  lemma {:induction false} SameRecordTransitive(w: World, w': World, w'': World, id: Id)
    requires SameRecord(w, w', id) && SameRecord(w', w'', id)
    ensures SameRecord(w, w'', id)
  {
  }

  lemma {:induction false} StoreSameRecord(w: World, store: map<string, seq<Byte>>, id: Id)
    ensures SameRecord(w, w.(store := store), id)
  {
  }

  lemma {:induction false} MarkSameRecord(w: World, target: Id, name: string, outcome: Db, id: Id)
    requires id != target
    ensures SameRecord(w, OcrMarked(w, target, name, outcome), id)
  {
  }

  lemma {:induction false} ParseSameRecord(w: World, target: Id, json: string, outcome: Upsert, id: Id)
    requires ReceiptsOk(w) && id != target
    ensures SameRecord(w, Parsed(w, target, json, outcome), id)
  {
    ParsedKeepsFiles(w, target, json, outcome);
    ReceiptElsewhere(w, target, json, outcome, id);
  }

  lemma {:induction false} OcrSameRecord(w: World, target: Id, saved: string, o: OcrRun, id: Id)
    requires TablesOk(w) && id != target && (target in w.files ==> w.files[target].saved == saved)
    ensures forall k | 0 <= k < |OcrEffects(w, target, saved, o)| ::
              SameRecord(w, OcrEffects(w, target, saved, o)[k], id)
  {
    hide SameRecord, OcrFilename, TablesOk, Parsed;
    if o.text.Some? {
      var name := OcrFilename(saved);
      var w1 := Stored(w, name, o.text.value, o.saveText);
      StoreSameRecord(w, w1.store, id);
      var w2 := OcrMarked(w1, target, name, o.mark);
      MarkSameRecord(w1, target, name, o.mark, id);
      SameRecordTransitive(w, w1, w2, id);
      if o.parse.json.Some? {
        StoreKeepsTables(w, w1.store);
        OcrMarkedSound(w1, target, name, o.mark);
        assert ReceiptsOk(w2) by { TablesHaveReceipts(w2); }
        ParseSameRecord(w2, target, o.parse.json.value, o.parse.upsert, id);
        SameRecordTransitive(w, w2, Parsed(w2, target, o.parse.json.value, o.parse.upsert), id);
      }
    }
  }

  lemma {:induction false} TablesHaveReceipts(w: World)
    requires TablesOk(w)
    ensures ReceiptsOk(w)
  {
  }

  lemma {:induction false} InsertSameRecord(w: World, hash: string, saved: string, outcome: Db, id: Id)
    requires TablesOk(w) && id != w.nextId
    ensures SameRecord(w, Inserted(w, hash, saved, outcome), id)
  {
  }

  lemma {:induction false} UploadSameRecord(w: World, u: Upload, stop: nat, id: Id)
    requires TablesOk(w) && id != w.nextId
    ensures SameRecord(w, After(w, Call(HandleFile(u), stop)), id)
  {
    hide SameRecord, OcrFilename, TablesOk, OcrEffects, FileHash, SavedName, Inserts, Admitted;
    assert SameRecord(w, w, id) by { StoreSameRecord(w, w.store, id); }
    var hash, saved := FileHash(u.data), SavedName(u);
    var w1 := Stored(w, saved, u.data, u.save);
    StoreSameRecord(w, w1.store, id);
    StoreKeepsTables(w, w1.store);
    var w2 := Inserted(w1, hash, saved, u.insert);
    InsertSameRecord(w1, hash, saved, u.insert, id);
    SameRecordTransitive(w, w1, w2, id);
    InsertedSound(w1, hash, saved, u.insert);
    if u.save == Saved && Inserts(w1, hash, saved, u.insert) {
      OcrSameRecord(w2, w1.nextId, saved, u.ocr, id);
      forall k | 0 <= k < |OcrEffects(w2, w1.nextId, saved, u.ocr)|
        ensures SameRecord(w, OcrEffects(w2, w1.nextId, saved, u.ocr)[k], id)
      {
        SameRecordTransitive(w, w2, OcrEffects(w2, w1.nextId, saved, u.ocr)[k], id);
      }
    }
  }

  lemma {:induction false} RetrySameRecord(w: World, c: Call, id: Id)
    requires TablesOk(w) && id != Target(w, c.op) && (c.op.RetryOcr? || c.op.RetryWithModel?)
    ensures SameRecord(w, After(w, c), id)
  {
    hide SameRecord, OcrFilename, TablesOk, OcrEffects;
    assert SameRecord(w, w, id) by { StoreSameRecord(w, w.store, id); }
    match c.op
    case RetryOcr(target, _, _, p) =>
      if p.json.Some? {
        TablesHaveReceipts(w);
        ParseSameRecord(w, target, p.json.value, p.upsert, id);
      }
    case RetryWithModel(target, _, _, o) =>
      if target in w.files {
        OcrSameRecord(w, target, w.files[target].saved, o, id);
      }
  }

  lemma {:induction false} DeleteSameRecord(w: World, d: Op, stop: nat, id: Id)
    requires d.Delete? && id != d.id
    ensures SameRecord(w, After(w, Call(d, stop)), id)
  {
    hide SameRecord, RowDeleted, OcrFilename;
    assert SameRecord(w, w, id) by { StoreSameRecord(w, w.store, id); }
    if d.id in w.files {
      var w1 := Removed(w, w.files[d.id].saved, d.removeSaved);
      var w2 := if w.files[d.id].ocrName != "" then Removed(w1, w.files[d.id].ocrName, d.removeOcr) else w1;
      StoreSameRecord(w, w1.store, id);
      StoreSameRecord(w, w2.store, id);
      RowSameRecord(w2, d.id, d.row, id);
      SameRecordTransitive(w, w2, RowDeleted(w2, d.id, d.row), id);
    }
  }

  lemma {:induction false} RowSameRecord(w: World, target: Id, outcome: Db, id: Id)
    requires id != target
    ensures SameRecord(w, RowDeleted(w, target, outcome), id)
  {
  }

  // ---- Objects ----

  lemma {:induction false} WrittenObject(w: World, name: string, bytes: seq<Byte>, outcome: Save, at: string)
    ensures SameObject(w, Stored(w, name, bytes, outcome), at) <==>
              outcome == NotOpened || name != at || !Differs(w, at, LeftBytes(bytes, outcome))
  {
  }

  /** The store an upload leaves: its file, and its text if the OCR run was reached. */
  lemma {:induction false} UploadStore(w: World, u: Upload, stop: nat)
    requires TablesOk(w)
    ensures var w' := After(w, Call(HandleFile(u), stop));
            var w1 := Stored(w, SavedName(u), u.data, u.save);
            w'.store ==
            if !Admitted(w, u) || stop == 0 then w.store
            else if !(Recorded(w, u) && stop >= 3 && u.ocr.text.Some?) then w1.store
            else Stored(w1, OcrFilename(SavedName(u)), u.ocr.text.value, u.ocr.saveText).store
  {
    hide FileHash, OcrFilename, Inserts, OcrEffects, SavedName, Admitted, Stored;
    var hash, saved := FileHash(u.data), SavedName(u);
    var w1 := Stored(w, saved, u.data, u.save);
    StoredIsStore(w, saved, u.data, u.save);
    InsertsIgnoresStore(w, w1.store, hash, saved, u.insert);
    if u.save == Saved && Inserts(w1, hash, saved, u.insert) {
      var w2 := Inserted(w1, hash, saved, u.insert);
      InsertedHasRow(w1, hash, saved, u.insert);
      StoredIgnoresTables(w1, w2, OcrFilename(saved), u.ocr);
      NoTextNoEffects(w2, w1.nextId, saved, u.ocr);
      if u.ocr.text.Some? {
        OcrLeaves(w2, w1.nextId, saved, u.ocr);
      }
    }
  }

  lemma {:induction false} StoredIsStore(w: World, name: string, bytes: seq<Byte>, outcome: Save)
    ensures Stored(w, name, bytes, outcome) == w.(store := Stored(w, name, bytes, outcome).store)
  {
  }

  lemma {:induction false} InsertedHasRow(w: World, hash: string, saved: string, outcome: Db)
    requires Inserts(w, hash, saved, outcome)
    ensures w.nextId in Inserted(w, hash, saved, outcome).files && Inserted(w, hash, saved, outcome).store == w.store
  {
  }

  lemma {:induction false} StoredIgnoresTables(w: World, w': World, name: string, o: OcrRun)
    requires w'.store == w.store
    ensures o.text.Some? ==>
              Stored(w', name, o.text.value, o.saveText).store == Stored(w, name, o.text.value, o.saveText).store
  {
  }

  /** The names of an upload against those of a record. */
  lemma {:induction false} NamesMeet(saved: string, other: string)
    requires SavedShape(saved) && SavedShape(other)
    ensures saved != OcrFilename(other) && OcrFilename(saved) != other
    ensures OcrFilename(saved) == OcrFilename(other) <==> SameSecond(saved, other)
  {
    SavedAndOcrNamesDisjoint(saved, other);
    SavedAndOcrNamesDisjoint(other, saved);
    OcrNameInjective(saved, other);
  }

  lemma {:induction false} SameStore(w: World, v: World, v': World, at: string)
    requires v.store == v'.store
    ensures SameObject(w, v, at) <==> SameObject(w, v', at)
  {
  }

  /** Past a write elsewhere, a second write changes an object exactly as it would have at first. */
  lemma {:induction false} WrittenAfter(w: World, w1: World, name: string, bytes: seq<Byte>, outcome: Save, at: string)
    requires SameObject(w, w1, at)
    ensures SameObject(w, Stored(w1, name, bytes, outcome), at) <==>
              outcome == NotOpened || name != at || !Differs(w, at, LeftBytes(bytes, outcome))
  {
  }

  lemma {:induction false} NotWritten(w: World, w1: World, name: string, bytes: seq<Byte>, outcome: Save, at: string)
    requires name != at
    ensures SameObject(w, Stored(w1, name, bytes, outcome), at) <==> SameObject(w, w1, at)
  {
  }

  lemma {:induction false} SameObjectReflexive(w: World, at: string)
    ensures SameObject(w, w, at)
  {
  }

  /** An upload changes record id's bytes exactly when it writes others under the same name. */
  lemma {:induction false} UploadKeepsSavedIff(w: World, u: Upload, stop: nat, id: Id)
    requires TablesOk(w) && Shapes(w) && id in w.files
    ensures SameObject(w, After(w, Call(HandleFile(u), stop)), w.files[id].saved) <==> !OverwritesBytes(w, u, stop, id)
  {
    UploadStore(w, u, stop);
    GenFilenameShape(u.time, u.original);
    NamesMeet(SavedName(u), w.files[id].saved);
    hide After, FileHash, OcrFilename, SavedName, SavedShape, TablesOk, Shapes, Admitted, Recorded, Accepted;
    hide SameObject, SameSecond, Stored, Differs, LeftBytes;
    var saved, at, w' := SavedName(u), w.files[id].saved, After(w, Call(HandleFile(u), stop));
    var w1 := Stored(w, saved, u.data, u.save);
    SameObjectReflexive(w, at);
    WrittenObject(w, saved, u.data, u.save, at);
    if !Admitted(w, u) || stop == 0 {
      SameStore(w, w', w, at);
    } else if !(Recorded(w, u) && stop >= 3 && u.ocr.text.Some?) {
      SameStore(w, w', w1, at);
    } else {
      NotWritten(w, w1, OcrFilename(saved), u.ocr.text.value, u.ocr.saveText, at);
      SameStore(w, w', Stored(w1, OcrFilename(saved), u.ocr.text.value, u.ocr.saveText), at);
    }
  }

  /** An upload changes record id's OCR text exactly when it is recorded in the same second and saves another text. */
  lemma {:induction false} UploadKeepsTextIff(w: World, u: Upload, stop: nat, id: Id)
    requires TablesOk(w) && Shapes(w) && id in w.files
    ensures SameObject(w, After(w, Call(HandleFile(u), stop)), OcrFilename(w.files[id].saved)) <==>
              !(Accepted(w, u) && stop >= 3 && OverwritesText(w, SavedName(u), u.ocr, id))
  {
    UploadStore(w, u, stop);
    GenFilenameShape(u.time, u.original);
    NamesMeet(SavedName(u), w.files[id].saved);
    hide After, FileHash, OcrFilename, SavedName, SavedShape, TablesOk, Shapes, Admitted, Recorded;
    hide SameObject, SameSecond, Stored, Differs, LeftBytes;
    var saved, at, w' := SavedName(u), OcrFilename(w.files[id].saved), After(w, Call(HandleFile(u), stop));
    var w1 := Stored(w, saved, u.data, u.save);
    SameObjectReflexive(w, at);
    NotWritten(w, w, saved, u.data, u.save, at);
    if !Admitted(w, u) || stop == 0 {
      SameStore(w, w', w, at);
    } else if !(Recorded(w, u) && stop >= 3 && u.ocr.text.Some?) {
      SameStore(w, w', w1, at);
    } else {
      WrittenAfter(w, w1, OcrFilename(saved), u.ocr.text.value, u.ocr.saveText, at);
      SameStore(w, w', Stored(w1, OcrFilename(saved), u.ocr.text.value, u.ocr.saveText), at);
    }
  }

  /** The store a retry with a model leaves. */
  lemma {:induction false} RetryStore(w: World, op: Op, stop: nat)
    requires op.RetryWithModel?
    ensures After(w, Call(op, stop)).store ==
            if Effects(w, op) == [] || stop == 0 then w.store
            else Stored(w, OcrFilename(w.files[op.id].saved), op.ocr.text.value, op.ocr.saveText).store
  {
    hide OcrFilename, OcrEffects, Stored, Read;
    if Effects(w, op) != [] {
      NoTextNoEffects(w, op.id, w.files[op.id].saved, op.ocr);
      OcrLeaves(w, op.id, w.files[op.id].saved, op.ocr);
    }
  }

  lemma {:induction false} RetryReachesIff(w: World, c: Call, id: Id)
    requires Shapes(w) && id in w.files && c.op.RetryWithModel?
    ensures var w' := After(w, c);
            && SameObject(w, w', w.files[id].saved)
            && (SameObject(w, w', OcrFilename(w.files[id].saved)) <==> !Reaches(w, c, id))
  {
    RetryStore(w, c.op, c.stop);
    hide OcrFilename, After, SavedShape, SameSecond, OcrEffects, LeftBytes;
    if Effects(w, c.op) != [] {
      var saved := w.files[c.op.id].saved;
      NamesMeet(saved, w.files[id].saved);
      NoTextNoEffects(w, c.op.id, saved, c.op.ocr);
      WrittenObject(w, OcrFilename(saved), c.op.ocr.text.value, c.op.ocr.saveText, OcrFilename(w.files[id].saved));
    }
  }

  /** The store a delete leaves. */
  function DeletedStore(w: World, row: FileRow, d: Op, stop: nat): map<string, seq<Byte>>
    requires d.Delete?
  {
    var store := if d.removeSaved == Executed then w.store - {row.saved} else w.store;
    if stop >= 2 && row.ocrName != "" && d.removeOcr == Executed then store - {row.ocrName} else store
  }

  lemma {:induction false} DeleteStore(w: World, d: Op, stop: nat)
    requires d.Delete?
    ensures After(w, Call(d, stop)).store ==
            if DeleteEffects(w, d) == [] || stop == 0 then w.store else DeletedStore(w, w.files[d.id], d, stop)
  {
    hide OcrFilename;
  }

  lemma {:induction false} DeleteReachesIff(w: World, d: Op, stop: nat, id: Id)
    requires TablesOk(w) && Shapes(w) && d.Delete? && id in w.files && id != d.id
    ensures var w' := After(w, Call(d, stop));
            && SameObject(w, w', w.files[id].saved)
            && (SameObject(w, w', OcrFilename(w.files[id].saved)) <==> !RemovesText(w, d, stop, id))
  {
    DeleteStore(w, d, stop);
    if DeleteEffects(w, d) != [] {
      DeleteHasRow(w, d);
      assert OcrFlag(w.files[d.id]) && w.files[id].saved != w.files[d.id].saved;
      NamesMeet(w.files[d.id].saved, w.files[id].saved);
      RemovedObjects(w, w.files[d.id], d, stop, w.files[id].saved);
      RemovedObjects(w, w.files[d.id], d, stop, OcrFilename(w.files[id].saved));
    }
    hide After, DeleteEffects, DeletedStore, OcrFilename, SavedShape, SameSecond, TablesOk, Shapes;
  }

  lemma {:induction false} RemovedObjects(w: World, row: FileRow, d: Op, stop: nat, at: string)
    requires d.Delete? && at != row.saved
    ensures var store := DeletedStore(w, row, d, stop);
            var taken := stop >= 2 && row.ocrName != "" && d.removeOcr == Executed && at == row.ocrName;
            && (at in store <==> at in w.store && !taken)
            && (at in store ==> store[at] == w.store[at])
  {
  }

  lemma {:induction false} DeleteHasRow(w: World, d: Op)
    requires d.Delete? && DeleteEffects(w, d) != []
    ensures d.id in w.files
  {
  }

  /**
   Upload, retry and delete leave another record's row, receipt, bytes and text alone exactly when they
   do not reach it through the names of its second.
   */
  lemma {:induction false} OthersUntouchedIff(w: World, c: Call, id: Id)
    requires TablesOk(w) && Shapes(w) && id in w.files && id != Target(w, c.op)
    ensures Untouched(w, After(w, c), id) <==> !Reaches(w, c, id)
  {
    hide After, Effects, OcrFilename, SavedName, SavedShape, TablesOk, Shapes, Accepted, SameReceipts, SameObject;
    hide OverwritesBytes, OverwritesText, RemovesText;
    match c.op
    case HandleFile(u) =>
      UploadSameRecord(w, u, c.stop, id);
      UploadKeepsSavedIff(w, u, c.stop, id);
      UploadKeepsTextIff(w, u, c.stop, id);
    case RetryOcr(_, _, _, _) =>
      RetrySameRecord(w, c, id);
      ParseKeepsStore(w, c, id);
    case RetryWithModel(_, _, _, _) =>
      RetrySameRecord(w, c, id);
      RetryReachesIff(w, c, id);
    case Delete(_, _, _, _, _) =>
      DeleteSameRecord(w, c.op, c.stop, id);
      DeleteReachesIff(w, c.op, c.stop, id);
  }

  lemma {:induction false} ParseKeepsStore(w: World, c: Call, id: Id)
    requires c.op.RetryOcr? && id in w.files
    ensures SameObject(w, After(w, c), w.files[id].saved) && SameObject(w, After(w, c), OcrFilename(w.files[id].saved))
  {
    hide OcrFilename;
    if c.op.parse.json.Some? {
      ParsedKeepsFiles(w, c.op.id, c.op.parse.json.value, c.op.parse.upsert);
    }
  }

  /** In a second nobody used, upload, retry and delete change no other row, receipt or stored object. */
  lemma {:induction false} OthersUntouched(w: World, n: Notes, c: Call, id: Id)
    requires TablesOk(w) && Named(w, n) && id in w.files && id != Target(w, c.op)
    requires c.op.HandleFile? ==> StampText(c.op.upload.time) !in n.used
    ensures Untouched(w, After(w, c), id)
  {
    hide OcrFilename, SavedShape, TablesOk, After, Untouched, LeftBytes, Admitted, Recorded;
    OthersUntouchedIff(w, c, id);
    if c.op.HandleFile? {
      GenFilenameShape(c.op.upload.time, c.op.upload.original);
    }
  }

  // ---- Redelivered uploads ----

  /** What an upload of bytes that have a record can do: save them once more, and nothing else. */
  lemma {:induction false} RedeliveredEffects(w: World, u: Upload)
    requires HashTaken(w, FileHash(u.data))
    ensures UploadEffects(w, u) ==
            if u.lookup == Refused || (u.lookup == Answered && !u.strategyContinues) then []
            else [Stored(w, SavedName(u), u.data, u.save)]
  {
    hide FileHash, SavedName;
    InsertsIgnoresStore(w, Stored(w, SavedName(u), u.data, u.save).store, FileHash(u.data), SavedName(u), u.insert);
  }

  /**
   Redelivering bytes that have a record never touches the tables. The store stays the same too, exactly when
   the duplicate is recognised, the file is not opened, or the same bytes are there under its name.
   */
  lemma {:induction false} RedeliveryIff(w: World, u: Upload, stop: nat)
    requires HashTaken(w, FileHash(u.data))
    ensures var w' := After(w, Call(HandleFile(u), stop));
            && w'.(store := w.store) == w
            && (w' == w <==>
                  || stop == 0 || u.save == NotOpened || u.lookup == Refused
                  || (u.lookup == Answered && !u.strategyContinues)
                  || !Differs(w, SavedName(u), LeftBytes(u.data, u.save)))
  {
    RedeliveredEffects(w, u);
    FewEffects(w, HandleFile(u), stop);
    StoredIff(w, SavedName(u), u.data, u.save);
    hide FileHash, SavedName, UploadEffects, HashTaken, LeftBytes, Stored, Differs, After;
  }

  lemma {:induction false} FewEffects(w: World, op: Op, stop: nat)
    requires |Effects(w, op)| <= 1
    ensures After(w, Call(op, stop)) == if Effects(w, op) == [] || stop == 0 then w else Effects(w, op)[0]
  {
    hide Effects;
  }

  /** A save leaves the world as it is exactly when it writes nothing new. */
  lemma {:induction false} StoredIff(w: World, name: string, bytes: seq<Byte>, outcome: Save)
    ensures Stored(w, name, bytes, outcome).(store := w.store) == w
    ensures Stored(w, name, bytes, outcome) == w <==>
              outcome == NotOpened || !Differs(w, name, LeftBytes(bytes, outcome))
  {
    hide LeftBytes;
    var left := LeftBytes(bytes, outcome);
    if outcome != NotOpened && !Differs(w, name, left) {
      assert w.store[name := left] == w.store;
    }
  }

  /** So it is after any run from the upload, as long as the record of the first delivery lives. */
  lemma {:induction false} RunRedeliveryIff(
    w: World, u: Upload, stop: nat, calls: seq<Call>, again: Upload, stop': nat)
    requires TablesOk(w) && Accepted(w, u) && stop >= 2 && again.data == u.data
    requires forall k | 0 <= k < |calls| :: !Deletes(calls[k], w.nextId)
    ensures var v := Run(After(w, Call(HandleFile(u), stop)), calls);
            var v' := After(v, Call(HandleFile(again), stop'));
            && v'.(store := v.store) == v
            && (v' == v <==>
                  || stop' == 0 || again.save == NotOpened || again.lookup == Refused
                  || (again.lookup == Answered && !again.strategyContinues)
                  || !Differs(v, SavedName(again), LeftBytes(again.data, again.save)))
  {
    hide FileHash, SavedName, TablesOk, Run, Accepted, After, LeftBytes;
    var w1 := After(w, Call(HandleFile(u), stop));
    AcceptedHasRow(w, u, stop);
    CallSoundOnly(w, Call(HandleFile(u), stop));
    RowStaysInRun(w1, calls, w.nextId);
    assert HashTaken(Run(w1, calls), FileHash(u.data));
    RedeliveryIff(Run(w1, calls), again, stop');
  }

  // ---- Two runs that fall short ----

  /** An upload with a row of its own, when nothing fails on the way there. */
  predicate Plain(u: Upload) { u.lookup == Answered && u.save == Saved && u.insert == Executed }

  lemma {:induction false} FirstUpload(u: Upload, stop: nat)
    requires Plain(u) && stop >= 2
    ensures Accepted(EMPTY, u)
    ensures var w := After(EMPTY, Call(HandleFile(u), stop));
            && w.files.Keys == {1} && w.files[1].saved == SavedName(u) && w.files[1].hash == FileHash(u.data)
  {
    hide FileHash, SavedName, After;
    assert !HashTaken(EMPTY, FileHash(u.data)) && !NameTaken(EMPTY, SavedName(u));
    UploadKeepsRows(EMPTY, u, stop);
    AcceptedHasRow(EMPTY, u, stop);
  }

  lemma {:induction false} OnlyRow(w: World, id: Id)
    requires w.files.Keys == {id}
    ensures forall hash :: HashTaken(w, hash) <==> w.files[id].hash == hash
    ensures forall saved :: NameTaken(w, saved) <==> w.files[id].saved == saved
  {
    assert id in w.files;
  }

  lemma {:induction false} FirstEffectOfDelete(w: World, d: Op)
    requires d.Delete? && d.id in w.files && d.lookup == Answered
    ensures After(w, Call(d, 1)) == Removed(w, w.files[d.id].saved, d.removeSaved)
  {
    hide OcrFilename;
  }

  /** Any upload to an empty database, then a delete that dies after removing the file: a row without its bytes. */
  lemma {:induction false} InterruptedDeleteLosesBytes(u: Upload, d: Op)
    requires Plain(u) && d.Delete? && d.id == 1 && d.lookup == Answered && d.removeSaved == Executed
    ensures !BytesOk(Run(EMPTY, [Call(HandleFile(u), 5), Call(d, 1)]))
  {
    var first, second := Call(HandleFile(u), 5), Call(d, 1);
    FirstUpload(u, 5);
    hide FileHash, SavedName, After;
    var w := After(EMPTY, first);
    assert 1 in w.files;
    FirstEffectOfDelete(w, d);
    RunOfTwo(first, second);
    assert !Intact(Removed(w, w.files[1].saved, Executed), 1);
  }

  /** An upload in the second of a marked record: the next retry for that record parses the upload's text. */
  lemma {:induction false} SharedTextIsRead(w: World, v: Upload, stop: nat, id: Id)
    requires TablesOk(w) && id in w.files && w.files[id].ocrName != "" && SavedShape(w.files[id].saved)
    requires Accepted(w, v) && stop >= 3 && SameSecond(SavedName(v), w.files[id].saved)
    requires v.ocr.text.Some? && v.ocr.saveText != NotOpened
    ensures RetryText(After(w, Call(HandleFile(v), stop)), id, Answered, true) ==
            NonEmpty(LeftBytes(v.ocr.text.value, v.ocr.saveText))
  {
    assert OcrFlag(w.files[id]);
    IdsIssued(w);
    UploadStore(w, v, stop);
    UploadSameRecord(w, v, stop, id);
    GenFilenameShape(v.time, v.original);
    NamesMeet(SavedName(v), w.files[id].saved);
    hide FileHash, SavedName, OcrFilename, SavedShape, TablesOk, After, Admitted, Recorded, SameReceipts, SameSecond;
    hide Read;
    ReadBack(After(w, Call(HandleFile(v), stop)), w.files[id].ocrName);
  }

  /** What the first of two uploads leaves for the second. */
  lemma {:induction false} FirstMarked(u: Upload)
    requires Plain(u) && u.ocr.text.Some? && u.ocr.mark == Executed
    ensures var w := After(EMPTY, Call(HandleFile(u), 5));
            && TablesOk(w) && w.files.Keys == {1} && w.files[1].hash == FileHash(u.data)
            && w.files[1].saved == SavedName(u) && w.files[1].ocrName != ""
  {
    FirstUpload(u, 5);
    UploadMarks(EMPTY, u, 5);
    OcrFilenameIsNotEmpty(SavedName(u));
    EmptyOk();
    hide FileHash, SavedName, After, OcrFilename, TablesOk, Accepted;
    CallSoundOnly(EMPTY, Call(HandleFile(u), 5));
  }

  lemma {:induction false} SecondAccepted(w: World, v: Upload)
    requires Plain(v) && w.files.Keys == {1}
    requires w.files[1].hash != FileHash(v.data) && w.files[1].saved != SavedName(v)
    ensures Accepted(w, v)
  {
    hide FileHash, SavedName;
    OnlyRow(w, 1);
  }

  lemma {:induction false} WholeSave(text: Text)
    ensures LeftBytes(text, Saved) == text
  {
  }

  /**
   Two uploads of different files in one second, with different extensions: both are stored, but a retry
   for the first parses the text of the second.
   */
  lemma {:induction false} SecondUploadTakesText(u: Upload, v: Upload)
    requires Plain(u) && Plain(v) && FileHash(u.data) != FileHash(v.data)
    requires u.time == v.time && SavedName(u) != SavedName(v)
    requires u.ocr.text.Some? && u.ocr.mark == Executed && v.ocr.text.Some? && v.ocr.saveText == Saved
    ensures var w := Run(EMPTY, [Call(HandleFile(u), 5), Call(HandleFile(v), 5)]);
            && HashTaken(w, FileHash(u.data)) && HashTaken(w, FileHash(v.data))
            && RetryText(w, 1, Answered, true) == NonEmpty(v.ocr.text.value)
  {
    var first, second := Call(HandleFile(u), 5), Call(HandleFile(v), 5);
    var w := After(EMPTY, first);
    FirstMarked(u);
    GenFilenameShape(u.time, u.original);
    GenFilenameShape(v.time, v.original);
    SecondAccepted(w, v);
    assert SameSecond(SavedName(u), SavedName(v));
    hide FileHash, SavedName, After, SavedShape, SameSecond, RetryText, TablesOk, Accepted, NonEmpty, Run, LeftBytes;
    assert LeftBytes(v.ocr.text.value, Saved) == v.ocr.text.value by { WholeSave(v.ocr.text.value); }
    SharedTextIsRead(w, v, 5, 1);
    AcceptedHasRow(w, v, 5);
    RowStays(w, second, 1);
    RunOfTwo(first, second);
  }

  lemma {:induction false} RunOfTwo(a: Call, b: Call)
    ensures Run(EMPTY, [a, b]) == After(After(EMPTY, a), b)
  {
    hide After;
    var v := After(EMPTY, a);
    assert [a, b][1..] == [b];
    assert Run(v, [b]) == Run(After(v, b), [b][1..]);
    assert [b][1..] == [];
  }
}
