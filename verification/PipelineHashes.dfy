/** Which hashes have a live record after each operation: the exact condition, whatever fails and wherever it stops. */
module PipelineHashes {
  import opened Bytes
  import opened Naming
  import opened Pipeline
  import opened PipelineTables
  import opened PipelineStore
  import opened PipelineGuarantees
  import Sha256Spec

  /** The outcomes under which an upload that is no duplicate leaves a row. */
  predicate Stores(w: World, u: Upload, stop: nat) {
    && u.lookup != Refused && u.save == Saved && u.insert == Executed
    && !NameTaken(w, SavedName(u)) && stop >= 2
  }

  /** The outcomes under which a call deletes this row. */
  predicate RemovesRow(w: World, c: Call, id: Id) {
    Deletes(c, id) && id in w.files && c.op.lookup == Answered && c.op.row == Executed && c.stop >= 3
  }

  predicate RemovesHash(w: World, c: Call, hash: string) {
    exists id :: id in w.files && w.files[id].hash == hash && RemovesRow(w, c, id)
  }

  lemma {:induction false} UploadHashes(w: World, u: Upload, stop: nat, hash: string)
    requires TablesOk(w)
    ensures HashTaken(After(w, Call(HandleFile(u), stop)), hash) <==>
              HashTaken(w, hash) || (hash == FileHash(u.data) && Stores(w, u, stop))
  {
    UploadKeepsRows(w, u, stop);
    IdsIssued(w);
    assert Stores(w, u, stop) && !HashTaken(w, FileHash(u.data)) ==> Accepted(w, u);
    assert Accepted(w, u) && stop >= 2 ==> Stores(w, u, stop);
    if Accepted(w, u) && stop >= 2 {
      AcceptedHasRow(w, u, stop);
    }
    hide After, FileHash, SavedName, NameTaken, Inserted, Accepted, TablesOk;
    InsertedRows(w, FileHash(u.data), SavedName(u));
    var w' := After(w, Call(HandleFile(u), stop));
    if HashTaken(w, hash) {
      var id :| id in w.files && w.files[id].hash == hash;
      assert id in w'.files && w'.files[id].hash == hash;
    }
  }

  lemma {:induction false} InsertedRows(w: World, hash: string, saved: string)
    requires w.nextId !in w.files
    ensures var files := Inserted(w, hash, saved, Executed).files;
            && (forall id | id in w.files :: id in files && files[id] == w.files[id])
            && (forall id | id in files :: id in w.files || files[id].hash == hash)
  {
  }

  /** After an upload its bytes have a record exactly when they had one, or nothing failed on the way to the row. */
  lemma {:induction false} UploadStoresIff(w: World, u: Upload, stop: nat)
    requires TablesOk(w)
    ensures HashTaken(After(w, Call(HandleFile(u), stop)), FileHash(u.data)) <==>
              HashTaken(w, FileHash(u.data)) || Stores(w, u, stop)
  {
    UploadHashes(w, u, stop, FileHash(u.data));
  }

  lemma {:induction false} RetryHashes(w: World, c: Call, hash: string)
    requires !c.op.HandleFile? && !c.op.Delete?
    ensures HashTaken(After(w, c), hash) <==> HashTaken(w, hash)
  {
    CallKeepsRows(w, c);
    hide After;
    if HashTaken(w, hash) {
      var id :| id in w.files && w.files[id].hash == hash;
      assert id in After(w, c).files;
    }
  }

  lemma {:induction false} DeletedRow(w: World, d: Op, stop: nat)
    requires d.Delete?
    ensures var w' := After(w, Call(d, stop));
            w'.files == if RemovesRow(w, Call(d, stop), d.id) then w.files - {d.id} else w.files
  {
    hide OcrFilename;
  }

  lemma {:induction false} DeleteHashes(w: World, c: Call, hash: string)
    requires TablesOk(w) && c.op.Delete?
    ensures HashTaken(After(w, c), hash) <==> HashTaken(w, hash) && !RemovesHash(w, c, hash)
  {
    DeletedRow(w, c.op, c.stop);
    hide After;
    if HashTaken(w, hash) {
      var id :| id in w.files && w.files[id].hash == hash;
      assert id in After(w, c).files <==> !RemovesRow(w, c, id);
    }
  }

  /** An upload adds its own hash when nothing fails, a complete delete takes its row's, and that is all. */
  lemma {:induction false} HashesAfter(w: World, c: Call, hash: string)
    requires TablesOk(w)
    ensures HashTaken(After(w, c), hash) <==>
              || (HashTaken(w, hash) && !RemovesHash(w, c, hash))
              || (c.op.HandleFile? && hash == FileHash(c.op.upload.data) && Stores(w, c.op.upload, c.stop))
  {
    hide After, FileHash, HashTaken;
    match c.op
    case HandleFile(u) => UploadHashes(w, u, c.stop, hash);
    case RetryOcr(_, _, _, _) => RetryHashes(w, c, hash);
    case RetryWithModel(_, _, _, _) => RetryHashes(w, c, hash);
    case Delete(_, _, _, _, _) => DeleteHashes(w, c, hash);
  }

  // ---- The row an upload leaves ----

  /** The world behind the row of an accepted upload, and the effects of OCR that follow. */
  lemma {:induction false} AcceptedAfter(w: World, u: Upload, stop: nat) returns (w2: World)
    requires Accepted(w, u) && stop >= 2
    ensures w2 == Inserted(Stored(w, SavedName(u), u.data, Saved), FileHash(u.data), SavedName(u), Executed)
    ensures w2.files == w.files[w.nextId := FileRow(SavedName(u), FileHash(u.data), false, "")]
    ensures w2.store == w.store[SavedName(u) := u.data]
    ensures w2.receipts == w.receipts && w2.nextReceiptId == w.nextReceiptId
    ensures var e := OcrEffects(w2, w.nextId, SavedName(u), u.ocr);
            After(w, Call(HandleFile(u), stop)) ==
            if e == [] || stop == 2 then w2 else if stop - 2 < |e| then e[stop - 3] else e[|e| - 1]
  {
    hide FileHash, OcrFilename, OcrEffects, SavedName, Admitted;
    var hash, saved := FileHash(u.data), SavedName(u);
    var w1 := Stored(w, saved, u.data, u.save);
    InsertsIgnoresStore(w, w1.store, hash, saved, u.insert);
    w2 := Inserted(w1, hash, saved, u.insert);
    var e := OcrEffects(w2, w.nextId, saved, u.ocr);
    assert Effects(w, HandleFile(u)) == [w1, w2] + e;
  }

  /** The effects of OCR leave the saved bytes alone. */
  lemma {:induction false} OcrKeepsObject(w: World, id: Id, saved: string, o: OcrRun)
    requires saved in w.store && saved != OcrFilename(saved)
    ensures forall k | 0 <= k < |OcrEffects(w, id, saved, o)| ::
              var w' := OcrEffects(w, id, saved, o)[k];
              saved in w'.store && w'.store[saved] == w.store[saved]
  {
    hide OcrFilename, Parsed, LeftBytes;
    if o.text.Some? && o.parse.json.Some? {
      var w1 := Stored(w, OcrFilename(saved), o.text.value, o.saveText);
      ParsedKeepsStore(OcrMarked(w1, id, OcrFilename(saved), o.mark), id, o.parse.json.value, o.parse.upsert);
    }
  }

  lemma {:induction false} ParsedKeepsStore(w: World, id: Id, json: string, outcome: Upsert)
    ensures Parsed(w, id, json, outcome).store == w.store
  {
  }

  /** The row has the name that clock and extension give and the SHA-256 of the bytes, and the bytes are there. */
  lemma {:induction false} AcceptedIsStored(w: World, u: Upload, stop: nat)
    requires Accepted(w, u) && stop >= 2
    ensures var w', name := After(w, Call(HandleFile(u), stop)), GenFilename(u.time, Extension(u.original));
            && w.nextId in w'.files && w'.files[w.nextId].saved == name
            && w'.files[w.nextId].hash == Sha256Spec.HexDigest(u.data)
            && name in w'.store && w'.store[name] == u.data
  {
    hide OcrFilename, OcrEffects, Accepted, Inserted, Stored, SavedShape, GenFilename, Extension, After;
    var w2 := AcceptedAfter(w, u, stop);
    GenFilenameShape(u.time, u.original);
    SavedAndOcrNamesDisjoint(SavedName(u), SavedName(u));
    OcrKeepsRows(w2, w.nextId, SavedName(u), u.ocr);
    OcrKeepsObject(w2, w.nextId, SavedName(u), u.ocr);
  }
}
