/** What every run of the pipeline keeps true of the two tables, whatever fails and wherever it stops. */
module PipelineTables {
  import opened Naming
  import opened Pipeline

  /** `is_ocr_processed` and `ocr_file_name` agree, and the name is the one the saved name gives. */
  predicate OcrFlag(f: FileRow) {
    && (f.ocrDone <==> f.ocrName != "")
    && (f.ocrName != "" ==> f.ocrName == OcrFilename(f.saved))
  }

  predicate FilesOk(w: World) {
    && (forall id | id in w.files :: 1 <= id < w.nextId && OcrFlag(w.files[id]))
    && (forall i, j | i in w.files && j in w.files && i != j ::
          w.files[i].hash != w.files[j].hash && w.files[i].saved != w.files[j].saved)
  }

  predicate ReceiptsOk(w: World) {
    && (forall r | r in w.receipts :: r < w.nextReceiptId && w.receipts[r].fileId in w.files)
    && (forall r, s | r in w.receipts && s in w.receipts && r != s :: w.receipts[r].fileId != w.receipts[s].fileId)
  }

  predicate TablesOk(w: World) { w.nextId >= 1 && FilesOk(w) && ReceiptsOk(w) }

  /** From w to w' no id is given out twice, and a row keeps its saved name and hash. */
  predicate Continues(w: World, w': World) {
    && w.nextId <= w'.nextId
    && forall id | id in w'.files && id < w.nextId ::
         id in w.files && w'.files[id].saved == w.files[id].saved && w'.files[id].hash == w.files[id].hash
  }

  predicate Sound(w: World, w': World) { TablesOk(w') && Continues(w, w') }

  lemma {:induction false} ContinuesTransitive(w: World, w': World, w'': World)
    requires Continues(w, w') && Continues(w', w'')
    ensures Continues(w, w'')
  {
  }

  lemma {:induction false} InsertedSound(w: World, hash: string, saved: string, outcome: Db)
    requires TablesOk(w)
    ensures Sound(w, Inserted(w, hash, saved, outcome))
  {
  }

  lemma {:induction false} OcrMarkedSound(w: World, id: Id, ocrName: string, outcome: Db)
    requires TablesOk(w)
    requires id in w.files ==> ocrName == OcrFilename(w.files[id].saved)
    ensures Sound(w, OcrMarked(w, id, ocrName, outcome))
  {
  }

  lemma {:induction false} ParsedSound(w: World, id: Id, json: string, outcome: Upsert)
    requires TablesOk(w)
    ensures Sound(w, Parsed(w, id, json, outcome))
  {
    hide OcrFlag;
    assert FilesOk(Parsed(w, id, json, outcome));
    if HasReceipt(w, id) {
      UpdatedOk(w, id, json, outcome);
    } else {
      AddedOk(w, id, json, outcome);
    }
  }

  lemma {:induction false} UpdatedOk(w: World, id: Id, json: string, outcome: Upsert)
    requires ReceiptsOk(w) && HasReceipt(w, id)
    ensures ReceiptsOk(Parsed(w, id, json, outcome))
  {
  }

  lemma {:induction false} AddedOk(w: World, id: Id, json: string, outcome: Upsert)
    requires ReceiptsOk(w) && !HasReceipt(w, id)
    ensures ReceiptsOk(Parsed(w, id, json, outcome))
  {
  }

  /** Saving and removing objects is no concern of the tables. */
  lemma {:induction false} StoreIsApart(w0: World, w: World, w': World)
    requires Sound(w0, w) && w' == w.(store := w'.store)
    ensures Sound(w0, w')
  {
    hide OcrFlag;
  }

  lemma {:induction false} RowDeletedSound(w: World, id: Id, outcome: Db)
    requires TablesOk(w)
    ensures Sound(w, RowDeleted(w, id, outcome))
  {
  }

  predicate AllSound(w: World, e: seq<World>) { forall k | 0 <= k < |e| :: Sound(w, e[k]) }

  lemma {:induction false} ParseSound(w0: World, w: World, id: Id, p: ParseRun)
    requires Sound(w0, w)
    ensures AllSound(w0, ParseEffects(w, id, p))
  {
    if p.json.Some? {
      ParsedSound(w, id, p.json.value, p.upsert);
      ContinuesTransitive(w0, w, Parsed(w, id, p.json.value, p.upsert));
    }
  }

  lemma {:induction false} OcrSound(w0: World, w: World, id: Id, saved: string, o: OcrRun)
    requires Sound(w0, w)
    requires id in w.files ==> w.files[id].saved == saved
    ensures AllSound(w0, OcrEffects(w, id, saved, o))
  {
    hide OcrFilename, TablesOk, Continues, ParseEffects;
    if o.text.Some? {
      var w1 := Stored(w, OcrFilename(saved), o.text.value, o.saveText);
      StoreIsApart(w0, w, w1);
      var w2 := OcrMarked(w1, id, OcrFilename(saved), o.mark);
      OcrMarkedSound(w1, id, OcrFilename(saved), o.mark);
      ContinuesTransitive(w0, w1, w2);
      ParseSound(w0, w2, id, o.parse);
    }
  }

  lemma {:induction false} UploadSound(w: World, u: Upload)
    requires TablesOk(w)
    ensures AllSound(w, UploadEffects(w, u))
  {
    hide FileHash, SavedName, OcrFilename, OcrEffects;
    if Admitted(w, u) {
      var hash, saved := FileHash(u.data), SavedName(u);
      var w1 := Stored(w, saved, u.data, u.save);
      StoreIsApart(w, w, w1);
      if u.save == Saved && Inserts(w1, hash, saved, u.insert) {
        var w2 := Inserted(w1, hash, saved, u.insert);
        InsertedSound(w1, hash, saved, u.insert);
        ContinuesTransitive(w, w1, w2);
        OcrSound(w, w2, w1.nextId, saved, u.ocr);
      }
    }
  }

  lemma {:induction false} SoundReflexive(w: World)
    requires TablesOk(w)
    ensures Sound(w, w)
  {
  }

  lemma {:induction false} DeleteSound(w: World, d: Op)
    requires TablesOk(w) && d.Delete?
    ensures AllSound(w, DeleteEffects(w, d))
  {
    hide TablesOk, Continues;
    assert Sound(w, w) by { SoundReflexive(w); }
    if d.id in w.files {
      var w1 := Removed(w, w.files[d.id].saved, d.removeSaved);
      var w2 := if w.files[d.id].ocrName != "" then Removed(w1, w.files[d.id].ocrName, d.removeOcr) else w1;
      StoreIsApart(w, w, w1);
      StoreIsApart(w, w1, w2);
      RowDeletedSound(w2, d.id, d.row);
      ContinuesTransitive(w, w2, RowDeleted(w2, d.id, d.row));
    }
  }

  lemma {:induction false} EffectsSound(w: World, op: Op)
    requires TablesOk(w)
    ensures AllSound(w, Effects(w, op))
  {
    hide OcrEffects, UploadEffects, ParseEffects, DeleteEffects;
    match op
    case HandleFile(u) => UploadSound(w, u);
    case RetryOcr(id, _, _, p) => ParseSound(w, w, id, p);
    case RetryWithModel(id, _, _, o) =>
      if id in w.files {
        OcrSound(w, w, id, w.files[id].saved, o);
      }
    case Delete(_, _, _, _, _) => DeleteSound(w, op);
  }

  lemma {:induction false} CallSound(w: World, c: Call)
    requires TablesOk(w)
    ensures Sound(w, After(w, c))
  {
    EffectsSound(w, c.op);
  }

  /** In every run, with any failures and any stopping points, the tables stay consistent. */
  lemma {:induction false} RunSound(w: World, calls: seq<Call>)
    requires TablesOk(w)
    ensures TablesOk(Run(w, calls)) && Continues(w, Run(w, calls))
    decreases |calls|
  {
    if calls != [] {
      CallSound(w, calls[0]);
      RunSound(After(w, calls[0]), calls[1..]);
      ContinuesTransitive(w, After(w, calls[0]), Run(w, calls));
    }
  }

  lemma {:induction false} EmptyOk()
    ensures TablesOk(EMPTY)
  {
  }

  /** Once an id has been given out and its row is gone, no later run brings it back. */
  lemma {:induction false} IdsAreNeverReused(w: World, calls: seq<Call>, id: Id)
    requires TablesOk(w) && id < w.nextId && id !in w.files
    ensures id !in Run(w, calls).files
  {
    RunSound(w, calls);
  }
}
