/**
 What a user of the pipeline gets: exactly when stored bytes keep matching their hash, rows that stay
 through every run, and retries that read what the last save of text left.
 */
module PipelineGuarantees {
  import opened Bytes
  import opened Naming
  import opened Pipeline
  import opened PipelineTables
  import opened PipelineStore

  // ---- What belongs to a record ----

  predicate SameReceipts(w: World, w': World, id: Id) {
    && (forall r | r in w.receipts && w.receipts[r].fileId == id ::
          r in w'.receipts && w'.receipts[r] == w.receipts[r])
    && (forall r | r in w'.receipts && w'.receipts[r].fileId == id ::
          r in w.receipts && w'.receipts[r] == w.receipts[r])
  }

  predicate SameObject(w: World, w': World, name: string) {
    (name in w.store <==> name in w'.store) && (name in w.store ==> w'.store[name] == w.store[name])
  }

  /** The row of id, its receipt and its two objects are what they were. */
  predicate Untouched(w: World, w': World, id: Id)
    requires id in w.files
  {
    && id in w'.files && w'.files[id] == w.files[id]
    && SameReceipts(w, w', id)
    && SameObject(w, w', w.files[id].saved)
    && SameObject(w, w', OcrFilename(w.files[id].saved))
  }

  lemma {:induction false} ReceiptElsewhere(w: World, target: Id, json: string, outcome: Upsert, id: Id)
    requires ReceiptsOk(w) && id != target
    ensures SameReceipts(w, Parsed(w, target, json, outcome), id)
  {
  }

  /** The record an operation is about; an upload is about the row it may create. */
  function Target(w: World, op: Op): Id {
    match op
    case HandleFile(_) => w.nextId
    case RetryOcr(id, _, _, _) => id
    case RetryWithModel(id, _, _, _) => id
    case Delete(id, _, _, _, _) => id
  }

  // ---- Exactly when stored bytes stop matching their hash ----

  predicate Shapes(w: World) { forall id | id in w.files :: SavedShape(w.files[id].saved) }

  /** A live record already has this second's name, and what is written there has another hash. */
  predicate Overwrites(w: World, u: Upload) {
    && Admitted(w, u) && u.save != NotOpened
    && exists id :: id in w.files && w.files[id].saved == SavedName(u) &&
         FileHash(LeftBytes(u.data, u.save)) != w.files[id].hash
  }

  /** An upload damages a stored record exactly when it overwrites one within the same second. */
  lemma {:induction false} UploadKeepsBytesIff(w: World, u: Upload, stop: nat)
    requires TablesOk(w) && Shapes(w) && BytesOk(w)
    ensures BytesOk(After(w, Call(HandleFile(u), stop))) <==> stop == 0 || !Overwrites(w, u)
  {
    hide FileHash, OcrFilename, SavedShape, OcrEffects, UploadEffects;
    var e := UploadEffects(w, u);
    UploadShape(w, u);
    if e != [] && stop > 0 {
      var k := if stop < |e| then stop - 1 else |e| - 1;
      assert After(w, Call(HandleFile(u), stop)) == e[k];
      UploadBytes(w, u, k);
    }
  }

  lemma {:induction false} UploadShape(w: World, u: Upload)
    ensures UploadEffects(w, u) == [] <==> !Admitted(w, u)
  {
  }

  lemma {:induction false} UploadBytes(w: World, u: Upload, k: nat)
    requires TablesOk(w) && Shapes(w) && BytesOk(w) && Admitted(w, u) && k < |UploadEffects(w, u)|
    ensures BytesOk(UploadEffects(w, u)[k]) <==> !Overwrites(w, u)
  {
    hide FileHash, OcrFilename, SavedShape, OcrEffects, TablesOk, Inserts, Intact;
    var hash, saved := FileHash(u.data), SavedName(u);
    GenFilenameShape(u.time, u.original);
    var w1 := Stored(w, saved, u.data, u.save);
    FirstWrite(w, u);
    StoreKeepsTables(w, w1.store);
    if u.save == Saved && Inserts(w1, hash, saved, u.insert) {
      var w2 := Inserted(w1, hash, saved, u.insert);
      InsertedBytes(w, u);
      InsertedSound(w1, hash, saved, u.insert);
      OcrBytes(w2, w1.nextId, saved, u.ocr);
    }
  }

  lemma {:induction false} FirstWrite(w: World, u: Upload)
    requires BytesOk(w) && Admitted(w, u)
    ensures BytesOk(Stored(w, SavedName(u), u.data, u.save)) <==> !Overwrites(w, u)
  {
    hide FileHash, SavedName, Admitted;
    var w1 := Stored(w, SavedName(u), u.data, u.save);
    forall id | id in w.files
      ensures Intact(w1, id) <==>
                u.save == NotOpened || w.files[id].saved != SavedName(u) ||
                FileHash(LeftBytes(u.data, u.save)) == w.files[id].hash
    {
      assert Intact(w, id);
    }
  }

  /** A row can only be inserted when nothing was overwritten. */
  lemma {:induction false} InsertedBytes(w: World, u: Upload)
    requires TablesOk(w) && Shapes(w) && BytesOk(w) && Admitted(w, u) && u.save == Saved
    requires var w1 := Stored(w, SavedName(u), u.data, Saved); Inserts(w1, FileHash(u.data), SavedName(u), u.insert)
    ensures var w1 := Stored(w, SavedName(u), u.data, Saved);
            var w2 := Inserted(w1, FileHash(u.data), SavedName(u), u.insert);
            BytesOk(w2) && Shapes(w2) && !Overwrites(w, u) && SavedShape(SavedName(u))
  {
    hide FileHash, OcrFilename, SavedShape, Admitted;
    GenFilenameShape(u.time, u.original);
    InsertsIgnoresStore(w, w.store[SavedName(u) := u.data], FileHash(u.data), SavedName(u), u.insert);
    forall id | id in w.files
      ensures Intact(Stored(w, SavedName(u), u.data, Saved), id)
    {
      assert Intact(w, id);
    }
  }

  lemma {:induction false} OcrBytes(w: World, id: Id, saved: string, o: OcrRun)
    requires TablesOk(w) && Shapes(w) && BytesOk(w) && SavedShape(saved)
    ensures forall k | 0 <= k < |OcrEffects(w, id, saved, o)| :: BytesOk(OcrEffects(w, id, saved, o)[k])
  {
    hide FileHash, OcrFilename, SavedShape, TablesOk;
    if o.text.Some? {
      var w1 := Stored(w, OcrFilename(saved), o.text.value, o.saveText);
      forall j | j in w.files
        ensures Intact(w1, j)
      {
        assert Intact(w, j);
        ObjectsApart(w.files[j].saved, saved);
      }
      var w2 := OcrMarked(w1, id, OcrFilename(saved), o.mark);
      assert BytesOk(w2) by {
        forall j | j in w2.files ensures Intact(w2, j) { assert Intact(w1, j); }
      }
      if o.parse.json.Some? {
        ParsedKeepsFiles(w2, id, o.parse.json.value, o.parse.upsert);
        SameFilesSameBytes(w2, Parsed(w2, id, o.parse.json.value, o.parse.upsert));
      }
    }
  }

  lemma {:induction false} SameFilesSameBytes(w: World, w': World)
    requires BytesOk(w) && w'.files == w.files && w'.store == w.store
    ensures BytesOk(w')
  {
    forall id | id in w'.files ensures Intact(w', id) { assert Intact(w, id); }
  }

  /** A delete that stops early or cannot delete the row leaves a live record without its bytes. */
  lemma {:induction false} DeleteKeepsBytesIff(w: World, d: Op, stop: nat)
    requires TablesOk(w) && Shapes(w) && BytesOk(w) && d.Delete?
    ensures BytesOk(After(w, Call(d, stop))) <==>
              DeleteEffects(w, d) == [] || stop == 0 || d.removeSaved == Failed || (stop >= 3 && d.row == Executed)
  {
    hide FileHash, OcrFilename, SavedShape, TablesOk;
    if DeleteEffects(w, d) != [] && stop > 0 {
      var w' := After(w, Call(d, stop));
      if stop >= 3 && d.row == Executed {
        CompleteDeleteKeepsBytes(w, d, stop);
      } else if d.removeSaved == Executed {
        assert d.id in w'.files && !Intact(w', d.id);
      } else {
        PartialDelete(w, d, stop);
        OcrRemovalKeepsBytes(w, After(w, Call(d, stop)), w.files[d.id].saved);
      }
    }
  }

  /** The objects of a deleted row are no other row's bytes. */
  lemma {:induction false} CompleteDeleteKeepsBytes(w: World, d: Op, stop: nat)
    requires TablesOk(w) && Shapes(w) && BytesOk(w) && d.Delete?
    requires DeleteEffects(w, d) != [] && stop >= 3 && d.row == Executed
    ensures BytesOk(After(w, Call(d, stop)))
  {
    hide FileHash, OcrFilename, SavedShape, FilesOk, ReceiptsOk, BytesOk, Shapes, After;
    CompleteDeleteStore(w, d, stop);
    OthersKeepBytes(w, After(w, Call(d, stop)), d.id);
  }

  lemma {:induction false} CompleteDeleteStore(w: World, d: Op, stop: nat)
    requires TablesOk(w) && d.Delete? && DeleteEffects(w, d) != [] && stop >= 3 && d.row == Executed
    ensures var w', own := After(w, Call(d, stop)), {w.files[d.id].saved, OcrFilename(w.files[d.id].saved)};
            && w'.files == w.files - {d.id}
            && forall name | name in w.store && name !in own :: name in w'.store && w'.store[name] == w.store[name]
  {
    hide OcrFilename;
    CompleteDelete(w, d, stop);
    OwnObjectsOnly(w, d);
  }

  lemma {:induction false} OthersKeepBytes(w: World, w': World, gone: Id)
    requires FilesOk(w) && Shapes(w) && BytesOk(w) && gone in w.files && w'.files == w.files - {gone}
    requires forall name | name in w.store && name !in {w.files[gone].saved, OcrFilename(w.files[gone].saved)} ::
               name in w'.store && w'.store[name] == w.store[name]
    ensures BytesOk(w')
  {
    hide FileHash, OcrFilename, SavedShape;
    forall id | id in w'.files
      ensures Intact(w', id)
    {
      assert Intact(w, id);
      ObjectsApart(w.files[id].saved, w.files[gone].saved);
      assert w.files[id].saved != w.files[gone].saved;
    }
  }

  /** A delete that removes no saved file and no row removes at most the OCR text. */
  lemma {:induction false} PartialDelete(w: World, d: Op, stop: nat)
    requires TablesOk(w) && d.Delete? && DeleteEffects(w, d) != [] && stop > 0
    requires d.removeSaved == Failed && !(stop >= 3 && d.row == Executed)
    ensures var w' := After(w, Call(d, stop));
            w'.files == w.files &&
            (w'.store == w.store || w'.store == w.store - {OcrFilename(w.files[d.id].saved)})
  {
    hide OcrFilename;
    assert OcrFlag(w.files[d.id]);
  }

  lemma {:induction false} OcrRemovalKeepsBytes(w: World, w': World, saved: string)
    requires BytesOk(w) && Shapes(w) && SavedShape(saved) && w'.files == w.files
    requires w'.store == w.store || w'.store == w.store - {OcrFilename(saved)}
    ensures BytesOk(w')
  {
    hide FileHash, OcrFilename, SavedShape;
    forall id | id in w'.files
      ensures Intact(w', id)
    {
      assert Intact(w, id);
      ObjectsApart(w.files[id].saved, saved);
    }
  }

  lemma {:induction false} RetryKeepsBytes(w: World, c: Call)
    requires TablesOk(w) && Shapes(w) && BytesOk(w) && (c.op.RetryOcr? || c.op.RetryWithModel?)
    ensures BytesOk(After(w, c))
  {
    hide FileHash, OcrFilename, SavedShape, OcrEffects, TablesOk, BytesOk;
    match c.op
    case RetryOcr(id, _, _, p) =>
      if p.json.Some? {
        ParsedKeepsFiles(w, id, p.json.value, p.upsert);
        SameFilesSameBytes(w, Parsed(w, id, p.json.value, p.upsert));
      }
    case RetryWithModel(id, _, _, o) =>
      if id in w.files {
        OcrBytes(w, id, w.files[id].saved, o);
      }
  }

  /** The two ways a call leaves a live record without the bytes that were hashed. */
  predicate Damages(w: World, c: Call) {
    match c.op
    case HandleFile(u) => c.stop > 0 && Overwrites(w, u)
    case Delete(_, _, removeSaved, _, row) =>
      DeleteEffects(w, c.op) != [] && c.stop > 0 && removeSaved == Executed && !(c.stop >= 3 && row == Executed)
    case _ => false
  }

  lemma {:induction false} CallKeepsBytesIff(w: World, c: Call)
    requires TablesOk(w) && Shapes(w) && BytesOk(w)
    ensures BytesOk(After(w, c)) <==> !Damages(w, c)
  {
    hide After, Overwrites, DeleteEffects, TablesOk, Shapes, BytesOk;
    match c.op
    case HandleFile(u) => UploadKeepsBytesIff(w, u, c.stop);
    case RetryOcr(_, _, _, _) => RetryKeepsBytes(w, c);
    case RetryWithModel(_, _, _, _) => RetryKeepsBytes(w, c);
    case Delete(_, _, _, _, _) => DeleteKeepsBytesIff(w, c.op, c.stop);
  }

  predicate NoDamage(w: World, calls: seq<Call>) {
    forall k | 0 <= k < |calls| :: !Damages(Run(w, calls[..k]), calls[k])
  }

  predicate AllBytesOk(w: World, calls: seq<Call>) { forall k | 0 <= k <= |calls| :: BytesOk(Run(w, calls[..k])) }

  lemma {:induction false} RunFront(w: World, calls: seq<Call>, k: nat)
    requires 0 < k <= |calls|
    ensures Run(w, calls[..k]) == Run(After(w, calls[0]), calls[1..][..k - 1])
  {
    hide After;
    assert calls[..k][1..] == calls[1..][..k - 1];
  }

  lemma {:induction false} NoDamageFront(w: World, calls: seq<Call>)
    requires calls != []
    ensures NoDamage(w, calls) <==> !Damages(w, calls[0]) && NoDamage(After(w, calls[0]), calls[1..])
  {
    hide After, Damages;
    assert Run(w, calls[..0]) == w;
    var w1, rest := After(w, calls[0]), calls[1..];
    forall k | 0 < k < |calls|
      ensures Damages(Run(w, calls[..k]), calls[k]) <==> Damages(Run(w1, rest[..k - 1]), rest[k - 1])
    {
      RunFront(w, calls, k);
    }
    if !Damages(w, calls[0]) && NoDamage(w1, rest) {
      forall k | 0 <= k < |calls|
        ensures !Damages(Run(w, calls[..k]), calls[k])
      {
        assert k > 0 ==> !Damages(Run(w1, rest[..k - 1]), rest[k - 1]);
      }
    }
    if NoDamage(w, calls) {
      forall k | 0 <= k < |rest|
        ensures !Damages(Run(w1, rest[..k]), rest[k])
      {
        assert !Damages(Run(w, calls[..k + 1]), calls[k + 1]);
      }
    }
  }

  lemma {:induction false} AllBytesFront(w: World, calls: seq<Call>)
    requires calls != []
    ensures AllBytesOk(w, calls) <==> BytesOk(w) && AllBytesOk(After(w, calls[0]), calls[1..])
  {
    hide After, BytesOk;
    assert Run(w, calls[..0]) == w;
    var w1, rest := After(w, calls[0]), calls[1..];
    forall k | 0 < k <= |calls|
      ensures Run(w, calls[..k]) == Run(w1, rest[..k - 1])
    {
      RunFront(w, calls, k);
    }
    if BytesOk(w) && AllBytesOk(w1, rest) {
      forall k | 0 <= k <= |calls|
        ensures BytesOk(Run(w, calls[..k]))
      {
        assert k > 0 ==> BytesOk(Run(w1, rest[..k - 1]));
      }
    }
    if AllBytesOk(w, calls) {
      forall k | 0 <= k <= |rest|
        ensures BytesOk(Run(w1, rest[..k]))
      {
        assert BytesOk(Run(w, calls[..k + 1]));
      }
    }
  }

  /** Through a whole run, with any failures and stops, all live bytes stay right exactly when no call damages any. */
  lemma {:induction false} RunKeepsBytesIff(w: World, calls: seq<Call>)
    requires TablesOk(w) && Shapes(w) && BytesOk(w)
    ensures AllBytesOk(w, calls) <==> NoDamage(w, calls)
    decreases |calls|
  {
    hide After, Damages, BytesOk, Shapes, TablesOk, AllBytesOk, NoDamage;
    if calls == [] {
      NothingHappens(w, calls);
    } else {
      AllBytesFront(w, calls);
      NoDamageFront(w, calls);
      CallKeepsBytesIff(w, calls[0]);
      CallSoundOnly(w, calls[0]);
      CallKeepsShapes(w, calls[0]);
      if !Damages(w, calls[0]) {
        RunKeepsBytesIff(After(w, calls[0]), calls[1..]);
      } else {
        FirstWorld(After(w, calls[0]), calls[1..]);
      }
    }
  }

  lemma {:induction false} NothingHappens(w: World, calls: seq<Call>)
    requires BytesOk(w) && calls == []
    ensures AllBytesOk(w, calls) && NoDamage(w, calls)
  {
    hide BytesOk;
    assert calls[..0] == [] && Run(w, []) == w;
  }

  lemma {:induction false} FirstWorld(w: World, calls: seq<Call>)
    ensures AllBytesOk(w, calls) ==> BytesOk(w)
  {
    hide BytesOk;
    assert Run(w, calls[..0]) == w;
  }

  // ---- Rows that stay ----

  /** The same rows, up to their OCR fields. */
  predicate SameRows(w: World, w': World) {
    && w'.files.Keys == w.files.Keys
    && forall id | id in w.files :: w'.files[id].saved == w.files[id].saved && w'.files[id].hash == w.files[id].hash
  }

  lemma {:induction false} OcrKeepsRows(w: World, id: Id, saved: string, o: OcrRun)
    ensures forall k | 0 <= k < |OcrEffects(w, id, saved, o)| :: SameRows(w, OcrEffects(w, id, saved, o)[k])
  {
    hide OcrFilename, HasReceipt, SameRows;
    if o.text.Some? {
      var w1 := Stored(w, OcrFilename(saved), o.text.value, o.saveText);
      var w2 := OcrMarked(w1, id, OcrFilename(saved), o.mark);
      MarkedKeepsRows(w, w1, id, OcrFilename(saved), o.mark);
      if o.parse.json.Some? {
        ParsedKeepsFiles(w2, id, o.parse.json.value, o.parse.upsert);
        SameFilesSameRows(w, w2, Parsed(w2, id, o.parse.json.value, o.parse.upsert));
      }
    }
  }

  lemma {:induction false} MarkedKeepsRows(w: World, w1: World, id: Id, name: string, outcome: Db)
    requires w1.files == w.files
    ensures SameRows(w, w1) && SameRows(w, OcrMarked(w1, id, name, outcome))
  {
  }

  /** A call that is not a delete keeps every row, and adds at most the row of its upload. */
  lemma {:induction false} CallKeepsRows(w: World, c: Call)
    requires !c.op.Delete?
    ensures SameRows(w, After(w, c)) ||
            (c.op.HandleFile? && Accepted(w, c.op.upload) && c.stop >= 2 &&
             SameRows(Inserted(w, FileHash(c.op.upload.data), SavedName(c.op.upload), Executed), After(w, c)))
  {
    hide FileHash, OcrFilename, OcrEffects, Admitted, SavedName, SameRows, HashTaken, NameTaken;
    assert forall x: World :: SameRows(x, x) by { SameRowsReflexive(); }
    match c.op
    case HandleFile(u) => UploadKeepsRows(w, u, c.stop);
    case RetryOcr(id, _, _, p) =>
      if p.json.Some? {
        ParsedKeepsFiles(w, id, p.json.value, p.upsert);
        SameFilesSameRows(w, w, Parsed(w, id, p.json.value, p.upsert));
      }
    case RetryWithModel(id, _, _, o) =>
      if id in w.files {
        OcrKeepsRows(w, id, w.files[id].saved, o);
      }
  }

  lemma {:induction false} SameRowsReflexive()
    ensures forall w: World :: SameRows(w, w)
  {
  }

  lemma {:induction false} SameFilesSameRows(w: World, w': World, w'': World)
    requires SameRows(w, w') && w''.files == w'.files
    ensures SameRows(w, w'')
  {
  }

  lemma {:induction false} UploadKeepsRows(w: World, u: Upload, stop: nat)
    ensures var w' := After(w, Call(HandleFile(u), stop));
            SameRows(w, w') ||
            (Accepted(w, u) && stop >= 2 && SameRows(Inserted(w, FileHash(u.data), SavedName(u), Executed), w'))
  {
    hide FileHash, OcrFilename, OcrEffects, Admitted, SavedName, Inserts;
    var hash, saved := FileHash(u.data), SavedName(u);
    var w1 := Stored(w, saved, u.data, u.save);
    InsertsIgnoresStore(w, w1.store, hash, saved, u.insert);
    var w2 := Inserted(w1, hash, saved, u.insert);
    OcrKeepsRows(w2, w1.nextId, saved, u.ocr);
    if u.save == Saved && Inserts(w1, hash, saved, u.insert) {
      assert w2.files == Inserted(w, hash, saved, Executed).files;
    }
  }

  /** In every run, whatever fails, saved names keep the shape the clock gives them. */
  lemma {:induction false} CallKeepsShapes(w: World, c: Call)
    requires TablesOk(w) && Shapes(w)
    ensures Shapes(After(w, c))
  {
    hide FileHash, OcrFilename, SavedShape, TablesOk, Inserts;
    if c.op.Delete? {
      CallSound(w, c);
      DeleteKeepsNextId(w, c);
    } else {
      CallKeepsRows(w, c);
      if c.op.HandleFile? {
        GenFilenameShape(c.op.upload.time, c.op.upload.original);
      }
    }
  }

  lemma {:induction false} DeleteKeepsNextId(w: World, c: Call)
    requires c.op.Delete?
    ensures After(w, c).files.Keys <= w.files.Keys
    ensures forall id | id in After(w, c).files :: After(w, c).files[id] == w.files[id]
  {
    hide OcrFilename;
  }

  predicate Deletes(c: Call, id: Id) { c.op.Delete? && c.op.id == id }

  /** A row stays, with its hash, through every call that is not its own delete. */
  lemma {:induction false} RowStays(w: World, c: Call, row: Id)
    requires TablesOk(w) && row in w.files && !Deletes(c, row)
    ensures row in After(w, c).files && After(w, c).files[row].hash == w.files[row].hash
  {
    hide TablesOk, SavedName, FileHash, OcrFilename;
    if !c.op.Delete? {
      hide After;
      CallKeepsRows(w, c);
      IdsIssued(w);
    }
  }

  lemma {:induction false} RowStaysInRun(w: World, calls: seq<Call>, row: Id)
    requires TablesOk(w) && row in w.files
    requires forall k | 0 <= k < |calls| :: !Deletes(calls[k], row)
    ensures row in Run(w, calls).files && Run(w, calls).files[row].hash == w.files[row].hash
    decreases |calls|
  {
    hide TablesOk, After;
    if calls != [] {
      RowStays(w, calls[0], row);
      CallSoundOnly(w, calls[0]);
      RowStaysInRun(After(w, calls[0]), calls[1..], row);
    }
  }

  lemma {:induction false} CallSoundOnly(w: World, c: Call)
    requires TablesOk(w)
    ensures TablesOk(After(w, c))
  {
    CallSound(w, c);
  }

  /** A row is in place as soon as an upload's second effect is. */
  lemma {:induction false} AcceptedHasRow(w: World, u: Upload, stop: nat)
    requires Accepted(w, u) && stop >= 2
    ensures var w' := After(w, Call(HandleFile(u), stop));
            w.nextId in w'.files && w'.files[w.nextId].hash == FileHash(u.data)
  {
    hide FileHash, OcrFilename, OcrEffects, Inserts;
    var saved := SavedName(u);
    var w1 := Stored(w, saved, u.data, u.save);
    InsertsIgnoresStore(w, w1.store, FileHash(u.data), saved, u.insert);
    var w2 := Inserted(w1, FileHash(u.data), saved, u.insert);
    OcrKeepsRows(w2, w1.nextId, saved, u.ocr);
    var w' := After(w, Call(HandleFile(u), stop));
    assert SameRows(w2, w');
  }

  /** Even with failed lookups and a strategy that continues, no two live records share a hash. */
  lemma {:induction false} NeverStoredTwice(calls: seq<Call>, i: Id, j: Id)
    requires i in Run(EMPTY, calls).files && j in Run(EMPTY, calls).files
    requires Run(EMPTY, calls).files[i].hash == Run(EMPTY, calls).files[j].hash
    ensures i == j
    ensures forall r, s | r in Run(EMPTY, calls).receipts && s in Run(EMPTY, calls).receipts &&
                Run(EMPTY, calls).receipts[r].fileId == Run(EMPTY, calls).receipts[s].fileId == i :: r == s
  {
    EmptyOk();
    RunSound(EMPTY, calls);
  }

  // ---- What a retry reads ----

  /** What a reader makes of an object: an empty one counts as missing. */
  function NonEmpty(text: Text): Option<Text> { if text != [] then Some(text) else None }

  /** A retry parses exactly what the last save of text that opened its file left for the record. */
  lemma {:induction false} RetryReadsLastText(w: World, n: Notes, id: Id)
    requires Good(w, n) && id in w.files && w.files[id].ocrName != ""
    ensures RetryText(w, id, Answered, true) == NonEmpty(LeftText(n, id))
  {
    assert TextIs(w, n, id);
    assert OcrFlag(w.files[id]);
  }

  /** That is the text last saved completely exactly when the last save was complete or left the same bytes. */
  lemma {:induction false} RetryReadsWholeTextIff(w: World, n: Notes, id: Id)
    requires Good(w, n) && id in w.files && w.files[id].ocrName != ""
    ensures RetryText(w, id, Answered, true) == NonEmpty(WholeText(n, id)) <==>
              id !in n.last || n.last[id].outcome == Saved ||
              LeftBytes(n.last[id].text, n.last[id].outcome) == WholeText(n, id)
  {
    RetryReadsLastText(w, n, id);
  }

  /** So it is after every disciplined run from an empty database, whatever fails in it. */
  lemma {:induction false} RunsReadLastText(calls: seq<Call>, id: Id)
    requires RunDisciplined(EMPTY, NOTHING, calls)
    requires id in Run(EMPTY, calls).files && Run(EMPTY, calls).files[id].ocrName != ""
    ensures var n := RunNotes(EMPTY, NOTHING, calls);
            var text := RetryText(Run(EMPTY, calls), id, Answered, true);
            && text == NonEmpty(LeftText(n, id))
            && (text == NonEmpty(WholeText(n, id)) <==>
                  id !in n.last || n.last[id].outcome == Saved || LeftText(n, id) == WholeText(n, id))
  {
    EmptyGood();
    RunGood(EMPTY, NOTHING, calls);
    hide Run, RunNotes, RunDisciplined, Good;
    RetryReadsLastText(Run(EMPTY, calls), RunNotes(EMPTY, NOTHING, calls), id);
    RetryReadsWholeTextIff(Run(EMPTY, calls), RunNotes(EMPTY, NOTHING, calls), id);
  }

  /** Without any premise on seconds or deletes: what an OCR run saves, even torn, is what a retry reads next. */
  lemma {:induction false} SavedTextIsRead(w: World, id: Id, o: OcrRun, stop: nat)
    requires TablesOk(w) && id in w.files && stop > 0
    requires w.files[id].ocrName != "" || (stop > 1 && o.mark == Executed)
    requires Read(w, w.files[id].saved, true).Some? && o.text.Some? && o.saveText != NotOpened
    ensures RetryText(After(w, Call(RetryWithModel(id, Answered, true, o), stop)), id, Answered, true) ==
            NonEmpty(LeftBytes(o.text.value, o.saveText))
  {
    assert OcrFlag(w.files[id]);
    RetryLeaves(w, id, o, stop);
    OcrFilenameIsNotEmpty(w.files[id].saved);
    hide Read, OcrFilename, TablesOk, After;
    ReadBack(After(w, Call(RetryWithModel(id, Answered, true, o), stop)), OcrFilename(w.files[id].saved));
  }

  /** An upload that got past its mark has its row marked or not, and its text under the name of its own second. */
  lemma {:induction false} UploadMarks(w: World, u: Upload, stop: nat)
    requires Accepted(w, u) && stop >= 4 && u.ocr.text.Some?
    ensures var w', name := After(w, Call(HandleFile(u), stop)), OcrFilename(SavedName(u));
            && w.nextId in w'.files && w'.files[w.nextId].ocrName == (if u.ocr.mark == Executed then name else "")
            && w'.store == Stored(Stored(w, SavedName(u), u.data, u.save), name, u.ocr.text.value, u.ocr.saveText).store
  {
    hide FileHash, OcrFilename, Inserts, OcrEffects, SavedName;
    var saved := SavedName(u);
    var w1 := Stored(w, saved, u.data, u.save);
    InsertsIgnoresStore(w, w1.store, FileHash(u.data), saved, u.insert);
    var w2 := Inserted(w1, FileHash(u.data), saved, u.insert);
    var e := OcrEffects(w2, w.nextId, saved, u.ocr);
    assert UploadEffects(w, u) == [w1, w2] + e;
    OcrLeaves(w2, w.nextId, saved, u.ocr);
    var k := if stop - 2 < |e| then stop - 3 else |e| - 1;
    assert After(w, Call(HandleFile(u), stop)) == e[k];
  }

  /** The same for the OCR run of an upload, once its row is marked. */
  lemma {:induction false} UploadedTextIsRead(w: World, u: Upload, stop: nat)
    requires Accepted(w, u) && stop >= 4 && u.ocr.mark == Executed
    requires u.ocr.text.Some? && u.ocr.saveText != NotOpened
    ensures RetryText(After(w, Call(HandleFile(u), stop)), w.nextId, Answered, true) ==
            NonEmpty(LeftBytes(u.ocr.text.value, u.ocr.saveText))
  {
    UploadMarks(w, u, stop);
    OcrFilenameIsNotEmpty(SavedName(u));
    hide FileHash, OcrFilename, After, Read, SavedName, Accepted;
    ReadBack(After(w, Call(HandleFile(u), stop)), OcrFilename(SavedName(u)));
  }

  lemma {:induction false} OcrFilenameIsNotEmpty(saved: string)
    ensures OcrFilename(saved) != ""
  {
  }

  /** Every effect of an OCR run has the saved text in the store; all but the first have the row marked. */
  lemma {:induction false} OcrLeaves(w: World, id: Id, saved: string, o: OcrRun)
    requires id in w.files && o.text.Some?
    ensures var e := OcrEffects(w, id, saved, o);
            && |e| >= 2
            && forall k | 0 <= k < |e| ::
                 && e[k].store == Stored(w, OcrFilename(saved), o.text.value, o.saveText).store
                 && id in e[k].files
                 && e[k].files[id].ocrName ==
                      if k > 0 && o.mark == Executed then OcrFilename(saved) else w.files[id].ocrName
  {
    hide OcrFilename, Parsed, Stored;
    var name := OcrFilename(saved);
    var w1 := Stored(w, name, o.text.value, o.saveText);
    assert w1.files == w.files by { StoredKeepsFiles(w, name, o.text.value, o.saveText); }
    if o.parse.json.Some? {
      ParsedKeepsFiles(OcrMarked(w1, id, name, o.mark), id, o.parse.json.value, o.parse.upsert);
    }
  }

  /** However far it gets, a retry with new text has saved that text, and from its second effect on marked it. */
  lemma {:induction false} RetryLeaves(w: World, id: Id, o: OcrRun, stop: nat)
    requires id in w.files && stop > 0
    requires Read(w, w.files[id].saved, true).Some? && o.text.Some?
    ensures var w', name := After(w, Call(RetryWithModel(id, Answered, true, o), stop)), OcrFilename(w.files[id].saved);
            && id in w'.files
            && w'.files[id].ocrName == (if stop > 1 && o.mark == Executed then name else w.files[id].ocrName)
            && w'.store == Stored(w, name, o.text.value, o.saveText).store
  {
    hide Read, OcrFilename, OcrEffects, Stored;
    OcrLeaves(w, id, w.files[id].saved, o);
  }

  lemma {:induction false} StoredKeepsFiles(w: World, name: string, bytes: seq<Byte>, outcome: Save)
    ensures Stored(w, name, bytes, outcome).files == w.files
  {
  }

  lemma {:induction false} ReadBack(w: World, name: string)
    requires name in w.store
    ensures Read(w, name, true) == if w.store[name] != [] then Some(w.store[name]) else None
  {
  }
}
