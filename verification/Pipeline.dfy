/**
 The receipt pipeline of src/processor.c and the delete of src/telegram/bot_commands.c, over the
 tables of src/db/db_sqlite.c and the local store of src/storage/storage_local.c.

 An operation is the list of its effects. Every effect can fail, and the process can stop after
 any of them.
 */
module Pipeline {
  import opened Bytes
  import opened Naming
  import Sha256Spec

  type Id = nat
  type Text = seq<Byte>

  // ---- Tables and store ----

  datatype FileRow = FileRow(saved: string, hash: string, ocrDone: bool, ocrName: string)

  datatype ReceiptRow = ReceiptRow(fileId: Id, json: string)

  datatype World = World(
    files: map<Id, FileRow>,
    nextId: Id,
    receipts: map<Id, ReceiptRow>,
    nextReceiptId: Id,
    store: map<string, seq<Byte>>)

  const EMPTY := World(map[], 1, map[], 1, map[])

  function FileHash(data: seq<Byte>): string { Sha256Spec.HexDigest(data) }

  // ---- What can go wrong ----

  /** `local_save_file`: the open fails, or the write stops after n bytes and leaves them. */
  datatype Save = Saved | NotOpened | Torn(n: nat)

  /** A statement that is executed, or fails and changes nothing. */
  datatype Db = Executed | Failed

  /** A lookup: the DB repository turns a failed query into "not found". */
  datatype Lookup = Answered | ReadAsMissing | Refused

  /** `sqlite_mark_parsing_done`: check, then update or insert. */
  datatype Upsert = Upserted | CheckFails | CheckReadsAsAbsent | WriteFails

  // ---- Effects ----

  /** The bytes a save leaves under its name when it opens the file. */
  function LeftBytes(bytes: seq<Byte>, outcome: Save): seq<Byte> {
    match outcome
    case Torn(n) => if n < |bytes| then bytes[..n] else bytes
    case _ => bytes
  }

  function Stored(w: World, name: string, bytes: seq<Byte>, outcome: Save): World {
    if outcome == NotOpened then w else w.(store := w.store[name := LeftBytes(bytes, outcome)])
  }

  function Removed(w: World, name: string, outcome: Db): World {
    if outcome == Executed then w.(store := w.store - {name}) else w
  }

  predicate HashTaken(w: World, hash: string) { exists id :: id in w.files && w.files[id].hash == hash }

  predicate NameTaken(w: World, saved: string) { exists id :: id in w.files && w.files[id].saved == saved }

  /** UNIQUE (file_hash), UNIQUE (saved_file_name), AUTOINCREMENT. */
  predicate Inserts(w: World, hash: string, saved: string, outcome: Db) {
    outcome == Executed && !HashTaken(w, hash) && !NameTaken(w, saved)
  }

  function Inserted(w: World, hash: string, saved: string, outcome: Db): World {
    if Inserts(w, hash, saved, outcome) then
      w.(files := w.files[w.nextId := FileRow(saved, hash, false, "")], nextId := w.nextId + 1)
    else w
  }

  function OcrMarked(w: World, id: Id, ocrName: string, outcome: Db): World {
    if outcome == Executed && id in w.files then
      w.(files := w.files[id := w.files[id].(ocrDone := true, ocrName := ocrName)])
    else w
  }

  predicate HasReceipt(w: World, id: Id) { exists r :: r in w.receipts && w.receipts[r].fileId == id }

  function Parsed(w: World, id: Id, json: string, outcome: Upsert): World {
    if outcome == CheckFails || outcome == WriteFails then w
    else if HasReceipt(w, id) then
      // UPDATE when the check saw the row; an INSERT is refused by UNIQUE (file_id)
      if outcome == CheckReadsAsAbsent then w
      else
        w.(receipts := map r | r in w.receipts ::
                         if w.receipts[r].fileId == id then w.receipts[r].(json := json) else w.receipts[r])
    else if id in w.files then
      w.(receipts := w.receipts[w.nextReceiptId := ReceiptRow(id, json)], nextReceiptId := w.nextReceiptId + 1)
    else w // FOREIGN KEY (file_id)
  }

  /** DELETE FROM files, with ON DELETE CASCADE. */
  function RowDeleted(w: World, id: Id, outcome: Db): World {
    if outcome == Executed then
      w.(files := w.files - {id},
         receipts := map r | r in w.receipts && w.receipts[r].fileId != id :: w.receipts[r])
    else w
  }

  // ---- Operations ----

  /** Parsing: the service fails, or gives JSON that is then upserted. */
  datatype ParseRun = ParseRun(json: Option<string>, upsert: Upsert)

  /** OCR and everything after it. */
  datatype OcrRun = OcrRun(text: Option<Text>, saveText: Save, mark: Db, parse: ParseRun)

  datatype Upload = Upload(
    original: string, data: seq<Byte>, time: LocalTime,
    lookup: Lookup, strategyContinues: bool, save: Save, insert: Db, ocr: OcrRun)

  datatype Op =
    | HandleFile(upload: Upload)
    | RetryOcr(id: Id, lookup: Lookup, readable: bool, parse: ParseRun)
    | RetryWithModel(id: Id, lookup: Lookup, readable: bool, ocr: OcrRun)
    | Delete(id: Id, lookup: Lookup, removeSaved: Db, removeOcr: Db, row: Db)

  function ParseEffects(w: World, id: Id, p: ParseRun): seq<World> {
    if p.json.None? then [] else [Parsed(w, id, p.json.value, p.upsert)]
  }

  /** `processor_run_ocr` and `processor_parse_receipt`; failed saves and marks are only logged. */
  function OcrEffects(w: World, id: Id, saved: string, o: OcrRun): seq<World> {
    if o.text.None? then []
    else
      var w1 := Stored(w, OcrFilename(saved), o.text.value, o.saveText);
      var w2 := OcrMarked(w1, id, OcrFilename(saved), o.mark);
      [w1, w2] + ParseEffects(w2, id, o.parse)
  }

  function SavedName(u: Upload): string { GenFilename(u.time, Extension(u.original)) }

  /** The duplicate check lets this upload through. */
  predicate Admitted(w: World, u: Upload) {
    match u.lookup
    case Answered => HashTaken(w, FileHash(u.data)) ==> u.strategyContinues
    case ReadAsMissing => true
    case Refused => false
  }

  /** The file is saved in full and its row inserted. */
  predicate Recorded(w: World, u: Upload) {
    u.save == Saved && Inserts(w, FileHash(u.data), SavedName(u), u.insert)
  }

  /** `processor_handle_file`. */
  function UploadEffects(w: World, u: Upload): seq<World> {
    var hash, saved := FileHash(u.data), SavedName(u);
    if !Admitted(w, u) then []
    else
      var w1 := Stored(w, saved, u.data, u.save);
      if u.save != Saved || !Inserts(w1, hash, saved, u.insert) then [w1]
      else
        var w2 := Inserted(w1, hash, saved, u.insert);
        [w1, w2] + OcrEffects(w2, w1.nextId, saved, u.ocr)
  }

  /** What `storage_backend_read_text` and `storage_backend_read_binary` give: nothing for an empty file. */
  function Read(w: World, name: string, readable: bool): Option<seq<Byte>> {
    if readable && name in w.store && w.store[name] != [] then Some(w.store[name]) else None
  }

  /** The text `processor_retry_ocr` passes to the parser. */
  function RetryText(w: World, id: Id, lookup: Lookup, readable: bool): Option<Text> {
    if lookup == Answered && id in w.files && w.files[id].ocrName != "" then Read(w, w.files[id].ocrName, readable)
    else None
  }

  function DeleteEffects(w: World, d: Op): seq<World>
    requires d.Delete?
  {
    if d.lookup != Answered || d.id !in w.files then []
    else
      var w1 := Removed(w, w.files[d.id].saved, d.removeSaved);
      var w2 := if w.files[d.id].ocrName != "" then Removed(w1, w.files[d.id].ocrName, d.removeOcr) else w1;
      [w1, w2, RowDeleted(w2, d.id, d.row)]
  }

  /** The worlds an operation passes through, one for each effect. */
  function Effects(w: World, op: Op): seq<World> {
    match op
    case HandleFile(u) => UploadEffects(w, u)
    case RetryOcr(id, lookup, readable, p) =>
      if RetryText(w, id, lookup, readable).None? then [] else ParseEffects(w, id, p)
    case RetryWithModel(id, lookup, readable, o) =>
      if lookup != Answered || id !in w.files || Read(w, w.files[id].saved, readable).None? then []
      else OcrEffects(w, id, w.files[id].saved, o)
    case Delete(_, _, _, _, _) => DeleteEffects(w, op)
  }

  /** An operation that stops after at most `stop` effects. */
  datatype Call = Call(op: Op, stop: nat)

  function After(w: World, c: Call): World {
    var e := Effects(w, c.op);
    if e == [] || c.stop == 0 then w
    else if c.stop < |e| then e[c.stop - 1]
    else e[|e| - 1]
  }

  function Run(w: World, calls: seq<Call>): World
    decreases |calls|
  {
    if calls == [] then w else Run(After(w, calls[0]), calls[1..])
  }
}
