/**
 Which receipt a file has, told from the outcomes alone: a call that reaches its parse and a working upsert
 leaves exactly one receipt with the new JSON, and nothing else touches the receipts of a live file.
 */
module PipelineReceipts {
  import opened Bytes
  import opened Naming
  import opened Pipeline
  import opened PipelineTables
  import opened PipelineStore
  import opened PipelineGuarantees
  import opened PipelineHashes

  /** The file has exactly one receipt, and it holds this JSON. */
  predicate OnlyReceipt(w: World, id: Id, json: string) {
    && (exists r :: r in w.receipts && w.receipts[r] == ReceiptRow(id, json))
    && (forall r, s | r in w.receipts && s in w.receipts && w.receipts[r].fileId == id && w.receipts[s].fileId == id ::
          r == s)
  }

  /** The receipts of a file are the same ones, with the same JSON. */
  predicate ReceiptsStay(w: World, w': World, id: Id) {
    && (forall r | r in w.receipts && w.receipts[r].fileId == id :: r in w'.receipts && w'.receipts[r] == w.receipts[r])
    && (forall r | r in w'.receipts && w'.receipts[r].fileId == id ::
          r in w.receipts && w.receipts[r] == w'.receipts[r])
  }

  predicate NoReceipt(w: World, id: Id) { forall r | r in w.receipts :: w.receipts[r].fileId != id }

  /** What a call asks of the receipts table. */
  datatype Ask = Ask(id: Id, json: string, upsert: Upsert)

  /** What the OCR run of a retry asks, if the process lives through its third effect. */
  function OcrAsk(id: Id, o: OcrRun, stop: int): Option<Ask> {
    if o.text.Some? && o.parse.json.Some? && stop >= 3 then Some(Ask(id, o.parse.json.value, o.parse.upsert)) else None
  }

  /** The upsert a call gets to, told from its outcomes: which file, which JSON, and how it goes. */
  function Asked(w: World, c: Call): Option<Ask> {
    match c.op
    case HandleFile(u) => if Accepted(w, u) then OcrAsk(w.nextId, u.ocr, c.stop - 2) else None
    case RetryOcr(id, lookup, readable, p) =>
      if RetryText(w, id, lookup, readable).Some? && p.json.Some? && c.stop >= 1
      then Some(Ask(id, p.json.value, p.upsert))
      else None
    case RetryWithModel(id, lookup, readable, o) =>
      if lookup == Answered && id in w.files && Read(w, w.files[id].saved, readable).Some? then OcrAsk(id, o, c.stop)
      else None
    case Delete(_, _, _, _, _) => None
  }

  /** The upsert goes through: a check that misses a receipt does no harm where there is none. */
  predicate Works(w: World, a: Ask) {
    a.upsert == Upserted || (a.upsert == CheckReadsAsAbsent && NoReceipt(w, a.id))
  }

  /** The call stores this JSON for this file. */
  predicate Writes(w: World, c: Call, id: Id) {
    Asked(w, c).Some? && Asked(w, c).value.id == id && Works(w, Asked(w, c).value)
  }

  // ---- One effect ----

  /** A working upsert for a live file leaves it one receipt; every other upsert leaves the file's receipts alone. */
  predicate Follows(w: World, w': World, a: Ask, id: Id) {
    if a.id == id && Works(w, a) then OnlyReceipt(w', id, a.json) else ReceiptsStay(w, w', id)
  }

  lemma {:induction false} ParsedFollows(w: World, a: Ask, id: Id)
    requires ReceiptsOk(w) && a.id in w.files
    ensures Follows(w, Parsed(w, a.id, a.json, a.upsert), a, id)
  {
    if HasReceipt(w, a.id) {
      UpdateFollows(w, a, id);
    } else {
      InsertFollows(w, a, id);
    }
  }

  lemma {:induction false} UpdateFollows(w: World, a: Ask, id: Id)
    requires ReceiptsOk(w) && HasReceipt(w, a.id)
    ensures Follows(w, Parsed(w, a.id, a.json, a.upsert), a, id)
  {
    var w' := Parsed(w, a.id, a.json, a.upsert);
    var r :| r in w.receipts && w.receipts[r].fileId == a.id;
    if a.upsert == Upserted {
      assert w'.receipts[r] == ReceiptRow(a.id, a.json);
    }
  }

  lemma {:induction false} InsertFollows(w: World, a: Ask, id: Id)
    requires ReceiptsOk(w) && !HasReceipt(w, a.id) && a.id in w.files
    ensures Follows(w, Parsed(w, a.id, a.json, a.upsert), a, id)
  {
    var w' := Parsed(w, a.id, a.json, a.upsert);
    assert forall r | r in w.receipts :: w.receipts[r].fileId != a.id;
    if a.upsert == Upserted || a.upsert == CheckReadsAsAbsent {
      assert w'.receipts[w.nextReceiptId] == ReceiptRow(a.id, a.json);
    }
  }

  lemma {:induction false} SameTable(w: World, w': World, w'': World, id: Id)
    requires w'.receipts == w.receipts && ReceiptsStay(w', w'', id)
    ensures ReceiptsStay(w, w'', id)
  {
  }

  lemma {:induction false} Unchanged(w: World, w': World, id: Id)
    requires w'.receipts == w.receipts
    ensures ReceiptsStay(w, w', id)
  {
  }

  /** The effects of OCR: two that leave the receipts alone, and the upsert. */
  lemma {:induction false} OcrFollows(w: World, id: Id, saved: string, o: OcrRun, k: nat, other: Id)
    requires ReceiptsOk(w) && id in w.files && k < |OcrEffects(w, id, saved, o)|
    ensures var w' := OcrEffects(w, id, saved, o)[k];
            if k == 2 then OcrAsk(id, o, 3).Some? && Follows(w, w', OcrAsk(id, o, 3).value, other)
            else w'.receipts == w.receipts
  {
    hide OcrFilename, HasReceipt, Parsed, ReceiptsStay, OnlyReceipt, NoReceipt;
    var w1 := Stored(w, OcrFilename(saved), o.text.value, o.saveText);
    var w2 := OcrMarked(w1, id, OcrFilename(saved), o.mark);
    if k == 2 {
      var a := Ask(id, o.parse.json.value, o.parse.upsert);
      SameNoReceipt(w, w2, id);
      ParsedFollows(w2, a, other);
      if !(id == other && Works(w, a)) {
        SameTable(w, w2, OcrEffects(w, id, saved, o)[k], other);
      }
    }
  }

  lemma {:induction false} SameNoReceipt(w: World, w': World, id: Id)
    requires w'.receipts == w.receipts
    ensures NoReceipt(w, id) <==> NoReceipt(w', id)
  {
  }

  // ---- One call ----

  /** What a call does to the receipts of a file: takes them with the row, stores new JSON, or nothing. */
  predicate Settles(w: World, c: Call, id: Id) {
    if RemovesRow(w, c, id) then NoReceipt(After(w, c), id)
    else if Writes(w, c, id) then OnlyReceipt(After(w, c), id, Asked(w, c).value.json)
    else ReceiptsStay(w, After(w, c), id)
  }

  lemma {:induction false} OcrSettles(w: World, id: Id, saved: string, o: OcrRun, stop: nat, w': World, other: Id)
    requires ReceiptsOk(w) && id in w.files
    requires var e := OcrEffects(w, id, saved, o);
             w' == if e == [] || stop == 0 then w else if stop < |e| then e[stop - 1] else e[|e| - 1]
    ensures if OcrAsk(id, o, stop).Some? then Follows(w, w', OcrAsk(id, o, stop).value, other)
            else w'.receipts == w.receipts
  {
    hide OcrFilename, Parsed, Follows, ReceiptsOk;
    var e := OcrEffects(w, id, saved, o);
    if e != [] && stop > 0 {
      OcrFollows(w, id, saved, o, (if stop < |e| then stop else |e|) - 1, other);
    }
  }

  lemma {:induction false} DeletedReceipts(w: World, c: Call)
    requires c.op.Delete?
    ensures After(w, c).receipts ==
            if RemovesRow(w, c, c.op.id)
            then map r | r in w.receipts && w.receipts[r].fileId != c.op.id :: w.receipts[r]
            else w.receipts
  {
    hide OcrFilename;
  }

  lemma {:induction false} DeleteSettles(w: World, c: Call, id: Id)
    requires c.op.Delete?
    ensures Settles(w, c, id)
  {
    DeletedReceipts(w, c);
    hide After;
  }

  lemma {:induction false} RetrySettles(w: World, c: Call, id: Id)
    requires TablesOk(w) && c.op.RetryOcr?
    ensures Settles(w, c, id)
  {
    hide OcrFilename, Parsed, ReceiptsStay, OnlyReceipt, NoReceipt, ReceiptsOk;
    if Asked(w, c).Some? {
      ParsedFollows(w, Asked(w, c).value, id);
    } else {
      Unchanged(w, After(w, c), id);
    }
  }

  /** The receipts table does not know whether an earlier effect touched the store or the files. */
  lemma {:induction false} FollowsFrom(w: World, w': World, w'': World, a: Ask, id: Id)
    requires w'.receipts == w.receipts && Follows(w', w'', a, id)
    ensures Follows(w, w'', a, id)
  {
    hide ReceiptsStay, OnlyReceipt, NoReceipt;
    SameNoReceipt(w, w', a.id);
    if !(a.id == id && Works(w, a)) {
      SameTable(w, w', w'', id);
    }
  }

  lemma {:induction false} ModelSettles(w: World, c: Call, id: Id)
    requires TablesOk(w) && c.op.RetryWithModel?
    ensures Settles(w, c, id)
  {
    hide OcrFilename, OcrEffects, ReceiptsStay, OnlyReceipt, NoReceipt, ReceiptsOk, Read, OcrAsk;
    var target := c.op.id;
    if c.op.lookup == Answered && target in w.files && Read(w, w.files[target].saved, c.op.readable).Some? {
      OcrSettles(w, target, w.files[target].saved, c.op.ocr, c.stop, After(w, c), id);
      OcrAskId(target, c.op.ocr, c.stop);
    }
    if Asked(w, c).None? {
      Unchanged(w, After(w, c), id);
    }
  }

  lemma {:induction false} OcrAskId(id: Id, o: OcrRun, stop: int)
    ensures OcrAsk(id, o, stop).Some? ==> OcrAsk(id, o, stop).value.id == id
  {
  }

  lemma {:induction false} MoreFilesReceiptsOk(w: World, w2: World)
    requires TablesOk(w) && w2.receipts == w.receipts && w2.nextReceiptId == w.nextReceiptId
    requires w2.files.Keys >= w.files.Keys
    ensures ReceiptsOk(w2)
  {
    hide OcrFlag;
  }

  lemma {:induction false} BehindTheRow(w: World, u: Upload, stop: nat) returns (w2: World)
    requires TablesOk(w) && Accepted(w, u) && stop >= 2
    ensures ReceiptsOk(w2) && w.nextId in w2.files && w2.receipts == w.receipts
    ensures var e := OcrEffects(w2, w.nextId, SavedName(u), u.ocr);
            After(w, Call(HandleFile(u), stop)) ==
            if e == [] || stop == 2 then w2 else if stop - 2 < |e| then e[stop - 3] else e[|e| - 1]
  {
    hide After, SavedName, FileHash, Accepted, OcrEffects, Inserted, Stored, ReceiptsOk, FilesOk;
    w2 := AcceptedAfter(w, u, stop);
    MoreFilesReceiptsOk(w, w2);
  }

  lemma {:induction false} NotAccepted(w: World, u: Upload, stop: nat)
    requires !Accepted(w, u) || stop < 2
    ensures After(w, Call(HandleFile(u), stop)).receipts == w.receipts
  {
    hide FileHash, OcrFilename, OcrEffects, SavedName, Admitted;
    InsertsIgnoresStore(w, Stored(w, SavedName(u), u.data, u.save).store, FileHash(u.data), SavedName(u), u.insert);
  }

  lemma {:induction false} UploadSettles(w: World, c: Call, id: Id)
    requires TablesOk(w) && c.op.HandleFile?
    ensures Settles(w, c, id)
  {
    hide After, SavedName, Accepted, OcrEffects, ReceiptsStay, OnlyReceipt, NoReceipt, OcrAsk, Follows, ReceiptsOk;
    var u, w' := c.op.upload, After(w, c);
    if Accepted(w, u) && c.stop >= 2 {
      var w2 := BehindTheRow(w, u, c.stop);
      OcrSettles(w2, w.nextId, SavedName(u), u.ocr, c.stop - 2, w', id);
      var ask := OcrAsk(w.nextId, u.ocr, c.stop - 2);
      OcrAskId(w.nextId, u.ocr, c.stop - 2);
      if ask.Some? {
        FollowsFrom(w, w2, w', ask.value, id);
        AskSettles(w, c, id);
      } else {
        Unchanged(w, w', id);
      }
    } else {
      NotAccepted(w, u, c.stop);
      Unchanged(w, w', id);
      if c.stop < 2 {
        ShortAsk(w.nextId, u.ocr, c.stop - 2);
      }
    }
  }

  lemma {:induction false} ShortAsk(id: Id, o: OcrRun, stop: int)
    requires stop < 3
    ensures OcrAsk(id, o, stop).None?
  {
  }

  lemma {:induction false} AskSettles(w: World, c: Call, id: Id)
    requires !c.op.Delete? && Asked(w, c).Some? && Follows(w, After(w, c), Asked(w, c).value, id)
    ensures Settles(w, c, id)
  {
    hide After, Asked;
  }

  lemma {:induction false} CallSettlesAll(w: World, c: Call, id: Id)
    requires TablesOk(w)
    ensures Settles(w, c, id)
  {
    hide Settles;
    match c.op
    case HandleFile(_) => UploadSettles(w, c, id);
    case RetryOcr(_, _, _, _) => RetrySettles(w, c, id);
    case RetryWithModel(_, _, _, _) => ModelSettles(w, c, id);
    case Delete(_, _, _, _, _) => DeleteSettles(w, c, id);
  }

  /**
   A call that gets to a working upsert leaves the file exactly one receipt, with that JSON. A delete of the row
   takes its receipt. Any other call, with a failed upsert or with none, leaves the file's receipts as they were.
   */
  lemma {:induction false} CallSettles(w: World, c: Call, id: Id)
    requires TablesOk(w)
    ensures Writes(w, c, id) ==> id in After(w, c).files && OnlyReceipt(After(w, c), id, Asked(w, c).value.json)
    ensures RemovesRow(w, c, id) ==> id !in After(w, c).files && NoReceipt(After(w, c), id)
    ensures !Writes(w, c, id) && !RemovesRow(w, c, id) ==> ReceiptsStay(w, After(w, c), id)
  {
    CallSettlesAll(w, c, id);
    CallSound(w, c);
    if c.op.Delete? {
      DeletedRow(w, c.op, c.stop);
    }
    hide After, Asked, Works;
    if Writes(w, c, id) {
      assert HasReceipt(After(w, c), id);
    }
  }

  // ---- Whole runs ----

  lemma {:induction false} RunLast(w: World, calls: seq<Call>)
    requires calls != []
    ensures Run(w, calls) == After(Run(w, calls[..|calls| - 1]), calls[|calls| - 1])
    decreases |calls|
  {
    hide After;
    if |calls| > 1 {
      assert calls[1..][..|calls| - 2] == calls[..|calls| - 1][1..];
      RunLast(After(w, calls[0]), calls[1..]);
    }
  }

  /** Call k of a run from the empty database stores JSON for this file. */
  predicate WritesAt(calls: seq<Call>, k: nat, id: Id)
    requires k < |calls|
  {
    Writes(Run(EMPTY, calls[..k]), calls[k], id)
  }

  /** The JSON it stores. */
  function JsonAt(calls: seq<Call>, k: nat, id: Id): string
    requires k < |calls| && WritesAt(calls, k, id)
  {
    Asked(Run(EMPTY, calls[..k]), calls[k]).value.json
  }

  predicate EverWritten(calls: seq<Call>, id: Id) { exists k :: 0 <= k < |calls| && WritesAt(calls, k, id) }

  predicate LastWrite(calls: seq<Call>, k: nat, id: Id)
    requires k < |calls|
  {
    WritesAt(calls, k, id) && forall j | k < j < |calls| :: !WritesAt(calls, j, id)
  }

  /** A file has been stored for only under an id that was given out. */
  lemma {:induction false} WrittenIdsAreIssued(calls: seq<Call>, k: nat, id: Id)
    requires k < |calls| && WritesAt(calls, k, id)
    ensures id < Run(EMPTY, calls).nextId
    decreases |calls|
  {
    hide After, Writes;
    var front, c := calls[..|calls| - 1], calls[|calls| - 1];
    EmptyOk();
    RunSound(EMPTY, front);
    RunLast(EMPTY, calls);
    CallSound(Run(EMPTY, front), c);
    if k < |front| {
      assert front[..k] == calls[..k];
      WrittenIdsAreIssued(front, k, id);
    } else {
      CallSettles(Run(EMPTY, front), c, id);
    }
  }

  lemma {:induction false} StayKeepsReceipt(w: World, w': World, id: Id)
    requires ReceiptsStay(w, w', id)
    ensures HasReceipt(w, id) <==> HasReceipt(w', id)
    ensures forall json | OnlyReceipt(w, id, json) :: OnlyReceipt(w', id, json)
  {
    forall json | OnlyReceipt(w, id, json)
      ensures OnlyReceipt(w', id, json)
    {
      var r :| r in w.receipts && w.receipts[r] == ReceiptRow(id, json);
      assert w'.receipts[r] == ReceiptRow(id, json);
    }
  }

  /** What `RunReceipts` says of one run. */
  predicate Accounted(w: World, calls: seq<Call>, id: Id) {
    && (HasReceipt(w, id) <==> EverWritten(calls, id))
    && (forall k | 0 <= k < |calls| && LastWrite(calls, k, id) :: OnlyReceipt(w, id, JsonAt(calls, k, id)))
  }

  lemma {:induction false} LastCallWrites(w: World, calls: seq<Call>, id: Id)
    requires calls != [] && WritesAt(calls, |calls| - 1, id)
    requires OnlyReceipt(w, id, JsonAt(calls, |calls| - 1, id))
    ensures Accounted(w, calls, id)
  {
    hide WritesAt, JsonAt;
  }

  lemma {:induction false} FrontWrites(calls: seq<Call>, k: nat, id: Id)
    requires k < |calls| - 1
    ensures WritesAt(calls[..|calls| - 1], k, id) <==> WritesAt(calls, k, id)
    ensures WritesAt(calls, k, id) ==> JsonAt(calls[..|calls| - 1], k, id) == JsonAt(calls, k, id)
  {
    hide Writes, Run;
    assert calls[..|calls| - 1][..k] == calls[..k];
  }

  lemma {:induction false} QuietLastCall(calls: seq<Call>, id: Id)
    requires calls != [] && !WritesAt(calls, |calls| - 1, id)
    ensures EverWritten(calls, id) <==> EverWritten(calls[..|calls| - 1], id)
    ensures forall k | 0 <= k < |calls| && LastWrite(calls, k, id) ::
              k < |calls| - 1 && LastWrite(calls[..|calls| - 1], k, id) &&
              JsonAt(calls[..|calls| - 1], k, id) == JsonAt(calls, k, id)
  {
    hide WritesAt, JsonAt;
    var front := calls[..|calls| - 1];
    forall k | 0 <= k < |front|
      ensures WritesAt(front, k, id) <==> WritesAt(calls, k, id)
      ensures WritesAt(calls, k, id) ==> JsonAt(front, k, id) == JsonAt(calls, k, id)
    {
      FrontWrites(calls, k, id);
    }
    if EverWritten(calls, id) {
      var k :| 0 <= k < |calls| && WritesAt(calls, k, id);
      assert WritesAt(front, k, id);
    }
    if EverWritten(front, id) {
      var k :| 0 <= k < |front| && WritesAt(front, k, id);
      assert WritesAt(calls, k, id);
    }
  }

  lemma {:induction false} LastCallIsQuiet(w: World, w': World, calls: seq<Call>, id: Id)
    requires calls != [] && !WritesAt(calls, |calls| - 1, id) && ReceiptsStay(w, w', id)
    requires Accounted(w, calls[..|calls| - 1], id)
    ensures Accounted(w', calls, id)
  {
    QuietLastCall(calls, id);
    StayKeepsReceipt(w, w', id);
    hide WritesAt, JsonAt, HasReceipt, OnlyReceipt, ReceiptsStay, EverWritten, LastWrite;
  }

  /** A file whose row came with the last call had no receipt before, and none was ever stored for it. */
  lemma {:induction false} NewRowIsUnwritten(calls: seq<Call>, id: Id)
    requires id >= Run(EMPTY, calls).nextId
    ensures Accounted(Run(EMPTY, calls), calls, id)
  {
    hide WritesAt, Run, OcrFlag;
    EmptyOk();
    RunSound(EMPTY, calls);
    forall k: nat | k < |calls|
      ensures !WritesAt(calls, k, id)
    {
      if WritesAt(calls, k, id) {
        WrittenIdsAreIssued(calls, k, id);
      }
    }
  }

  lemma {:induction false} RunAccounted(calls: seq<Call>, id: Id)
    requires id in Run(EMPTY, calls).files
    ensures Accounted(Run(EMPTY, calls), calls, id)
    decreases |calls|
  {
    hide After, Writes, TablesOk, OnlyReceipt, ReceiptsStay, Accounted, NoReceipt, RemovesRow;
    if calls != [] {
      var n := |calls| - 1;
      var front, c := calls[..n], calls[n];
      var w, w' := Run(EMPTY, front), Run(EMPTY, calls);
      EmptyOk();
      RunSound(EMPTY, front);
      RunLast(EMPTY, calls);
      CallSound(w, c);
      CallSettles(w, c, id);
      if WritesAt(calls, n, id) {
        LastCallWrites(w', calls, id);
      } else {
        if id in w.files {
          RunAccounted(front, id);
        } else {
          NewRowIsUnwritten(front, id);
        }
        LastCallIsQuiet(w, w', calls, id);
      }
    }
  }

  /**
   After any run from the empty database, a live file has a receipt exactly when some call stored JSON for it,
   and then it has one receipt, with the JSON of the last such call.
   */
  lemma {:induction false} RunReceipts(calls: seq<Call>, id: Id)
    requires id in Run(EMPTY, calls).files
    ensures HasReceipt(Run(EMPTY, calls), id) <==> EverWritten(calls, id)
    ensures forall k | 0 <= k < |calls| && LastWrite(calls, k, id) ::
              OnlyReceipt(Run(EMPTY, calls), id, JsonAt(calls, k, id))
  {
    RunAccounted(calls, id);
  }
}
