/**
 The processor as the source writes it: methods that work on the tables and the store in place and
 return early. Each is proved to have exactly the effects Pipeline gives the operation, in order.
 */
module Processor {
  import opened Bytes
  import opened Naming
  import opened Pipeline
  import opened PipelineStore
  import Sha256

  function Last(w: World, e: seq<World>): World { if e == [] then w else e[|e| - 1] }

  class ReceiptProcessor {
    var files: map<Id, FileRow>
    var nextId: Id
    var receipts: map<Id, ReceiptRow>
    var nextReceiptId: Id
    var store: map<string, seq<Byte>>
    /** The world after each effect so far. */
    ghost var trace: seq<World>

    function View(): World
      reads this
    {
      World(files, nextId, receipts, nextReceiptId, store)
    }

    constructor ()
      ensures View() == EMPTY && trace == []
    {
      files, nextId, receipts, nextReceiptId, store := map[], 1, map[], 1, map[];
      trace := [];
    }

    // ---- Single effects ----

    method SaveObject(name: string, bytes: seq<Byte>, outcome: Save) returns (ok: bool)
      modifies this
      ensures View() == Stored(old(View()), name, bytes, outcome) && trace == old(trace) + [View()]
      ensures ok == (outcome == Saved)
      ensures outcome == NotOpened ==> store == old(store)
      ensures outcome != NotOpened ==>
                && name in store && store == old(store)[name := store[name]] && store[name] <= bytes
                && |store[name]| == if outcome.Torn? && outcome.n < |bytes| then outcome.n else |bytes|
    {
      if outcome.Saved? {
        store := store[name := bytes];
      } else if outcome.Torn? {
        store := store[name := if outcome.n < |bytes| then bytes[..outcome.n] else bytes];
      }
      ok := outcome.Saved?;
      trace := trace + [View()];
    }

    method RemoveObject(name: string, outcome: Db)
      modifies `store
      ensures View() == Removed(old(View()), name, outcome)
    {
      if outcome == Executed {
        store := store - {name};
      }
    }

    /** `file_repo_insert`: the new id, or nothing when a UNIQUE column or the statement fails. */
    method InsertRow(hash: string, saved: string, outcome: Db) returns (id: Option<Id>)
      modifies this
      ensures View() == Inserted(old(View()), hash, saved, outcome)
      ensures if Inserts(old(View()), hash, saved, outcome)
              then id == Some(old(nextId)) && trace == old(trace) + [View()]
              else id == None && trace == old(trace)
    {
      var hashTaken := exists i :: i in files && files[i].hash == hash;
      var nameTaken := exists i :: i in files && files[i].saved == saved;
      if outcome == Failed || hashTaken || nameTaken {
        return None;
      }
      id := Some(nextId);
      files := files[nextId := FileRow(saved, hash, false, "")];
      nextId := nextId + 1;
      trace := trace + [View()];
    }

    method MarkOcrComplete(id: Id, ocrName: string, outcome: Db)
      modifies this
      ensures View() == OcrMarked(old(View()), id, ocrName, outcome) && trace == old(trace) + [View()]
    {
      if outcome == Executed && id in files {
        files := files[id := files[id].(ocrDone := true, ocrName := ocrName)];
      }
      trace := trace + [View()];
    }

    /** `sqlite_mark_parsing_done`: look for the row, then update it or insert one. */
    method MarkParsingComplete(id: Id, json: string, outcome: Upsert)
      modifies this
      ensures View() == Parsed(old(View()), id, json, outcome) && trace == old(trace) + [View()]
    {
      if outcome != CheckFails {
        var present := exists r :: r in receipts && receipts[r].fileId == id;
        var seen := present && outcome != CheckReadsAsAbsent;
        if outcome != WriteFails {
          if seen {
            receipts := map r | r in receipts ::
              if receipts[r].fileId == id then receipts[r].(json := json) else receipts[r];
          } else if !present && id in files {
            receipts := receipts[nextReceiptId := ReceiptRow(id, json)];
            nextReceiptId := nextReceiptId + 1;
          }
        }
      }
      trace := trace + [View()];
    }

    method DeleteRow(id: Id, outcome: Db) returns (ok: bool)
      modifies this
      ensures View() == RowDeleted(old(View()), id, outcome) && trace == old(trace) + [View()]
      ensures ok == (outcome == Executed && id in old(files))
    {
      ok := outcome == Executed && id in files;
      if outcome == Executed {
        files := files - {id};
        receipts := map r | r in receipts && receipts[r].fileId != id :: receipts[r];
      }
      trace := trace + [View()];
    }

    // ---- Sub-steps ----

    /** `processor_save_file`. */
    method SaveFile(u: Upload, hash: string) returns (id: Option<Id>, saved: string)
      requires hash == FileHash(u.data)
      modifies this
      ensures saved == SavedName(u)
      ensures id == if Recorded(old(View()), u) then Some(old(nextId)) else None
      ensures var w1 := Stored(old(View()), saved, u.data, u.save);
              if Recorded(old(View()), u)
              then View() == Inserted(w1, hash, saved, u.insert) && trace == old(trace) + [w1, View()]
              else View() == w1 && trace == old(trace) + [w1]
    {
      hide FileHash, OcrFilename, SavedName;
      saved := GenName(u);
      var ok := SaveObject(saved, u.data, u.save);
      if !ok {
        return None, saved;
      }
      id := InsertRow(hash, saved, u.insert);
    }

    method GenName(u: Upload) returns (saved: string)
      ensures saved == SavedName(u)
    {
      saved := GenFilename(u.time, Extension(u.original));
    }

    /** `processor_run_ocr` followed by `processor_parse_receipt`. */
    method RunOcr(id: Id, saved: string, o: OcrRun)
      modifies this
      ensures trace == old(trace) + OcrEffects(old(View()), id, saved, o)
      ensures View() == Last(old(View()), OcrEffects(old(View()), id, saved, o))
    {
      hide OcrFilename, Stored, OcrMarked, Parsed;
      if o.text.None? {
        return;
      }
      var ocrName := OcrFilename(saved);
      var _ := SaveObject(ocrName, o.text.value, o.saveText);
      MarkOcrComplete(id, ocrName, o.mark);
      ParseReceipt(id, o.parse);
    }

    method ParseReceipt(id: Id, p: ParseRun)
      modifies this
      ensures trace == old(trace) + ParseEffects(old(View()), id, p)
      ensures View() == Last(old(View()), ParseEffects(old(View()), id, p))
    {
      hide Parsed;
      if p.json.Some? {
        MarkParsingComplete(id, p.json.value, p.upsert);
      }
    }

    // ---- Operations ----

    /** `processor_handle_file`; `outId` is 0 when no row was created. */
    method HandleFile(u: Upload) returns (outId: Id)
      requires |u.data| < 0x2000_0000_0000_0000
      modifies this
      ensures trace == old(trace) + UploadEffects(old(View()), u)
      ensures View() == Last(old(View()), UploadEffects(old(View()), u))
      ensures outId == if Admitted(old(View()), u) && Recorded(old(View()), u) then old(nextId) else 0
    {
      hide FileHash, OcrFilename, SavedName, OcrEffects, Inserted;
      outId := 0;
      var hash := HashFile(u.data);
      if u.lookup == Refused {
        return;
      }
      if u.lookup == Answered && (exists i :: i in files && files[i].hash == hash) && !u.strategyContinues {
        return;
      }
      ghost var w0, before := View(), trace;
      assert Admitted(w0, u);
      var id, saved := SaveFile(u, hash);
      if id.None? {
        return;
      }
      outId := id.value;
      ghost var w1, w2 := Stored(w0, saved, u.data, u.save), View();
      RunOcr(id.value, saved, u.ocr);
      ghost var e := OcrEffects(w2, w1.nextId, saved, u.ocr);
      assert UploadEffects(w0, u) == [w1, w2] + e;
      assert trace == before + ([w1, w2] + e);
    }

    method HashFile(data: seq<Byte>) returns (hash: string)
      requires |data| < 0x2000_0000_0000_0000
      ensures hash == FileHash(data)
    {
      hash := Sha256.Sha256Hex(data);
    }

    /** `processor_retry_ocr`; `text` is what the parser was given. */
    method RetryOcr(id: Id, lookup: Lookup, readable: bool, p: ParseRun) returns (text: Option<Text>)
      modifies this
      ensures trace == old(trace) + Effects(old(View()), Op.RetryOcr(id, lookup, readable, p))
      ensures View() == Last(old(View()), Effects(old(View()), Op.RetryOcr(id, lookup, readable, p)))
      ensures text == RetryText(old(View()), id, lookup, readable)
    {
      text := None;
      if lookup != Answered || id !in files {
        return;
      }
      if files[id].ocrName == "" {
        return;
      }
      text := Read(View(), files[id].ocrName, readable);
      if text.None? {
        return;
      }
      ParseReceipt(id, p);
    }

    /** `processor_retry_ocr_with_model`. */
    method RetryOcrWithModel(id: Id, lookup: Lookup, readable: bool, o: OcrRun)
      modifies this
      ensures trace == old(trace) + Effects(old(View()), RetryWithModel(id, lookup, readable, o))
      ensures View() == Last(old(View()), Effects(old(View()), RetryWithModel(id, lookup, readable, o)))
    {
      hide OcrEffects;
      if lookup != Answered || id !in files {
        return;
      }
      var data := Read(View(), files[id].saved, readable);
      if data.None? {
        return;
      }
      RunOcr(id, files[id].saved, o);
    }

    /** `do_delete_file`: objects first, row last. */
    method DoDeleteFile(id: Id, lookup: Lookup, removeSaved: Db, removeOcr: Db, row: Db) returns (rc: int)
      modifies this
      ensures trace == old(trace) + Effects(old(View()), Delete(id, lookup, removeSaved, removeOcr, row))
      ensures View() == Last(old(View()), Effects(old(View()), Delete(id, lookup, removeSaved, removeOcr, row)))
      ensures rc == if lookup == Answered && id in old(files) && row == Executed then 0 else -1
    {
      if lookup != Answered || id !in files {
        return -1;
      }
      var rec := files[id];
      RemoveObject(rec.saved, removeSaved);
      trace := trace + [View()];
      if rec.ocrName != "" {
        RemoveObject(rec.ocrName, removeOcr);
      }
      trace := trace + [View()];
      var ok := DeleteRow(id, row);
      return if ok then 0 else -1;
    }
  }
}
