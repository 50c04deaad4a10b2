# Receipt bot: verified model

A Dafny model of the receipt bot written in C: a Telegram bot that long-polls for updates, stores the
files users upload under their SHA-256 hash, has them read by an OCR service, and keeps the parsed
receipts in SQLite. The model follows the C code branch by branch and proves what the parts promise,
each on its own and together.

`dafny verify dfyconfig.toml` checks the whole project with Dafny 4.11.

## How it is organised

| Files | What they hold |
|---|---|
| `Bytes.dfy`, `Decimal.dfy` | `uint8_t`, `int64_t`, `Option`, powers of two; printing and `strtoll` |
| `Sha256Spec.dfy` | SHA-256 as FIPS 180-4 writes it: padding, schedule, compression, a fold over blocks |
| `Sha256Words.dfy`, `Sha256Constants.dfy`, `Sha256Example.dfy` | what its word operations and constants are, as numbers and bit by bit, and its published example |
| `Sha256.dfy`, `Sha256Padding.dfy` | the streaming hash of the program, refined to that standard |
| `Naming.dfy` | saved names and OCR names |
| `Pipeline.dfy` | the tables, the store and the operations as lists of effects, each of which can fail |
| `PipelineTables.dfy`, `PipelineStore.dfy`, `PipelineGuarantees.dfy` | what every run keeps, and what a user gets from it |
| `PipelineHashes.dfy`, `PipelineReceipts.dfy`, `PipelineCollisions.dfy` | exactly which hashes have a record and which files a receipt after each operation and run, and exactly when one record's operation reaches another |
| `Processor.dfy` | the operations as methods working in place, proved to have exactly those effects |
| `LongPoll.dfy`, `Delivery.dfy`, `BotRuns.dfy` | polling as a protocol between bot, network and server; the bot's loop, and that its lives are runs of the protocol |
| `EndToEnd.dfy` | polling and pipeline together |
| `GrowBuf.dfy`, `Base64.dfy`, `PercentEncoding.dfy` | the growable buffer and the two encoders |
| `MemoryRepository.dfy`, `PromptFetcher.dfy` | the array-backed repository and the prompt cache |
| `Commands.dfy`, `Config.dfy`, `Markdown.dfy`, `HttpRetry.dfy` | command and button parsing, CSV settings, fence stripping, retries |

Code that changes state in the original is a class or a method here, specified by a function of the old
state; what the original promises is then proved about that function. An operation of the pipeline is
the sequence of worlds it passes through, so "fails at any step" and "stops at any step" are both
ordinary values: `Call(op, stop)` performs at most `stop` effects of `op`, and every effect carries its
own outcome.

## Results worth knowing

- The streaming hash prints SHA-256 of every input below 2^61 bytes, however the input is cut up, with
  the constant of each round tied to the cube root of its prime, and the published digest of "abc" among
  its values.
- In every run of uploads, retries and deletes, with any failures and any stopping points, hashes and
  saved names stay unique, ids are not reused, each receipt belongs to one live file, and the OCR flag
  and name agree. A live file has a receipt exactly when some call stored one for it, with the JSON of the
  last such call (`RunReceipts`).
- No update is confirmed before it was dispatched, whatever the network loses. But the bot moves its
  offset past an update whatever the handler did, so a confirmed upload need not be stored. Joined with
  the pipeline, over all runs with failing, early-ending and interrupted handlers: a confirmed upload is
  in exactly one live record if and only if no finished handler missed it and no delete took it since
  it was last stored, and there are never two live records for one hash.
- Where the code falls short the exact condition is proved: a handler leaves its upload without a record
  unless the file was known or nothing failed on the way to the row (`UploadStoresIff`; a run that
  confirms such an upload is `MissedUploadIsConfirmed`); an upload in a second that is already taken
  overwrites stored bytes or shares the OCR text (`UploadKeepsBytesIff`, `UploadKeepsTextIff`, and for
  all operations `OthersUntouchedIff`); a delete whose database step does not happen leaves a record
  without its bytes (`DeleteKeepsBytesIff`, and over whole runs `RunKeepsBytesIff`); a duplicate whose
  lookup fails is saved once more though never recorded twice (`RedeliveryIff`); a retry reads what the
  last save of text left, which is the last whole text exactly when that save was complete or left the
  same bytes (`RetryReadsWholeTextIff`); prompts removed from the database stay with a reader of the callbacks
  (`CallbacksReproduceSnapshot`); an unchanged database is polled silently exactly when it and the cache
  fit 64 names (`UnchangedPollIsSilentIff`); hashes of 65 characters or more defeat the memory
  repository's uniqueness (`InsertKeepsUniqueIff`, `LongHashIsNotUnique`); a fenced body that ends in a
  backtick or starts with the letters of the tag is not recovered (`UnwrapIff`).

## Model

| member | source | states |
|---|---|---|
| Sha256.Sha256Ctx.Init | src/storage/storage_local.c:96-106 | A new context holds the initial hash value and has been fed nothing |
| Sha256.Sha256Ctx.Schedule | src/storage/storage_local.c:57-63 | The in-place 64-word array ends up holding the message schedule of the buffered block, word by word |
| Sha256.Sha256Ctx.Mix | src/storage/storage_local.c:65-85 | The 64-turn register rotation computes the 64 rounds of the standard from the current state |
| Sha256.Sha256Ctx.Transform | src/storage/storage_local.c:44-94 | One transform replaces the state by its compression with the buffered block and changes neither count nor buffer |
| Sha256.Sha256Ctx.Update | src/storage/storage_local.c:108-116 | An update absorbs its bytes one at a time, compressing whenever a block is complete |
| Sha256.AbsorbSplit | src/storage/storage_local.c:108-116 | Any way of cutting an input into updates leaves the same context |
| Sha256.FeedTracks | src/storage/storage_local.c:108-116 | One byte keeps the context in step: state is the hash of the finished blocks, the buffer front is the unfinished tail |
| Sha256.AbsorbTracks | src/storage/storage_local.c:108-116 | So does every update, for every message so far and every input |
| Sha256.ReachableContext | src/storage/storage_local.c:108-116 | After any sequence of updates, state, count and buffer front follow from the concatenation of all inputs alone |
| Sha256.Sha256Ctx.FinalMarker | src/storage/storage_local.c:120-124 | The padding loop ends and has fed the marker and exactly the smallest number of zero bytes that leaves room for the length |
| Sha256.Sha256Ctx.LengthField | src/storage/storage_local.c:125-129 | The byte loop lays the bit count out big-endian in eight bytes |
| Sha256.Sha256Ctx.Output | src/storage/storage_local.c:131-133 | The digest is the eight state words, most significant byte first |
| Sha256.Sha256Ctx.Final | src/storage/storage_local.c:118-134 | Finalising feeds marker, zeros and length and returns the digest of the resulting state |
| Sha256.FinishHashes | src/storage/storage_local.c:118-130 | Finalising a context that has been fed a message below 2^61 bytes leaves the hash of the padded message |
| Sha256.HexString | src/storage/storage_local.c:143-145 | The print loop gives two lower-case hexadecimal digits a byte, in order |
| Sha256.Sha256Hex | src/storage/storage_local.c:136-147 | Init, update, final and print together give the lower-case hex of SHA-256 as defined by sections 5.1.1, 5.3.3 and 6.2.2 of FIPS 180-4 |
| Sha256Words.ChooseBit | src/storage/storage_local.c:37 | Every bit of the choice function is y's where x has a one and z's where it has none |
| Sha256Words.MajorityBit | src/storage/storage_local.c:38 | Every bit of the majority function is the one at least two operands have |
| Sha256Words.PlusIsModular | src/storage/storage_local.c:77 | Adding words adds the numbers they stand for modulo 2^32 |
| Sha256Words.AddRegsIsModular | src/storage/storage_local.c:86-93 | After a block each state word has its own register added, modulo 2^32 |
| Sha256Words.WordOfValue | src/storage/storage_local.c:59-60 | The word built from four bytes is their value in base 256, first byte most significant |
| Sha256Words.WordOfBytes | src/storage/storage_local.c:131-133 | The four bytes printed for a word build that word again |
| Sha256Words.HexAt | src/storage/storage_local.c:143-145 | Each byte is printed as two lower-case digits that read back as that byte, the high one first |
| Sha256Words.DigestReadsBack | src/storage/storage_local.c:131-145 | Every eight digits of a printed digest read back as one word of the hash value, in order |
| Sha256Example.AbcHash | src/storage/storage_local.c:44-94 | The hash value of "abc" is the one published with FIPS 180-4, all 64 rounds worked out |
| Sha256Example.AbcDigest | src/storage/storage_local.c:136-147 | So the digits printed for "abc" are those of the published digest |
| Sha256Constants.RoundConstantIsCubeRoot | src/storage/storage_local.c:26-34 | Round t adds the first 32 bits of the fractional part of the cube root of the t-th prime, the prime with exactly t primes below it |
| Sha256Constants.InitialStateIsSquareRoots | src/storage/storage_local.c:98-105 | Each word of the initial hash value is the first 32 bits of the fractional part of the square root of its prime |
| Sha256Padding.PaddingIsBitPadding | src/storage/storage_local.c:118-130 | The appended bytes spell the bits section 5.1.1 asks for: a one, the smallest admissible number of zeros, the 64-bit length |
| Sha256Padding.PaddingIsMinimal | src/storage/storage_local.c:123-124 | Any other padding that ends on a block boundary is longer by whole blocks; the padding is 9 to 72 bytes |
| Sha256Padding.PaddingIsInjective | src/storage/storage_local.c:118-130 | Two messages below 2^61 bytes with the same padded form are the same |
| Naming.GenFilenameShape | src/storage/storage_local.c:361-366 | Whatever the extension, a saved name is the 26-character stamp of its second and the extension, cut to 255 characters, and the rest cannot reach the OCR name |
| Naming.StampFields | src/storage/storage_local.c:362-366 | The stamp is "upload_", year, month, day, hour, minute and second in this order, each readable in its place, with the separators of the format |
| Naming.BaseAndExtension | src/processor.c:161 | Every name is what stands before its last dot and the extension from that dot on, which is empty exactly without a dot |
| Naming.StampInjective | src/storage/storage_local.c:362-366 | Different seconds give different stamps |
| Naming.SavedAndOcrNamesDisjoint | src/storage/storage_local.c:368-372 | No saved name is ever an OCR name |
| Naming.OcrNameInjective | src/storage/storage_local.c:368-372 | Two saved names share an OCR name exactly when they share the second |
| PipelineTables.InsertedSound | src/db/db_sqlite.c:225-267 | An insert, accepted or refused, keeps the tables consistent and gives out a new id |
| PipelineTables.OcrMarkedSound | src/processor.c:215-218 | Marking OCR done keeps flag and OCR name in agreement, whether the statement works or not |
| PipelineTables.ParsedSound | src/db/db_sqlite.c:356-378 | The check-then-write upsert never gives a file a second receipt or a receipt without a file, even when the check misreads |
| PipelineTables.RowDeletedSound | src/db/db_sqlite.c:582-607 | Deleting a row takes its receipt along and leaves the tables consistent |
| PipelineTables.CallSound | src/processor.c:158-517 | Every operation, with any failures and stopped anywhere, keeps hashes and names unique, receipts attached, the OCR flag right, and old rows' names and hashes unchanged |
| PipelineTables.RunSound | src/processor.c:158-517 | So does every run of operations |
| PipelineTables.IdsAreNeverReused | src/db/db_sqlite.c:65 | An id that was given out and deleted never comes back in any later run |
| PipelineStore.FreshObjectGood | src/processor.c:161-169 | A save under an unused second, complete or torn, damages no record's bytes or text |
| PipelineStore.RowGood | src/processor.c:171-185 | The row inserted after a complete save has its bytes in the store under its hash |
| PipelineStore.OcrObjectGood | src/processor.c:208-213 | Writing a record's OCR text, even torn, leaves all saved bytes and all other texts alone |
| PipelineStore.CallGood | src/processor.c:250-517 | With a fresh second for an upload and a delete that completes, every operation keeps every live record's bytes hashing to its hash, wherever it stops and whatever fails |
| PipelineStore.RunGood | src/processor.c:250-517 | So does every run under these two premises, and the OCR text stored for each record is what its last save of text left, torn or whole |
| PipelineStore.EveryRunKeepsBytes | src/processor.c:250-517 | In particular every such run from an empty database ends with all live bytes hashing to their `file_hash` |
| PipelineGuarantees.UploadKeepsBytesIff | src/processor.c:161-184 | An upload damages a stored record exactly when, past the duplicate check, it writes different bytes under a live record's name |
| PipelineGuarantees.DeleteKeepsBytesIff | src/telegram/bot_commands.c:73-82 | A delete leaves all live bytes right exactly when it does nothing, cannot remove the file, or completes its database step, also where records share a second |
| PipelineGuarantees.CallKeepsBytesIff | src/processor.c:250-517 | Over all operations: live bytes stay right unless an upload overwrites a live record's or a delete removes a file and keeps its row |
| PipelineGuarantees.RunKeepsBytesIff | src/processor.c:250-517 | Through a whole run, seconds shared or not, all live bytes are right in every world exactly when no call of it does either |
| PipelineGuarantees.CallKeepsRows | src/processor.c:250-517 | Everything but a delete keeps every row and adds at most the row of its own upload |
| PipelineGuarantees.CallKeepsShapes | src/processor.c:161-163 | Saved names keep the shape the clock gives them through every operation |
| PipelineGuarantees.AcceptedHasRow | src/processor.c:277-283 | An upload that got as far as its row keeps that row under its hash, wherever it stops afterwards |
| PipelineGuarantees.RowStays | src/telegram/bot_commands.c:78 | A row stays, with its hash, through every call that is not its own delete |
| PipelineGuarantees.RowStaysInRun | src/processor.c:250-517 | A row stays, with its hash, through every run that does not delete that row |
| PipelineGuarantees.NeverStoredTwice | src/infra/file_repository.c:18-57 | In every run, with failed lookups and strategies that continue, no two live records share a hash and no record has two receipts |
| PipelineGuarantees.RetryReadsLastText | src/processor.c:343-366 | A retry parses exactly the bytes left by the last save of text that opened its file, complete or not |
| PipelineGuarantees.RetryReadsWholeTextIff | src/processor.c:211-218 | Those are the text last saved completely exactly when the last save was complete or left the same bytes |
| PipelineGuarantees.RunsReadLastText | src/processor.c:328-517 | Both hold after every run from an empty database with distinct seconds and completed deletes, whatever else fails |
| PipelineGuarantees.SavedTextIsRead | src/storage/storage_local.c:243-249 | Without those premises: after a retry with a model has saved text, even torn, on a marked record, the next retry parses what that save left |
| PipelineGuarantees.UploadedTextIsRead | src/processor.c:211-218 | The same for the OCR run of an upload whose row was marked, including a torn first text |
| PipelineGuarantees.RetryLeaves | src/processor.c:456-467 | A retry with a model has saved the new text as soon as it has any effect, and has marked the row from the second on |
| PipelineHashes.UploadStoresIff | src/processor.c:262-283 | After an upload, stopped anywhere, its bytes have a record exactly when they had one, or lookup, save and insert worked, the name was free, and the insert was reached |
| PipelineHashes.HashesAfter | src/processor.c:250-517 | Over all operations: an upload adds its own hash under that condition, a completed delete takes its row's hash, and no other hash gains or loses a record |
| PipelineHashes.AcceptedIsStored | src/processor.c:161-185 | The row of an accepted upload has the name made of clock and extension and the SHA-256 of its bytes, and those bytes are in the store under that name, wherever the upload stops afterwards |
| PipelineReceipts.CallSettles | src/db/db_sqlite.c:356-378 | A call that gets to a working upsert leaves that live file exactly one receipt, with the new JSON; a failed upsert or any other call leaves the file's receipts as they were, and a delete of the row takes them |
| PipelineReceipts.WrittenIdsAreIssued | src/processor.c:222-248 | Receipts are only ever stored for ids that were given out |
| PipelineReceipts.RunReceipts | src/processor.c:222-517 | After any run from an empty database a live file has a receipt exactly when some call stored JSON for it, and then exactly one, with the JSON of the last such call |
| PipelineCollisions.UploadKeepsSavedIff | src/processor.c:161-169 | An upload changes a record's stored bytes exactly when it opens a file of the same name and writes other bytes |
| PipelineCollisions.UploadKeepsTextIff | src/storage/storage_local.c:368-372 | An upload changes a record's OCR text exactly when it is recorded in the same second, reaches its OCR save, opens the file and leaves another text |
| PipelineCollisions.RetryReachesIff | src/processor.c:456-467 | A retry with a model changes no record's bytes, and a record's text exactly when it shares the second and leaves another text |
| PipelineCollisions.DeleteReachesIff | src/telegram/bot_commands.c:73-76 | A delete changes no other record's bytes, and another's text exactly when it removes the text of their common second |
| PipelineCollisions.OthersUntouchedIff | src/processor.c:250-517 | Every operation, stopped anywhere, leaves another record's row, receipt, bytes and text alone exactly when it does not reach it through the names of a common second |
| PipelineCollisions.OthersUntouched | src/processor.c:250-517 | With distinct seconds it never reaches another record |
| PipelineCollisions.RedeliveryIff | src/processor.c:262-280 | An upload of bytes that have a record never changes the tables, and leaves the store alone exactly when the duplicate is recognised and the strategy stops, the lookup is refused, no file is opened, or the same bytes are there under its name |
| PipelineCollisions.RunRedeliveryIff | src/infra/file_repository.c:18-25 | The same after any run from the first delivery, as long as its record lives; a failed query read as "not found" is where the file is saved again |
| PipelineCollisions.InterruptedDeleteLosesBytes | src/telegram/bot_commands.c:73-78 | Any upload to an empty database and a delete that dies after removing the file end in a live row without its bytes |
| PipelineCollisions.SharedTextIsRead | src/storage/storage_local.c:368-372 | After an upload in the second of a marked record, the next retry for that record parses the upload's text |
| PipelineCollisions.SecondUploadTakesText | src/storage/storage_local.c:361-372 | Two different files uploaded in one second under different extensions are both stored, and a retry for the first parses the text of the second |
| Processor.ReceiptProcessor.SaveObject | src/storage/storage_local.c:231-252 | A save stores all bytes, a prefix of the length that was written, or nothing, under its own name only, and reports success only for the first |
| Processor.ReceiptProcessor.InsertRow | src/infra/file_repository.c:36-57 | A row is added with the next id unless the statement fails or a UNIQUE column clashes |
| Processor.ReceiptProcessor.MarkParsingComplete | src/db/db_sqlite.c:356-378 | Check, then update or insert, has exactly the effect of the modelled upsert, which PipelineReceipts.CallSettles pins down |
| Processor.ReceiptProcessor.DeleteRow | src/db/db_sqlite.c:582-607 | Deletes the row with its receipt; reports success only when a row was there |
| Processor.ReceiptProcessor.SaveFile | src/processor.c:158-187 | Saves under the clock's name, then inserts; an id comes back exactly when both worked |
| Processor.ReceiptProcessor.RunOcr | src/processor.c:189-220 | Saves the text, marks the row even if that failed, then parses; nothing happens when OCR fails |
| Processor.ReceiptProcessor.ParseReceipt | src/processor.c:222-248 | Upserts the receipt when the service answers, and does nothing else |
| Processor.ReceiptProcessor.HandleFile | src/processor.c:250-326 | Passes through exactly the worlds of an upload, in order, and returns the new id exactly when a row was made |
| Processor.ReceiptProcessor.RetryOcr | src/processor.c:328-405 | Passes through exactly the worlds of a retry and parses exactly the text the store holds |
| Processor.ReceiptProcessor.RetryOcrWithModel | src/processor.c:407-517 | Passes through exactly the worlds of a retry with a model, early returns included |
| Processor.ReceiptProcessor.DoDeleteFile | src/telegram/bot_commands.c:65-87 | Objects first, row last, object failures ignored; returns 0 exactly when the row was deleted |
| LongPoll.StepKeepsInv | src/telegram/bot.c:322-381 | Every step of bot, server, network, stop and crash keeps the protocol's invariant |
| LongPoll.RunKeepsInv | src/telegram/bot.c:322-381 | So does every run |
| Delivery.EveryRunIsSafe | src/telegram/bot.c:322-381 | From the start, with any losses, repeats, stops and crashes: nothing confirmed before it was dispatched, nothing lost, at most once and in increasing order within one process life |
| Delivery.OffsetNeverDecreases | src/telegram/bot.c:370 | Within one process life the offset never goes down |
| Delivery.StopFinishesTheBatch | src/telegram/bot.c:326 | A bot that leaves its loop has dispatched everything it received |
| Delivery.HandleRuns | src/telegram/bot.c:365-372 | Working through a batch dispatches all of it in order and leaves the offset after its last update |
| Delivery.LosslessPollDelivers | src/telegram/bot.c:326-373 | One poll without losses dispatches everything the server knows |
| Delivery.RestartRedeliversTheQueue | src/telegram/bot.c:297 | After a restart exactly the updates still queued are dispatched, each once |
| Delivery.TgBot.HandleResult | src/telegram/bot.c:361-373 | The inner loop dispatches every numbered update of the response once and in order, nothing else, and leaves the offset one past the last one, or alone without any |
| Delivery.TgBot.Start | src/telegram/bot.c:322-381 | Over the turns up to the one in which the flag was cleared, every numbered update that came is dispatched once, in order of turn and place, and the offset ends one past the last; each turn asks with the offset reached so far |
| Delivery.IdsNumbered | src/telegram/bot.c:363-371 | The ids taken from a response are exactly those of its numbered items, in order |
| Delivery.LifeNumbered | src/telegram/bot.c:322-381 | The same over any turns: each update that came once, ordered by turn and place |
| Delivery.OffsetOfTurn | src/telegram/bot.c:328-331 | Every request asks for what comes after all that the turns before it brought |
| BotRuns.TurnIsRun | src/telegram/bot.c:326-378 | A turn of the loop on any answer the server can give is a piece of a run of the protocol, back at the loop head |
| BotRuns.LoopIsRun | src/telegram/bot.c:326-378 | So are all turns up to the one in which the flag is cleared, with anything the server does in between |
| BotRuns.OneLife | src/telegram/bot.c:288-381 | Creating the bot and running its loop dispatches each update of the turns taken once and in order, ends one past the last, and dispatches the updates, reaches the offset and sends the offsets of a run of the protocol, so every guarantee of the protocol holds for the loop |
| EndToEnd.StepKeepsInv | src/telegram/bot.c:363-371 | Every joint step, with any handler failing, ending early or cut short, keeps the account of every dispatched upload right |
| EndToEnd.DispatchedIsStoredOnceIff | src/telegram/bot_commands.c:261-304 | In every joint run a dispatched upload is in exactly one live record if and only if no finished handler missed it and no delete took it since it was last stored |
| EndToEnd.ConfirmedIsStoredOnceIff | src/telegram/bot.c:369-370 | The same for every upload the server has forgotten |
| EndToEnd.NeverTwoRecords | src/infra/file_repository.c:18-57 | On the same runs no two live records share a hash and no record has two receipts |
| EndToEnd.WorldIsRun | src/telegram/bot.c:368-371 | Seen from tables and store a joint run is the run of its handler calls, so every run theorem of the pipeline holds for it |
| EndToEnd.ConfirmedBytesAreStoredIff | src/processor.c:158-187 | If none of those calls damages bytes, a confirmed upload's bytes are in the store under a live record if and only if no finished handler missed it and no delete took it since it was last stored |
| EndToEnd.SmoothRunStoresEverything | src/processor.c:262-280 | Where no handler misses its file and no delete happens, crashes included, every confirmed upload is in exactly one record |
| EndToEnd.MissedUploadIsConfirmed | src/telegram/bot.c:368-371 | Any first upload whose handler fails or ends before the pipeline is confirmed by the next poll and has no record |
| GrowBuf.GrownKeepsOk | src/utils.c:14-33 | One callback keeps the capacity at 0 or 8192 times a power of two, below twice what is needed, and all bytes moved within capacity less 8192 |
| GrowBuf.EveryRunIsAmortised | src/utils.c:14-33 | After every run of callbacks, all reallocations together moved at most twice the bytes stored |
| GrowBuf.NewCapFits | src/utils.c:20-22 | The doubling loop does not overflow 64 bits while the content stays within 2^63 bytes |
| GrowBuf.Buffer.Write | src/utils.c:14-33 | Accepted chunks are appended and the terminator follows; a failed allocation changes nothing and consumes 0 |
| GrowBuf.Buffer.Realloc | src/utils.c:19-27 | The new block has the smallest doubled capacity that fits and starts with the old bytes |
| Base64.CharIsTable | src/utils.c:46 | The program's alphabet is the table of section 4 of RFC 4648 |
| Base64.DecodeEncode | src/utils.c:48-75 | A decoder written from section 4 of RFC 4648 gives back every byte string |
| Base64.EncodeLength | src/utils.c:49 | The output has four characters for every three bytes begun |
| Base64.PaddingPlaces | src/utils.c:66-72 | "=" stands in the last places only, as many as the length modulo three asks for |
| Base64.PadsOverwriteTheEnd | src/utils.c:54-72 | Writing full groups and then overwriting the end gives the encoding |
| Base64.Base64Encode | src/utils.c:48-75 | The two-index loop fills the allocation exactly, terminator included |
| PercentEncoding.DecodeEncode | src/utils.c:85-108 | Decoding by section 2.1 of RFC 3986 gives back every byte string |
| PercentEncoding.EncodeInjective | src/utils.c:85-108 | Encodings are equal exactly when the inputs are |
| PercentEncoding.EncodeLength | src/utils.c:91 | The length is the input's plus two for each byte outside the unreserved set of section 2.3, never above the allocation |
| PercentEncoding.EncodeIsPrintable | src/utils.c:96-105 | Only unreserved characters and "%" come out |
| PercentEncoding.EncodeByte | src/utils.c:96-105 | A byte outside the unreserved set becomes "%" and two upper-case digits, high one first; any other stays |
| PercentEncoding.UrlPercentEncode | src/utils.c:85-108 | The loop writes the encoding and its terminator inside the allocation |
| MemoryRepository.ApplyRefines | src/infra/file_repository_memory.c:55-150 | Insert, mark and delete on the array do what they do on a table from ids to records, with the same return codes |
| MemoryRepository.RunRefines | src/infra/file_repository_memory.c:55-150 | So does every run, with ids increasing along the array throughout |
| MemoryRepository.InsertIff | src/infra/file_repository_memory.c:55-85 | An insert is refused exactly at 100 records or, below that, on a hash that is there; otherwise the next id gets the record, cut to 511, 64 and 255 characters, not marked, and no other record changes |
| MemoryRepository.MarkAndDeleteIff | src/infra/file_repository_memory.c:87-150 | A mark changes the OCR flag and name of one record and a delete takes one record away, exactly when the id is there, and no other record changes |
| MemoryRepository.InsertKeepsUniqueIff | src/infra/file_repository_memory.c:66-77 | An accepted insert keeps hashes unique exactly when what the buffer keeps of its hash is new |
| MemoryRepository.RunKeepsUnique | src/infra/file_repository_memory.c:66-77 | Hashes of at most 64 characters stay unique in every run |
| MemoryRepository.LongHashIsNotUnique | src/infra/file_repository_memory.c:77 | Any longer hash is accepted twice |
| MemoryRepository.ListedIsNewest | src/infra/file_repository_memory.c:152-166 | The list holds the newest records of the array in descending id, as many as asked for, or all for a limit of zero or less |
| MemoryRepository.Repository.FindByHash | src/infra/file_repository_memory.c:27-39 | Finds a record of the table with this hash exactly when some row has it, and reports otherwise that there is none |
| MemoryRepository.Repository.FindById | src/infra/file_repository_memory.c:41-53 | Finds the table's record for this id, or reports that there is none |
| MemoryRepository.Repository.Insert | src/infra/file_repository_memory.c:55-85 | Capacity first, duplicates second, then append with the next id |
| MemoryRepository.Repository.MarkOcrComplete | src/infra/file_repository_memory.c:87-101 | Updates flag and OCR name of the record in place, and of no other |
| MemoryRepository.Repository.DeleteById | src/infra/file_repository_memory.c:134-150 | Removes the record and keeps the order of the rest |
| MemoryRepository.Repository.ShiftDown | src/infra/file_repository_memory.c:141-144 | The shift loop closes the gap and loses nothing else |
| MemoryRepository.Repository.List | src/infra/file_repository_memory.c:152-166 | The downward loop passes exactly that list to the callback |
| PromptFetcher.PollKnows | src/ocr/prompt_fetcher.c:72-100 | Within the capacity, one poll teaches the cache the snapshot, and its callbacks teach a reader the same |
| PromptFetcher.KnownPollIsSilent | src/ocr/prompt_fetcher.c:72-100 | A poll that finds only what the cache knows makes no callback and changes nothing |
| PromptFetcher.NotedAllNames | src/ocr/prompt_fetcher.c:81-91 | A poll forgets no name, and either learns every name of the snapshot or leaves the cache full |
| PromptFetcher.UnchangedPollIsSilent | src/ocr/prompt_fetcher.c:72-100 | Within the capacity, polling an unchanged database reports nothing and changes nothing |
| PromptFetcher.UnchangedPollIsSilentIff | src/ocr/prompt_fetcher.c:72-100 | Polling an unchanged database reports nothing exactly when cache and snapshot together have at most 64 names |
| PromptFetcher.FullCacheRepeats | src/ocr/prompt_fetcher.c:81-91 | With the cache full, a poll reports every prompt of its snapshot whose name the cache does not hold |
| PromptFetcher.FullCacheRepeatsForever | src/ocr/prompt_fetcher.c:46-104 | And so does every later poll that finds it, after any run of polls |
| PromptFetcher.RunTeaches | src/ocr/prompt_fetcher.c:46-104 | Over every run of polls, failed ones and a full cache included, a reader of the callbacks learns everything the polls collected and agrees with the cache on all it holds |
| PromptFetcher.RunKnowsIff | src/ocr/prompt_fetcher.c:46-104 | After any run the reader knows exactly what the cache knows if and only if all names ever collected are at most 64 |
| PromptFetcher.CallbacksReproduceSnapshot | src/ocr/prompt_fetcher.c:46-104 | Folding all callbacks over the first snapshot gives every prompt the latest poll collected, past the capacity too, and equals it exactly when no name collected before is missing from it |
| PromptFetcher.SmallSnapshotIsReproduced | src/ocr/prompt_fetcher.c:46-104 | When the latest poll found at most 64 prompts the reader knows each of them with its content, and no other name exactly when none collected before is missing |
| PromptFetcher.Fetcher.Collect | src/ocr/prompt_fetcher.c:36-42 | Keeps the rows in order up to 64 and drops the rest |
| PromptFetcher.Fetcher.CompareOne | src/ocr/prompt_fetcher.c:73-99 | Reports a prompt exactly when it is new or changed, and updates or adds it in place |
| PromptFetcher.Fetcher.Compare | src/ocr/prompt_fetcher.c:72-100 | The loop's count, callbacks and final cache are those of the comparison |
| PromptFetcher.Fetcher.Poll | src/ocr/prompt_fetcher.c:46-104 | A failed poll leaves the cache alone; the first success fills it silently; later ones return the number of callbacks |
| PromptFetcher.Fetcher.Tick | src/ocr/prompt_fetcher.c:133-142 | Polls exactly when the interval has passed or nothing was fetched yet |
| Decimal.StrtollOfPrint | src/telegram/bot_commands.c:165 | Every printed 64-bit integer is read back, up to the first character that is not a digit |
| Decimal.StrtollIff | src/telegram/bot_commands.c:165 | Reading a number finds exactly the optional C white space, optional sign and one or more digits that lead the text, with their value clamped to 64 bits, and reports nothing read exactly when no such number leads it |
| Decimal.PrintLength | src/telegram/bot.c:147 | No 64-bit integer takes more than 20 characters |
| Commands.StartsWithIsFirstToken | src/telegram/bot_commands.c:59-62 | A matcher holds exactly when the first space-delimited token is its command |
| Commands.OrderDoesNotMatter | src/telegram/bot_commands.c:131-257 | Testing the commands in any order, with or without repetitions, routes every text the same way |
| Commands.TypedIdIsRecovered | src/telegram/bot_commands.c:154-175 | Any id typed after "/delete" or "/retry" and any spaces is the id acted on |
| Commands.TypedModelIsRecovered | src/telegram/bot_commands.c:178-215 | "/retrywith" recovers any model without spaces, cut to 127 characters, and any id |
| Commands.RouteIff | src/telegram/bot_commands.c:131-257 | A text is help, models or list exactly when it is that command alone or followed by a space, and unknown exactly when it is none of the seven |
| Commands.IdCommandIff | src/telegram/bot_commands.c:154-175 | After "/delete" or "/retry" and spaces the action is on an id exactly when all that follows is one number with that value; nothing is answered with the usage, and anything else is refused |
| Commands.ModelCommandIff | src/telegram/bot_commands.c:188-215 | After "/retrywith", a model and spaces likewise, with the model cut to 127 characters |
| Commands.ModelCommandUsage | src/telegram/bot_commands.c:178-198 | Without a model, or without a space behind it, "/retrywith" answers with its usage |
| Commands.CallbackIff | src/telegram/bot_commands.c:387-438 | Callback data acts by its prefix on the number that leads the rest, or 0, and is ignored exactly when no prefix matches or a model has no colon behind it |
| Commands.ModelCallbackIff | src/telegram/bot_commands.c:426-438 | "rwm:", a model without colon, a colon and a rest act on that model, cut to 127 characters, and the number that leads the rest |
| Commands.ButtonsRoundTrip | src/telegram/bot.c:145-155 | Both buttons fit their 64-byte buffers for every id and come back as the same action on that id |
| Commands.ModelButtonRoundTrip | src/telegram/bot_commands.c:426-438 | Data for a retry with a model comes back, for any model without a colon and any id |
| Commands.HandleCommand | src/telegram/bot_commands.c:131-257 | The chain of tests with its walks over spaces takes the route of the text |
| Commands.HandleId | src/telegram/bot_commands.c:154-175 | The two walks and the number test give the answer of the route, of which Commands.IdCommandIff says which it is |
| Commands.HandleRetryWith | src/telegram/bot_commands.c:177-215 | Model and id are cut out as the code does, with the answer of the route, of which Commands.ModelCommandIff and Commands.ModelCommandUsage say which it is |
| Config.NextToken | src/config.c:33 | One tokeniser call gives the first field that is not empty and leaves the rest |
| Config.TokensAreFields | src/config.c:31-46 | All calls together give the comma-separated fields that are not empty |
| Config.FieldsJoin | src/config.c:31-46 | The fields hold no comma, and joined with commas they are the text |
| Config.ParseUserIds | src/config.c:27-49 | The loop fills the array with the ids of the first 32 tokens, or returns -1 when one of them has no number |
| Config.WhitelistIff | src/config.c:27-49 | The whitelist is refused exactly when one of the first 32 tokens is led by no number; otherwise it has one id for each of them, the number that leads it |
| Config.WhitelistRoundTrip | src/config.c:27-49 | 1 to 32 printed ids always fit the 1024-byte buffer and are read back as the same list |
| Config.IsAllowed | src/config.c:240-246 | A user is allowed exactly when the list holds the id |
| Config.KeepModels | src/config.c:212-228 | The model loop keeps the trimmed tokens that are not blank, at most eight |
| Config.ParseModels | src/config.c:209-229 | So the models are those of the fields of the 511 characters the buffer keeps, of which Config.ModelsAreFirstFilled says which they are |
| Config.TrimIff | src/config.c:213-219 | Trimming gives exactly what stands between the blanks and tabs at both ends |
| Config.ModelsAreFirstFilled | src/config.c:212-228 | The models are the first eight fields with something in them, in order, each without the blanks around it and cut to 127 characters |
| Config.ModelsRoundTrip | src/config.c:205-229 | Names printed with commas and any blanks around them are read back, the first eight of them, for lists under 512 characters |
| Config.ModelsAreFirstFields | src/config.c:205-229 | For a list that fits 512 bytes nothing is cut off: these are fields of the setting itself, each 1 to 127 characters |
| Markdown.StripResult | src/ocr/gemini.c:31-55 | Every result is a contiguous piece of the input with no triple backtick and no surrounding blanks |
| Markdown.StripIdempotent | src/ocr/gemini.c:31-55 | Stripping twice is stripping once, for every input |
| Markdown.BareBody | src/ocr/gemini.c:31-55 | A trimmed body without fences comes back as it is |
| Markdown.UnwrapIff | src/ocr/gemini.c:31-55 | A trimmed body without fences, wrapped in a plain or json fence with any blanks around it and any text after, comes back exactly when its last backtick cannot run into the closing fence and its first letters cannot be taken for the tag |
| Markdown.UnclosedIff | src/ocr/gemini.c:33-41 | An opening fence that is never closed comes off too, exactly when the body's first letters cannot be taken for the tag |
| Markdown.BeforeFenceIff | src/ocr/gemini.c:42-44 | Text before a first fence that does not open the reply comes back, exactly when its last backtick cannot run into that fence |
| Markdown.PlainBody | src/ocr/gemini.c:46-53 | A reply without a fence comes back without the blanks around it |
| Markdown.FirstFence | src/ocr/gemini.c:42-44 | The first fence found after such a body is its closing one, unless a trailing backtick touches it |
| Markdown.StripMarkdownJson | src/ocr/gemini.c:31-55 | The in-place version, writing its terminators, leaves exactly that result between its two positions |
| Markdown.TrimEnd | src/ocr/gemini.c:49-53 | The right trim drops all trailing blanks and ends in a terminator |
| HttpRetry.HttpClient.ExponentialBackoff | src/infra/http_client.c:66-73 | Asks for one sleep of base times 2^attempt milliseconds, capped at 10 s, in whole microseconds |
| HttpRetry.HttpClient.Execute | src/infra/http_client.c:266-354 | Makes at most retries + 1 attempts, goes on only after status 429 or 500 and above, ends on one only when retries are used up, returns 0 exactly for a transfer with status 200 to 299, and sleeps once before each further attempt |
| HttpRetry.SleepBefore | src/infra/http_client.c:66-73 | The sleep before attempt k is the doubled wait in whole microseconds, or 10 seconds once the wait exceeds them |
| HttpRetry.DoubledSteps | src/infra/http_client.c:67 | The wait starts from the base and doubles with every attempt |
| HttpRetry.AttemptsAreDetermined | src/infra/http_client.c:58-64 | That description fixes the number of attempts |
| HttpRetry.SucceedsIff | src/infra/http_client.c:266-354 | The call succeeds exactly when some attempt within reach succeeds with only retryable statuses before it |
| HttpRetry.SleptIsTotalWait | src/infra/http_client.c:66-73 | The requested sleeps add up to the sum of the capped delays, less at most one microsecond each |
| HttpRetry.TotalWaitClosed | src/infra/http_client.c:66-69 | That sum in closed form: doubling until the cap, 10 s a retry from then on |

## Left out

Behaviour outside the model:

- libcurl, SQLite, cJSON and the file system appear only as outcomes or as abstract tables and a map from names to bytes; a save that reports success is taken to have stored the bytes, although `fclose` is not checked (src/storage/storage_local.c:244).
- `src/db/db_postgres.c` and `src/storage/storage_supabase.c`: thin wrappers over the same tables and store.
- The rate-limit fallback of `src/ocr/gemini.c:269-286`: `http_client_execute` returns -1 for every status outside 2xx (src/infra/http_client.c:354), so the branch after the early return is not reached. The comment at src/infra/http_client.h:106-107 says 0 for HTTP errors; the model follows the code.
- Receipts of the memory repository: it appends without looking for an earlier receipt and never cascades (src/infra/file_repository_memory.c:103-132), so it does not agree with the database there.
- Columns that play no part in the properties: original name, size and timestamps of a stored row.
- Replies, keyboards, help text, logging and totals: formatting with little to prove.
- `src/infra/event_bus.c`, HTTP headers, null-argument guards, MIME lookup and the tables of function pointers: they would add only easy members.
- `src/infra/document_store.c`, which is not wired into the program, and directory creation.
- The fallback to the configured default model when the list has none (src/config.c:230-234).
- The server side of long polling is an assumption: increasing ids, everything below a received offset forgotten, a prefix of the rest returned in order.

Members whose contract needs a premise or stops at a bound:

- PipelineStore.RunGood: needs uploads in distinct seconds and deletes that reach and execute their database step. What one call does to live bytes otherwise is PipelineGuarantees.UploadKeepsBytesIff and PipelineGuarantees.DeleteKeepsBytesIff; to other records' bytes, texts, rows and receipts, PipelineCollisions.OthersUntouchedIff; over whole runs, PipelineGuarantees.RunKeepsBytesIff needs neither premise.
- PipelineGuarantees.RetryReadsLastText: the history of saves it speaks of is kept for runs with distinct seconds and completed deletes; without them, PipelineGuarantees.SavedTextIsRead and PipelineGuarantees.UploadedTextIsRead say what is read right after a save.
- EndToEnd.ConfirmedIsStoredOnceIff: downloading the file of one update gives the same bytes whenever it succeeds; why a handler ends before the pipeline (failed lookup or download, empty file, no authorisation) is one outcome, `Skipped`.
- PromptFetcher.CallbacksReproduceSnapshot: the first and the latest snapshot have distinct names, as the UNIQUE column demands (src/db/db_sqlite.c:87); a poll sees the first 64 rows.
- EndToEnd.ConfirmedBytesAreStoredIff: speaks of runs without a damaging call; PipelineGuarantees.CallKeepsBytesIff says which calls damage.
- Naming.StampInjective: years are 0 to 9999 and times are local times as broken down by the C library; a clock set back can repeat a second.
- Delivery.TgBot.Start: update ids are exact naturals; the original reads them as `double` and converts to `long`.
- GrowBuf.Buffer.Write: contents up to 2^63 bytes, beyond which the doubling would wrap.
- MemoryRepository.RunRefines: ids are unbounded; the wrap of a 64-bit counter is not modelled.
- HttpRetry.HttpClient.Execute: at most 30 retries and a base delay that is not negative, because the shift and the cast are undefined in C beyond that; delays are reals, so floating-point rounding is not modelled.
- Processor.ReceiptProcessor.DoDeleteFile: a row always has a saved name, so the test for an empty one is not modelled.
