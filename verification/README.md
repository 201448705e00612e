# Bitcask, proved

A Dafny model of a Bitcask-style key/value store and its network front end, with proofs about
every run of it. The store appends `Set` and `Rm` records to an active log file, keeps an
in-memory keydir from each key to `(file_id, offset, len, ts)`, copies live records into new
files in a background merge while writes go on, and rebuilds everything by replay when it is
opened. Clients reach it through a small binary protocol or a subset of RESP2.

The project has three layers.

* **Bytes.** `Crc32` is CRC-32/IEEE over `bv32` with the reflected polynomial, seen as a shift
  register (`ShiftRegister`), so error detection is proved. `Framing`, `Commands` and `Hints`
  are the two record codecs with their moving cursors and backfilled checksums;
  `RecordReader` cuts a file into records, a clean end or a torn tail.
* **The engine.** `Engine` is a step machine: every write, keydir update, sync, rotation step,
  merge step, file deletion, process crash and power loss is one step, in any interleaving.
  `Logs` says what a log of records means. `Invariants` states what every reachable state
  keeps; `WriterSteps`, `RotateSteps`, `MergeSteps`, `DeleteSteps`, `CleanSteps` and
  `ReopenSteps` prove it step by step, and `DiskSteps` what syncs and hint writes leave on the
  disk; `Theorems` and `PowerLoss` draw the conclusions for all runs. `Recovery`, `Opening` and
  `Crashes` carry them down to the bytes a crash leaves, and `OpenExactly` says for any
  directory whatever when `open` succeeds. `Index` is the sixteen-way keydir. `Loader`, `Bitcask`, `Compaction` and `Restart` are the code's own loops
  and in-place updates; each method moves a ghost machine state by the machine's steps, so the
  theorems hold of the object.
* **The wire.** `Text` is UTF-8, proved against Unicode scalar values. `Protocol` is the binary protocol. `RespFrames` sets the iterative framer
  against the recursive grammar, `RespParser` the recursive parser against both, `RespReplies`
  and `RespRequests` are printers and commands, and `Server` runs whole sessions on the store.

Concurrency is in the step machine: a step is what happens between two points at which
another thread can look. The object methods run one at a time and refine runs of the machine.

## What turned out different from what one would expect

* A genuine hint file that was truncated on a record boundary is accepted, and the keys behind
  the cut are missing from the keydir. `HintTruncationExact` shows that these are exactly the
  harmful truncations.
* `readers` never loses an id. Once one merge has deleted a file, no later merge of the same
  process deletes anything: its first `remove_file` fails, before the stale bytes are
  subtracted. `DeletesExactlyWhenClean` gives the exact condition for one merge,
  `LaterMergesDeleteNothing` the consequence for whole runs, and `MergeTwice` is an instance:
  one put, a merge that succeeds and a merge that fails. Nothing is lost by it but space.
* `flushed_offset` is 0 after every open, so read as a promise about what is durable it
  understates (`FlushedOffsetUnderstates`). It is exact if and only if the active file was
  synced or created since the last open, or nothing of it is durable
  (`FlushedOffsetIsDurable`).
* `write_frame` writes payloads above `MAX_PAYLOAD` that `read_frame` refuses (`FrameReads`).
* A RESP bulk reply parses back exactly if its length has at most ten digits (`BulkParses`).
* The doc comment of the record codec reserves the early end for incomplete records. A complete
  record with a matching checksum whose fields run past the buffer is reported as one too
  (`CompleteButEarlyEnd`); `EarlyEndMeansIncomplete` shows that this is the only exception. The
  model follows the code.
* Commands whose lengths do not fit their `u32` fields are written truncated, without an error;
  `RoundTripExactly` shows that exactly the others are read back.

## Model

| member | source | states |
|---|---|---|
| `Bytes.FromLeToLe` | src/storage/bytes_util.rs:22-57 | a little-endian field reads back as the number written, whenever it fits |
| `Bytes.ToLeFromLe` | src/storage/bytes_util.rs:22-57 | a number that was read writes back as the same bytes |
| `Bytes.ToLeDigits` | src/storage/bytes_util.rs:22-57 | byte i of a field is digit i of the number in base 256, lowest first |
| `Bytes.Cursor.ReadU8` | src/storage/bytes_util.rs:7-19 | one byte and the cursor behind it; at the end an error that leaves the cursor alone |
| `Bytes.Cursor.ReadLe` | src/storage/bytes_util.rs:22-57 | the field's number and the cursor behind it; overflow and early end leave the cursor alone |
| `Bytes.Cursor.ReadBytes` | src/storage/bytes_util.rs:60-76 | exactly the bytes at the cursor, or an error with the cursor unmoved |
| `ShiftRegister.BurstChangesRegister` | src/storage/command.rs:12 | for any lawful shift register, different windows no wider than the register end in different registers, whatever comes before and after |
| `Crc32.RegisterIsLawful` | src/storage/command.rs:12 | the concrete 32-bit register with the reflected polynomial is lawful: linear, injective, wide enough |
| `Crc32.CheckValue` | src/storage/command.rs:98-99 | checksum and hash of the digits 1 to 9 are the published check value of CRC-32/IEEE |
| `Crc32.HashIsChecksum` | src/storage/command.rs:98-99 | the number the codecs store is the register itself, so its bytes are in little-endian order |
| `Crc32.ComputeHash` | src/storage/command.rs:98 | the byte-by-byte loop computes the specified checksum |
| `Crc32.BurstDetected` | src/storage/command.rs:98-120 | any change confined to four consecutive bytes changes the CRC-32 of any message |
| `Framing.FrameChecks` | src/storage/command.rs:103-120 | a framed body passes the length and checksum tests whatever follows it |
| `Framing.CheckedIsFrame` | src/storage/command.rs:103-120 | whatever passes those tests is a framed body, byte for byte |
| `Framing.TruncatedFrame` | src/storage/command.rs:109-114 | every strict prefix of a record is an early end, never corruption |
| `Framing.DamagedFrame` | src/storage/command.rs:103-120 | damage in four consecutive bytes gets past the frame tests only by shortening body_len |
| `Framing.Backfill` | src/storage/command.rs:95-100 | the checksum of everything behind it replaces the placeholder and nothing else changes |
| `Commands.WriteBody` | src/storage/command.rs:155-172 | the fields are appended in order behind what the buffer held |
| `Commands.Serialize` | src/storage/command.rs:92-101 | the buffer filled and backfilled in place is the encoding that the decoder inverts |
| `Commands.RecordLayout` | src/storage/command.rs:1-12 | the documented record, byte for byte: checksum of the rest, body length, timestamp, type 0 or 1, key length, key, value length, value |
| `Commands.Deserialize` | src/storage/command.rs:103-144 | the moving cursor decodes exactly what the specification says, with the same errors |
| `Commands.DecodeEncode` | src/storage/command.rs:92-144 | decoding an encoded command followed by anything gives the command and its exact length |
| `Commands.DecodeCanonical` | src/storage/command.rs:103-144 | an accepted buffer starts with exactly the encoding of the result |
| `Commands.RoundTripExactly` | src/storage/command.rs:92-144 | a command is read back if and only if its timestamp and body length fit their fields |
| `Commands.DecodeErrors` | src/storage/command.rs:103-144 | each error, by the header, the checksum and the length fields alone, in both directions |
| `Commands.EarlyEndMeansIncomplete` | src/storage/command.rs:13-15 | an early end means an incomplete record exactly unless the fields of a sound frame run past the buffer |
| `Commands.CompleteButEarlyEnd` | src/storage/command.rs:122-137 | an instance of that exception |
| `Commands.DecodeTruncated` | src/storage/command.rs:103-114 | a command cut anywhere is an early end |
| `Commands.DecodeDamaged` | src/storage/command.rs:103-144 | any change of up to four consecutive bytes, so any one byte, makes decoding fail |
| `Commands.ValueIsSuffix` | src/storage/bitcask.rs:758-766 | cutting all but the last value_len bytes off a record leaves its value |
| `Hints.Serialize` | src/storage/index_value.rs:30-46 | the hint record written is the encoding that the decoder inverts |
| `Hints.HintLayout` | src/storage/index_value.rs:1-9 | the documented hint record, byte for byte, without the file id |
| `Hints.Deserialize` | src/storage/index_value.rs:48-91 | the moving cursor decodes exactly what the specification says, with the same errors |
| `Hints.DecodeEncode` | src/storage/index_value.rs:30-91 | decoding an encoded hint followed by anything gives key, entry and exact length |
| `Hints.DecodeCanonical` | src/storage/index_value.rs:48-91 | an accepted hint record is exactly the encoding of the result |
| `Hints.DecodeTruncated` | src/storage/index_value.rs:48-59 | a hint record cut anywhere is an early end |
| `Hints.DecodeDamaged` | src/storage/index_value.rs:30-91 | any change of up to four consecutive bytes makes decoding fail, also across body_len and key_len |
| `RecordReader.Reader.NextRecord` | src/storage/record_reader.rs:31-73 | record, clean end or torn tail as specified; position moves by a whole record or not at all; no underflow |
| `RecordReader.ReadOneExactly` | src/storage/record_reader.rs:31-73 | a clean end exactly at the announced length, a record exactly if all of it is there, also in a file that shrank |
| `RecordReader.ScanTruncated` | src/storage/record_reader.rs:31-73 | a file of whole records cut at any byte yields exactly the contained records at their true offsets, then a clean end on a boundary, else a torn tail at the last one |
| `RecordReader.ScanWhole` | src/storage/record_reader.rs:31-73 | an uncut file is read back record by record to a clean end |
| `RecordReader.CutAt` | src/storage/record_reader.rs:31-73 | every length falls on a boundary or inside exactly one record |
| `Index.FnvCheckValue` | src/storage/index.rs:22-30 | the hash of "a" is the published 64-bit FNV-1a value |
| `Index.BucketCheckValues` | src/storage/index.rs:31 | the buckets of the empty key and of "a", folded from the published hashes |
| `Index.GetBucket` | src/storage/index.rs:21-32 | the FNV-1a loop with wrapping multiplication computes the key's bucket, which is below 16 |
| `Index.UpdatesShard` | src/storage/bitcask.rs:310-322 | after any sequence of inserts, removes and merge publishes the sixteen buckets stand for the one unsharded map |
| `Index.ShardsUnique` | src/storage/index.rs:9-19 | buckets determine the map they stand for |
| `Index.Index.Find` | src/storage/index.rs:45-54 | a lookup in the key's bucket agrees with the unsharded map |
| `Index.Index.Insert` | src/storage/index.rs:34-43 | an insert under one bucket lock is an insert into the unsharded map |
| `Index.Index.Remove` | src/storage/bitcask.rs:514-519 | a remove under one bucket lock removes from the unsharded map and hands back the old entry |
| `Logs.ReplayDirMeans` | src/storage/bitcask.rs:386-416 | replay finds for every key the place of its last value and nothing for deleted keys, for all logs |
| `Theorems.FreshKeeps` | src/storage/bitcask.rs:635-658 | the store opened on an empty directory satisfies the invariant |
| `WriterSteps.AppendWriteKeeps` | src/storage/bitcask.rs:486 | writing a record keeps the invariant while the keydir still lags behind the log |
| `WriterSteps.AppendIndexKeeps` | src/storage/bitcask.rs:488-522 | updating keydir, stale count and offset keeps the invariant, in every phase of a merge |
| `WriterSteps.PolicySyncKeeps` | src/storage/bitcask.rs:443-462 | a sync after an append makes everything logged durable and keeps the invariant |
| `RotateSteps.RotateIfFullKeeps` | src/storage/bitcask.rs:93-127 | creating the next file keeps the invariant before the writer and the handles know it |
| `RotateSteps.RotateInstallKeeps` | src/storage/bitcask.rs:107-118 | switching over to it does too |
| `RotateSteps.MergeStartKeeps` | src/storage/bitcask.rs:131-165 | the snapshot and the rotation past the reserved ids establish all merge invariants |
| `MergeSteps.OpenOutputKeeps` | src/storage/bitcask.rs:194-203 | the next output id is fresh and below the active file |
| `MergeSteps.ScanRecordKeeps` | src/storage/bitcask.rs:212-252 | a copied record has the snapshot's value, and every passed entry that still points into a source is queued |
| `MergeSteps.FinishSourceKeeps` | src/storage/bitcask.rs:253-281 | the end of a source keeps the invariant whether or not the output is finished |
| `MergeSteps.InsertCopies` | src/storage/bitcask.rs:299-303 | a file of copies slipped in below the newer files changes no key's value, neither at the snapshot nor in the whole log |
| `MergeSteps.RenameOutputKeeps` | src/storage/bitcask.rs:300-303 | an output getting its final name keeps the replayed map |
| `MergeSteps.InsertReaderKeeps` | src/storage/bitcask.rs:305-308 | adding the handle keeps the invariant |
| `MergeSteps.PublishOneKeeps` | src/storage/bitcask.rs:310-322 | a published entry names a copy with the key's current value; overwritten keys are left alone |
| `MergeSteps.PublishDoneKeeps` | src/storage/bitcask.rs:310-324 | when the list is drained no entry points into a scanned source |
| `DeleteSteps.DeleteDataKeeps` | src/storage/bitcask.rs:283-286 | removing a source, or failing to, keeps the invariant |
| `DeleteSteps.DeleteHintKeeps` | src/storage/bitcask.rs:287-292 | removing its hint keeps the invariant |
| `DeleteSteps.MergeEndKeeps` | src/storage/bitcask.rs:294 | the wrapping subtraction of the stale bytes never underflows, and the invariant is kept |
| `ReopenSteps.ReopenKeeps` | src/storage/bitcask.rs:587-701 | open after any crash establishes the invariant again |
| `Theorems.StepKeeps` | src/storage/bitcask.rs:73-527 | every step of writer, merge, crash and open keeps the invariant |
| `Theorems.RunKeeps` | src/storage/bitcask.rs:73-527 | every state of every run satisfies it |
| `Theorems.CrashRecovers` | src/storage/bitcask.rs:334-431 | a process crash at any step of any run reopens to exactly the store, the written record counted in |
| `Theorems.EntryReads` | src/storage/bitcask.rs:737-766 | in every state each keydir entry names an open handle and a set of that key with the store's value |
| `Theorems.ReadsStable` | src/storage/bitcask.rs:113-117 | what a handle reads at a place stays the same for the rest of the process |
| `Theorems.GetIsLinearizable` | src/storage/bitcask.rs:734-767 | a get delivers the value of the moment of its keydir lookup, however many steps pass before the read, in its first pass |
| `Theorems.AnswersChangeOnlyByAppends` | src/storage/bitcask.rs:488-522 | what gets answer, read through the keydir, changes at one step of an append and by exactly its command; rotations and every merge step are invisible |
| `Theorems.ReadsNeverGoBack` | src/storage/bitcask.rs:734-767 | a later get answers exactly what the appends in between made of an earlier get's answer, however late it reads the file |
| `Theorems.OutputsBelowActive` | src/storage/bitcask.rs:155-203 | output ids lie strictly between old and new active file and number at most total/threshold + 1 |
| `Theorems.NoEntryIntoSources` | src/storage/bitcask.rs:283-292 | from the first deletion on no keydir entry points into a source |
| `Theorems.DeletionResurrectsNothing` | src/storage/bitcask.rs:143-292 | deleting the next source never changes the replayed map, dropped tombstones and concurrent writes included |
| `Theorems.DeletesExactlyWhenClean` | src/storage/bitcask.rs:283-286 | a source is deleted if and only if every source was linked when the merge began |
| `Theorems.UnlinkedStays` | src/storage/bitcask.rs:305-308 | a deleted file's handle stays in readers until the process ends |
| `Theorems.LaterMergesDeleteNothing` | src/storage/bitcask.rs:142-292 | after a deletion, until the next open, no merge that starts later removes any data file |
| `Theorems.ActiveFileIsLast` | src/storage/bitcask.rs:597-658 | over all runs the active file has the largest id and no hint, and its length is the writer's offset, less a record written but not yet indexed |
| `DiskSteps.StepKeepsDisk` | src/storage/bitcask.rs:299-303 | every step keeps sealed files wholly synced and linked hints equal to the records of their files |
| `PowerLoss.PowerLossIsReopen` | src/storage/bitcask.rs:93-119 | a power loss that may cut every linked file back to its synced part, outputs included, shortens at most the last one |
| `PowerLoss.PowerLossKeepsUnlost` | src/storage/bitcask.rs:417-425 | after a power loss every key that no lost record mentions keeps its logged value |
| `PowerLoss.AcknowledgedSurvives` | src/storage/bitcask.rs:443-469 | with SyncOnEveryPut every key but those of unreturned appends keeps its acknowledged value, at any step, whatever unsynced part of any file is cut |
| `PowerLoss.SyncedStoreSurvives` | src/storage/bitcask.rs:443-462 | a store whose active file is wholly synced loses nothing to a power loss, under any policy |
| `PowerLoss.PowerLossKeepsPrefix` | src/storage/bitcask.rs:443-469 | under any policy, with nothing deleted since the last sync, a prefix of the later writes survives on top of everything synced; between creating and installing a file everything does |
| `PowerLoss.FlushedOffsetIsDurable` | src/storage/bitcask.rs:74-78 | the lengths a power loss can leave are exactly those at or above flushed_offset, if and only if the file was synced or created since the last open or nothing of it is durable |
| `PowerLoss.FlushedOffsetUnderstates` | src/storage/bitcask.rs:645-655 | right after an open flushed_offset is 0 although records are durable and acknowledged |
| `Recovery.DataLoads` | src/storage/bitcask.rs:378-427 | replaying a data file cut anywhere behind its records gives the keydir, offset, stale count and cut position of those records |
| `Recovery.HintsLoad` | src/storage/bitcask.rs:343-361 | replaying a merge's hint file is replaying its records |
| `Recovery.ReplayAgain` | src/storage/bitcask.rs:368-376 | reading the data file on top of part of its hint leaves no trace of the hint |
| `Recovery.HintTruncationExact` | src/storage/bitcask.rs:337-376 | a genuine hint cut at any length gives the data file's keydir if and only if the cut is not on an interior record boundary |
| `Opening.EntryReadsValue` | src/storage/bitcask.rs:758-766 | the bytes an entry names decode to its value while more is being appended |
| `Opening.DirLoads` | src/storage/bitcask.rs:334-431 | loading sealed files in order, by hint or data, gives the keydir and stale count of their log |
| `Crashes.OpenRecovers` | src/storage/bitcask.rs:587-701 | open succeeds on every directory a crash of a reachable state can leave and arrives at exactly the reopened state, leftovers and torn tail gone |
| `Crashes.CrashImageIsGenuine` | src/storage/bitcask.rs:299-303 | files below the last one are whole and linked hints genuine in every directory a crash can leave: proved of the syncs and hint writes, not assumed |
| `Crashes.HintsChangeNothing` | src/storage/bitcask.rs:334-431 | opening with the hints the engine wrote, whole or cut inside a record, and without them gives the same keydir, active file, offset and stale count |
| `Crashes.CutIsImage` | src/storage/bitcask.rs:417-425 | any byte length of the last file is some whole records and part of one |
| `Crashes.CrashThenGet` | src/storage/bitcask.rs:334-431 | after a process crash at any step, the append torn at any byte, open and get answer for every key what was logged |
| `Crashes.PowerLossThenGet` | src/storage/bitcask.rs:443-469 | with SyncOnEveryPut, after any power loss at any step: open and get answer the acknowledged value of every key but unreturned appends' |
| `Crashes.SyncedPutsSurvive` | src/storage/bitcask.rs:443-469 | the same for any length of the writer's file at or above flushed_offset, wherever that is exact |
| `Crashes.PowerLossThenPrefix` | src/storage/bitcask.rs:443-469 | under any policy, after any power loss: open and get answer a prefix of the unsynced writes on top of the synced store |
| `Crashes.SyncedPrefixSurvives` | src/storage/bitcask.rs:443-469 | the same for any length of the writer's file at or above flushed_offset, wherever that is exact |
| `OpenExactly.LoadDataExactly` | src/storage/bitcask.rs:386-427 | a data file loads if and only if it is whole decodable records, in the active file followed by a rest; a rest elsewhere is corruption |
| `OpenExactly.LoadHintsExactly` | src/storage/bitcask.rs:343-376 | a hint is used if and only if it is whole decodable hint records to its end, and then all of them |
| `Opening.TombstonesAreStale` | src/storage/bitcask.rs:390-413 | the stale count open arrives at is the bytes of the tombstones, for every log |
| `OpenExactly.OpensExactly` | src/storage/bitcask.rs:334-431 | for any directory: open succeeds if and only if every file is sound by hint or data; exactly the hints that did not do are removed |
| `OpenExactly.DataOnlyOpensExactly` | src/storage/bitcask.rs:378-427 | without hints: if and only if every file below the active one is whole records and that one is records and a rest |
| `OpenExactly.TornSealedFails` | src/storage/bitcask.rs:417-424 | a sealed file cut inside a record, without a good hint, is corruption and open fails |
| `OpenExactly.BadRecordFails` | src/storage/bitcask.rs:388-389 | a whole record that does not decode makes open fail, wherever it is |
| `OpenExactly.EmptyOpens` | src/storage/bitcask.rs:635-658 | an empty directory opens to an empty store on file 1, whatever leftovers there are |
| `Loader.Loader.CleanUp` | src/storage/bitcask.rs:597-633 | in any listing order leftovers and orphan hints are removed and the largest id is found |
| `Loader.Loader.ReplayHint` | src/storage/bitcask.rs:338-366 | the hint loop leaves the specified keydir and verdict |
| `Loader.Loader.ReplayRecords` | src/storage/bitcask.rs:384-416 | the data loop leaves the specified keydir, offset and stale count, or stops at the first bad record |
| `Loader.Loader.ReplayData` | src/storage/bitcask.rs:378-427 | a torn tail is cut off the active file and is corruption anywhere else |
| `Loader.Loader.Replay` | src/storage/bitcask.rs:334-431 | the loop over files, with fallback and early return, computes the specified load |
| `Loader.Loader.Open` | src/storage/bitcask.rs:587-670 | the whole of open computes the specified result or error |
| `Bitcask.Bitcask.RotateTo` | src/storage/bitcask.rs:93-119 | sync, new file, switch-over and handle leave the machine's rotated state, the old file covered by the sync |
| `Bitcask.Bitcask.RotateIfFull` | src/storage/bitcask.rs:121-127 | rotation exactly at the threshold; the append is acknowledged; store and keydir unchanged |
| `Bitcask.Bitcask.HandlePolicy` | src/storage/bitcask.rs:443-462 | syncs exactly under SyncOnEveryPut or when a flush is due under the interval policy: then all that is stored is durable, otherwise nothing more is |
| `Bitcask.Bitcask.UpdateIndex` | src/storage/bitcask.rs:488-522 | keydir, stale count and offset become those of the machine's step |
| `Bitcask.Bitcask.Append` | src/storage/bitcask.rs:481-526 | the store changes by exactly the command; files, keydir, offset, rotation and durability as the machine has them; the stale count grows by the length of the record the key had; the object stays a reachable machine state, in any merge phase |
| `Bitcask.Bitcask.Set` | src/storage/bitcask.rs:703-713 | the key gets the value, nothing else changes |
| `Bitcask.Bitcask.Remove` | src/storage/bitcask.rs:715-732 | succeeds if and only if the key is there and then removes it alone; otherwise KeyNotFound and nothing is written |
| `Bitcask.Bitcask.Get` | src/storage/bitcask.rs:734-768 | answers exactly the store's value, read through the keydir from the file's bytes, or an error if it is not text; the retry loop ends in its first pass |
| `Bitcask.Bitcask.Close` | src/storage/bitcask.rs:39-50 | everything written is synced and nothing else changes |
| `Bitcask.ReadAt` | src/storage/bitcask.rs:758-766 | the read, decode and suffix cut behind an entry |
| `Compaction.MergeOutput.Append` | src/storage/bitcask.rs:560-571 | data, hint and length grow by one record, and the entry says where it is |
| `Compaction.Start` | src/storage/bitcask.rs:131-165 | idle exactly below the threshold or without sources; otherwise the merge state is the machine's |
| `Compaction.SourcesExactly` | src/storage/bitcask.rs:142-149 | the sources are exactly the handles but the active one, ascending |
| `Compaction.ScanSource` | src/storage/bitcask.rs:205-263 | the record loop runs the machine's scan steps to the source's clean end |
| `Compaction.MergeSources` | src/storage/bitcask.rs:191-281 | the loop over sources ends with every output finished, the store unchanged and only new ids added |
| `Compaction.FinishOutput` | src/storage/bitcask.rs:299-324 | sync, rename, handle and publish leave the pending list empty, the output synced and its complete hint beside it |
| `Compaction.DeleteSources` | src/storage/bitcask.rs:283-292 | exactly the sources are removed, or the first removal fails and nothing is |
| `Compaction.RunCompaction` | src/storage/bitcask.rs:129-297 | the store is kept; success if and only if all sources are linked, and then they and their hints are gone from the directory but not from readers, stale is zero and no key is read from a source; every output has its complete hint and is no larger than the sources |
| `Compaction.MergeTwice` | src/storage/bitcask.rs:129-297 | one put, a merge that succeeds, and a second merge of the same process that fails on the deleted source |
| `Restart.OpenStore` | src/storage/bitcask.rs:587-701 | any directory a crash can leave opens to an object that shows exactly the reopened state |
| `Restart.TornAppendIsImage` | src/storage/bitcask.rs:481-526 | an object dying inside an append leaves such a directory, and it reopens to the contents before the append |
| `Restart.Reopened` | src/storage/bitcask.rs:587-701 | closing and opening again gives a store with the same contents |
| `Text.Utf8Exactly` | src/network/protocol.rs:146-148 | text is exactly what encodes a sequence of Unicode scalar values |
| `Protocol.ReadFrame` | src/network/protocol.rs:38-58 | the reader consumes exactly the specified frame, with the specified errors |
| `Protocol.WriteFrame` | src/network/protocol.rs:60-68 | a whole frame is appended, or nothing if the length does not fit its field |
| `Protocol.NextFrameExactly` | src/network/protocol.rs:38-58 | which bytes are which frame or error, the announced length deciding before the payload is there |
| `Protocol.FrameReads` | src/network/protocol.rs:38-68 | a written frame reads back whatever follows it if and only if its payload is within the limit |
| `Protocol.CutConnection` | src/network/protocol.rs:38-58 | a connection cut anywhere delivers exactly the whole messages and ends cleanly if and only if the cut is between frames |
| `Protocol.ConnectionRoundTrip` | src/network/protocol.rs:38-68 | every list of messages arrives as sent, then a clean end |
| `Protocol.WriteRequest` | src/network/protocol.rs:70-82 | one frame per request is appended |
| `Protocol.RequestLayout` | src/network/protocol.rs:1-5 | the documented request frames, byte for byte |
| `Protocol.RequestErrors` | src/network/protocol.rs:84-110 | an unknown type is told apart from a malformed payload |
| `Protocol.RequestRoundTrip` | src/network/protocol.rs:70-110 | a request decodes to itself |
| `Protocol.RequestCanonical` | src/network/protocol.rs:84-110 | only the one encoding of a request decodes to it |
| `Protocol.WriteResponse` | src/network/protocol.rs:112-118 | one frame per response is appended |
| `Protocol.ResponseLayout` | src/network/protocol.rs:6-8 | the documented response frames, byte for byte |
| `Protocol.ResponseExactly` | src/network/protocol.rs:120-132 | exactly which frames decode to which response, and to which error |
| `Protocol.CodesFor` | src/network/error.rs:22-31 | which errors of the store become which code |
| `Protocol.ResponseRoundTrip` | src/network/protocol.rs:112-132 | a response decodes to itself if and only if its value is text |
| `Protocol.RequestsArrive` | src/network/protocol.rs:38-110 | every list of requests is received and decoded as sent |
| `Protocol.ResponsesArrive` | src/network/protocol.rs:38-132 | every list of responses is received and decoded as sent |
| `RespFrames.ParseLen` | src/network/resp.rs:119-131 | the digit loop computes the number; null and malformed lengths are told apart |
| `RespFrames.ReadElement` | src/network/resp.rs:75-113 | one line and its bulk data are taken off the stream exactly |
| `RespFrames.ReadFrame` | src/network/resp.rs:68-116 | the loop with its pending counter takes exactly the specified frame off the stream, or None at a clean end |
| `RespFrames.FramerRefinesGrammar` | src/network/resp.rs:68-116 | the single counter accepts a row of values if and only if the recursive grammar does and no more values are ever waiting than the array limit |
| `RespFrames.FrameIsOneValue` | src/network/resp.rs:68-116 | every frame is one value and nothing else |
| `RespParser.ParseArray` | src/network/resp.rs:163-174 | the item loop with its local offset and list parses the specified items |
| `RespParser.ParseOne` | src/network/resp.rs:141-178 | the recursive parser parses the specified value |
| `RespParser.SameLine` | src/network/resp.rs:180-190 | framer and parser cut the same line out of the same bytes |
| `RespParser.ParserAgrees` | src/network/resp.rs:141-178 | on all the grammar accepts the parser takes the same bytes and succeeds if and only if nesting and integers are in range |
| `RespParser.FramesParse` | src/network/resp.rs:68-190 | on every frame the parser consumes all bytes and fails only by nesting or an integer |
| `RespParser.TrailingRefused` | src/network/resp.rs:133-139 | anything behind the value is refused |
| `RespReplies.LenOfDigits` | src/network/resp.rs:119-131 | a printed length parses back if and only if it has at most ten digits |
| `RespReplies.IntegerForms` | src/network/resp.rs:192-198 | integers read as printed, with an optional sign, in the range of an i64 |
| `RespReplies.NotAnInteger` | src/network/resp.rs:192-198 | nothing but an optional sign and digits is one |
| `RespReplies.BulkParses` | src/network/resp.rs:272-276 | a printed bulk string is one value with exactly its bytes, for arbitrary bytes |
| `RespReplies.ErrorParses` | src/network/resp.rs:301-305 | any error text prints as one error line with line ends turned into spaces |
| `RespReplies.ConfigParses` | src/network/resp.rs:290-299 | the CONFIG GET reply is one array of name and empty-value pairs, for arbitrary names |
| `RespReplies.ReplyParses` | src/network/resp.rs:259-288 | every entry of the reply table is one value with the intended meaning, whatever follows |
| `RespReplies.LinesParse` | src/network/resp.rs:141-177 | what a line of each kind parses to, nulls, the empty array and unknown kinds included |
| `RespReplies.ReplyTable` | src/network/resp.rs:259-288 | the reply to every request and response as literal bytes |
| `RespReplies.ErrorLineIs` | src/network/resp.rs:301-305 | the error line for any text, byte for byte |
| `RespReplies.WriteReply` | src/network/resp.rs:266-288 | the writer appends exactly that reply |
| `RespReplies.WriteConfigGet` | src/network/resp.rs:291-299 | the loop appends exactly the CONFIG GET reply |
| `RespReplies.WriteError` | src/network/resp.rs:301-305 | the writer appends exactly the error line |
| `RespRequests.CommandRoundTrip` | src/network/resp.rs:200-257 | a request sent as an array of bulk strings is framed and decoded to itself, whatever follows |
| `RespRequests.CommandsExactly` | src/network/resp.rs:213-256 | what any array of bulk strings decodes to, by its first word in any mixture of cases, its argument count and its arguments, errors included |
| `RespRequests.NotACommand` | src/network/resp.rs:200-212 | anything but a non-empty array of bulk strings is refused, each with its error |
| `RespRequests.LinesFramed` | src/network/resp.rs:89-111 | simple strings, errors, integers and nulls are whole frames |
| `RespRequests.OversizedRefused` | src/network/resp.rs:92-111 | lengths beyond the limits are refused by the line alone |
| `RespRequests.CommandLimited` | src/network/resp.rs:92-111 | every decoded command is within the payload and array limits |
| `Server.Execute` | src/network/protocol.rs:134-144 | a set stores its value, an rm removes its key, a get changes nothing, no other key changes, and each answers accordingly |
| `Server.HandleResp` | src/bin/kvs-server.rs:82-104 | the session loop on the store writes exactly the replies of a session on a plain map |
| `Server.SessionParses` | src/bin/kvs-server.rs:82-104 | for any pipelined input the output is one self-delimiting reply per frame, in order, each parsing back to what was meant |
| `Server.LastGetAnswers` | src/bin/kvs-server.rs:82-104 | after any pipelined requests a GET is answered with the last SET of its key, the null bulk after a DEL, else what the store held |
| `Server.SetThenGet` | src/bin/kvs-server.rs:82-104 | SET k v, anything that does not write k, GET k: the bytes of v |
| `Server.DelThenGet` | src/bin/kvs-server.rs:82-104 | DEL k, anything that does not write k, GET k: the null bulk |
| `Server.ConfigAnswers` | src/bin/kvs-server.rs:94 | CONFIG GET in any case answers exactly its names and leaves the store alone |
| `Server.UnknownRefused` | src/bin/kvs-server.rs:95 | an unknown command gets an error line, and the session goes on |
| `Server.BrokenFrameEnds` | src/bin/kvs-server.rs:87 | a malformed frame ends the session after everything before it was answered |

## Left out

- Failed I/O other than a crash, a missing file at `remove_file` and early ends of streams: the code does not restore its state after such failures.
- Bitcask.Bitcask.Append: takes records whose body, and whose key in a hint body, stay below 2^32 bytes, and files below 2^64 bytes; the code truncates lengths beyond that silently, and `RoundTripExactly` shows that such records cannot be read back.
- Bitcask.Bitcask.Set: takes keys and values under the same limits.
- Bitcask.Bitcask.Remove: takes keys under the same limits; its answer is stated for the sequential object; the code checks the keydir and appends without a lock across both, so the machine states the effect of the append only.
- Compaction.RunCompaction: runs alone as an object method; its interleavings with writers, readers and crashes are the step machine's.
- PowerLoss.AcknowledgedSurvives: counts as unreturned, after process crashes without an intervening append, one record per crash.
- Crashes.SyncedPutsSurvive: speaks of states in which `flushed_offset` is exact; in the others the bound is 0 although more is durable, and `PowerLossThenGet` speaks of what is durable.
- Recovery.HintTruncationExact: is about hints the merge wrote and truncations of them; arbitrary bytes with valid checksums are trusted by the code.
- Server.HandleResp: error texts are inputs, so the wording of protocol errors and the lossy rendering of command names are not modelled; flushing of the output buffer is not either.
- The `sled` engine and the generic `KvStore` dispatch.
- The lock file, the binaries other than the RESP session loop, logging and benchmarks.
- Bitcask.Bitcask.HandlePolicy: whether a flush is due under the interval policy is an input, and so is the clock; `last_ts_flushed` is not modelled.
- Loader.Loader.CleanUp: directory entries come with their ids; formatting file names to six digits and parsing them back is not modelled.
- Durability of directory entries: directory operations take effect in order and last.
- The stale byte count as a measure of garbage: only its exact bookkeeping is modelled.
- Uniformity of the bucket hash.
- The signalling and joining of the compaction thread: a merge may start whenever its guard holds.
