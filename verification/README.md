# Durable Streams: a verified model

This project models the core of the Durable Streams reference server, an append-only log
store with three storage backends, idempotent producers and live readers, and proves what it
promises. It covers

- one abstract log (`LogSpec`) that every backend refines, with the shared checks (`Validation`)
  and whole-run properties: exactly-once producers, Stream-Seq ordering, final closure,
  all-or-nothing appends (`Effects`, `Runs`, `Refinement`); what every call is answered, from the fields
  of stream and request alone (`Answers`);
- the in-memory backend (`MemoryStorage`);
- the file backend: the record log and its recovery (`FileLog`), the live index and what failed
  writes do to it (`FileIndex`), the storage object (`FileStorage`), failures and crashes between any
  two steps of an append (`FileCrash`), what they make of retries (`FileRetries`), and that the steps,
  uninterrupted, are the abstract transition (`FileSteps`);
- the ACID backend: the two tables and their transactions (`AcidTables`), sharding and restart
  (`AcidShards`), concurrent callers with crashes (`AcidMachine`), and the storage object
  (`AcidStorage`);
- reads: resumption, entity tags, catch-up and long-poll (`Reading`), live readers among concurrent
  writers (`LiveReader`), what each of their answers says (`Chunks`), and what an SSE client receives and
  resumes from (`Delivery`);
- codecs and counters: offsets (`OffsetCodec`), SSE framing (`Sse`), cursors (`Cursor`).

`dafny verify dfyconfig.toml` checks everything.

## How the model is built

The storage objects of the source are classes whose fields the methods update. Each method is proved
to give exactly the store and the reply of `LogSpec.Apply`, the abstract transition of its backend;
the properties of runs are then proved once, about that transition. Concurrency is modelled as step
machines: `AcidMachine` separates reserving bytes, the transaction, and giving bytes back, `LiveReader`
separates commit, notification, subscription and the reads of a reader, `FileCrash` separates the
checks, the write, the sync and the metadata write, and `Cursor` the load and the exchange.

The clock is a parameter, read once per call. The hash that routes streams to shards is a parameter.
A redb database is a pair of maps with atomic transactions, one open write transaction per shard. A
log file is a byte sequence; a crash keeps some prefix that contains the synced bytes. A broadcast
channel is the number of notifications a reader has not received, with the capacity of 16 after
which a receive reports a lag. Integers are unbounded; 64-bit wrap-around is written out in `Cursor`
and `OffsetCodec`, and the byte counters are proved to stay within their caps.

## What does not hold

Some properties one would expect are false of the code. Each has a run or an input that shows it
and the exact condition under which it holds.

- A long-poll that times out reads again, reports the new tail and drops the messages. It loses
  nothing exactly when nothing was added since its first read (`Reading.TimeoutCompleteExactly`,
  `Reading.TimeoutLosesMessages`).
- Some changes notify nobody: a single append in memory, a close-only producer append in memory and
  file, and a close in the file backend whose metadata cannot be written. These are all
  (`LiveReader.QuietExactly`). A reader that waits with nothing to receive has everything exactly when no
  such change came after its last read (`LiveReader.NoLostWakeup`; `LiveReader.QuietAppendMissed`,
  `LiveReader.QuietCloseMissed`, `LiveReader.FailedCloseMissed`). ACID has none (`LiveReader.AcidWakesAll`).
- A reader whose stream is deleted and created again may go on in the middle of the new stream
  (`LiveReader.LivesMixed`). What it sent is a slice of its own stream exactly when no re-read found another
  life with messages at or after where it stood (`LiveReader.SentExactlyOnce`).
- On ACID a retry of an accepted batch is refused, not recognised, exactly when its bytes no longer fit
  the cap (`Runs.ResendAnswered`, `Runs.ResendRefusedAtCap`, `AcidMachine.ResendInTables`).
- An acknowledged message can be lost in the file backend after a write that failed half-way
  (`FileStorage.LoseAcked`). Then the metadata is ahead of the log: the pair is recorded, and a retry is
  answered as a duplicate although the batch is lost (`FileCrash.DuplicateOfLost`,
  `FileCrash.TornWriteLosesAcked`). Whatever is appended next survives exactly when the log holds whole
  records only (`FileLog.LaterBatchesRecoveredExactly`, `FileCrash.NextAppendSurvivesExactly`), and a failed
  write leaves whole records exactly when it stops between two (`FileLog.TornWriteWholeExactly`). Recovery and
  the live index agree exactly when nothing was indexed after the first leftover byte and the leftover holds
  no whole record (`FileIndex.RecoveryEqualsLiveExactly`).
- A close in the file backend whose metadata cannot be written closes the stream until the next restart, which
  finds it open again (`FileSteps.FailedCloseReopens`). While metadata writes succeed, the metadata between two
  calls is that of the entry (`FileSteps.MetadataCurrent`).
- A batch is documented as atomic (src/storage/mod.rs:347-350), but after a crash before its sync, or a write
  that failed, a restart serves the messages whose records were completed: all or none of them exactly when
  the file ends within the first record or behind the last (`FileCrash.UnsyncedBatchExactly`,
  `FileCrash.FailedWriteExactly`).
- With the file backend a retry may store a batch, or its first messages, twice: after a crash, after a
  failed sync, and after a write that failed at the end of a record (`FileRetries.RetryMayRepeat`,
  `FileRetries.FailedSyncRepeats`, `FileRetries.FailedWriteRepeats`). After a crash it does so exactly when the
  metadata version that survived lets pair and Stream-Seq follow, the stream has not expired and the batch
  fits beside what was recovered (`FileRetries.RetryRepeatsExactly`). It is recognised exactly when the version
  found at the last restart covers the pair, or one at or above it was acknowledged since and before the
  surviving version was written (`FileRetries.RecognisedExactly`). In orderly runs nothing is stored twice
  (`FileRetries.AtMostOnce`).
- Entity tags do not tell two lives of a stream apart (`Reading.EtagBlindAcrossLives`): a read answers 304
  exactly when message count, byte total and closed flag agree (`Reading.NotModifiedExactly`).
- Cursor packing is faithful exactly for byte offsets below 2^27 and sequence numbers below 2^37
  (`Cursor.PackFaithfulExactly`, `Cursor.PackCollidesOnBytes`, `Cursor.PackCollidesOnSequence`);
  config/prod.toml:8 allows streams of 2^28 bytes. The comment at src/protocol/cursor.rs:33-35 says that
  a cursor is always a safe JavaScript integer. A long stream makes the cursors of every other one unsafe
  (`Cursor.UnsafeFromAnotherStream`); over a run all are safe exactly when no position, raised by one for
  each later cursor, reaches 2^53 (`Cursor.CursorsSafeExactly`, `Cursor.PackSafeExactly`).
- The backends do not treat every call alike: ACID drops the messages of a create whose messages are all
  empty, file refuses messages of 2^32 bytes, memory and file remove an expired stream before they know
  that its replacement fits, and ACID reports the byte cap before anything else. A backend stays with the
  common ideal exactly outside the first three (`Refinement.StepAgreesExactly`,
  `Refinement.BackendRefinesIdeal`) and answers alike exactly outside the fourth (`Refinement.BackendsAgree`);
  `Refinement.EmptyInitialBatchDiffers`, `Refinement.ExpiredLostExactly`, `Refinement.ExpiredAtCapDiffers` and
  `Refinement.CapHidesMissing` say how they differ.
- Reading and resuming equals one later read exactly when the offset was not past the tail or
  nothing was added (`Reading.ResumeExactly`).
- A create with data in the file backend that fails at its metadata leaves its bytes counted: from then on
  the cap is so much smaller (`FileStorage.FileStorage.CreateStreamWithData`).

## Model

| member | source | states |
|---|---|---|
| Validation.SameConfigIsEquivalence | src/storage/mod.rs:34-46 | configuration equality, which skips the expiry time derived from a TTL, is an equivalence |
| Validation.LiveCompose | src/storage/mod.rs:254-259 | evicting stale producers early and again later is evicting them later |
| Validation.AcceptedExactly | src/storage/mod.rs:268-318 | a producer request is accepted iff the stream is open and it is the first of a new producer, the first of a higher epoch, or the successor within the epoch |
| Validation.RefusedExactly | src/storage/mod.rs:268-318 | every other request: a known pair is fenced in an older epoch and a duplicate in the current one, closed or not; any other is refused as closed on a closed stream, as an invalid state when it opens an epoch above zero, as a gap with the expected number otherwise |
| Validation.RememberedExactly | src/storage/mod.rs:254-259 | a producer is remembered, unchanged, iff its last accepted append is less than 604800 seconds old |
| Validation.SameTypeExactly | src/storage/mod.rs:220-229 | content types agree iff they are equally long and in each place hold the same character or the two cases of one ASCII letter |
| Validation.LexLessExactly | src/storage/mod.rs:235-251 | a Stream-Seq is above another iff it goes on where that one ends or has the larger character where they first differ |
| Answers.ExpiredExactly | src/storage/mod.rs:214-218 | on each backend a read or close of an existing stream is refused as expired iff its time of expiry has come, TTL or not; nothing changes then, and an unexpired close succeeds |
| Answers.AppendExpiredExactly | src/storage/memory.rs:196-200 | an append is refused as expired iff the time has come and ACID does not report the cap first |
| Answers.ReplacedExactly | src/storage/memory.rs:168-188 | a create on a taken name makes an empty stream of the new configuration iff the time of the old one has come |
| Answers.ReplacedWithDataExactly | src/storage/memory.rs:460-479 | a create with data on a taken name is compared with the old stream iff its time has not come |
| Answers.KeptExactly | src/storage/acid.rs:403-462 | a restart keeps a stream, unchanged, iff its time has not come |
| Answers.RecoveredExactly | src/storage/file.rs:503-581 | the file backend recovers a directory as a stream iff its time of expiry, if any, lies ahead |
| Answers.CreateOnTaken | src/storage/mod.rs:34-46 | on each backend a create on an unexpired name changes nothing and answers AlreadyExists iff content type, TTL, closed mark and, without a TTL, expiry time agree, ConfigMismatch otherwise |
| Answers.CreateWithDataOnTaken | src/storage/memory.rs:460-479 | the same for a create with data, which answers with the tail and closed flag of the existing stream |
| Answers.AppendAnswered | src/storage/memory.rs:191-237 | on each backend the answer to any append: cap first on ACID, expired, closed, content type, record size, cap, stream limit, or the offset of the message |
| Answers.BatchAnswered | src/storage/memory.rs:239-277 | the same for a batch, with a Stream-Seq that does not come after the last one refused, and the offset behind the batch |
| Answers.ProducerAnswered | src/storage/memory.rs:379-447 | on each backend the answer to any producer append: expiry and content type, then the producer state less than a week old, then Stream-Seq and limits; an accepted one gets its pair, the new tail and the closed flag |
| Answers.ForgottenAfterAWeek | src/storage/mod.rs:254-259 | on an open stream the first request of an epoch already seen is in order again iff the producer has been silent for seven days |
| LogSpec.StartIndexExact | src/storage/memory.rs:300-309 | a read from any offset, assigned or not, starts at the first message whose offset is not below it |
| Effects.TxnEffect | src/storage/mod.rs:330-431 | every call removes a stream, replaces it by exactly the one it describes, appends exactly its batch to an open stream under the orderings, closes it, or leaves it as it was up to stale producers |
| Runs.AllOrNothing | src/storage/mod.rs:347-360 | on each backend an append that is refused or a duplicate changes no log, offset, closed flag, Stream-Seq or byte total |
| Runs.AppendsExactlyItsBatch | src/storage/memory.rs:239-277 | a successful append adds its batch at the end of its own stream and nothing elsewhere, and the byte total grows by its size |
| Runs.SeqsStrictlyIncrease | src/storage/mod.rs:235-251 | over every run the accepted Stream-Seq values of a stream strictly increase and the last one is in force |
| Runs.ClosureIsFinal | src/storage/mod.rs:281-291 | from a closed state on, messages never change, the stream stays closed and every append is refused or answered as a duplicate at this tail |
| Runs.ExactlyOnce | src/storage/mod.rs:268-318 | over every run with restarts, accepted (epoch, seq) pairs strictly increase, skip no number, and each batch sits in the log once, in order, unchanged |
| Runs.ResendNeverAccepted | src/storage/memory.rs:406-416 | a pair accepted earlier is never accepted again while its producer is registered, and resending it changes no log |
| Runs.ResendAnswered | src/storage/mod.rs:273-286 | on each backend a resent pair is answered as a duplicate at the tail with the closed flag in the current epoch, and as fenced in an older one, on open and closed streams alike, iff the call is not refused at the cap first |
| Runs.ResendRefusedAtCap | src/storage/acid.rs:797-798 | on ACID, filling the cap with a batch is enough to have its retry refused |
| Refinement.StepAgreesExactly | src/storage/mod.rs:320-444 | one call on stores that agree: the backend stays with the ideal store and replies as it does, but for a cap reported first, iff the call is none of the three kinds the backends treat differently |
| Refinement.BackendRefinesIdeal | src/storage/acid.rs:466-1004 | over every run of atomic calls on a monotone clock whose earlier calls were treated alike, store and reply are the ideal ones, up to stale producers and a cap reported first, iff this call is treated alike too |
| Refinement.BackendsAgree | src/storage/acid.rs:788-900 | two backends that treat every call of a run alike hold equal stores up to stale producers and reply alike iff neither reports the cap first |
| Refinement.EmptyInitialBatchDiffers | src/storage/acid.rs:947-967 | on a free name with room, a create with data leaves the same store in memory and in ACID iff it has no message or some byte |
| Refinement.ExpiredLostExactly | src/storage/memory.rs:460-479 | a failed create with data loses the old stream iff that stream had expired and the backend is memory or file |
| Refinement.ExpiredAtCapDiffers | src/storage/acid.rs:924-945 | a create with data on an expired name is taken by memory and refused by ACID iff it fits the cap without the old stream but not beside it |
| Refinement.CapHidesMissing | src/storage/acid.rs:512-516 | an append to a missing stream is NotFound in memory, and in ACID iff it fits the cap |
| Limiting.BatchBytes | src/storage/acid.rs:364-369 | the loop computes the total length of the batch |
| MemoryStorage.PushAll | src/storage/memory.rs:143-150 | the push loop gives each message the offset that was next and keeps all counters |
| MemoryStorage.FindStart | src/storage/memory.rs:300-309 | bisection over the stored offsets finds the start index |
| MemoryStorage.InMemoryStorage.constructor | src/storage/memory.rs:77-84 | an empty store with nothing counted |
| MemoryStorage.InMemoryStorage.CommitMessages | src/storage/memory.rs:113-157 | global cap before stream limit; pushes the batch or leaves the counter as it was |
| MemoryStorage.InMemoryStorage.CreateStream | src/storage/memory.rs:161-189 | refines the abstract create, replacing an expired stream |
| MemoryStorage.InMemoryStorage.Append | src/storage/memory.rs:191-237 | refines the abstract append and tells nobody |
| MemoryStorage.InMemoryStorage.BatchAppend | src/storage/memory.rs:239-277 | refines the abstract batch append; notifies on success only |
| MemoryStorage.InMemoryStorage.Read | src/storage/memory.rs:279-326 | returns exactly the abstract read |
| MemoryStorage.InMemoryStorage.Delete | src/storage/memory.rs:328-338 | removes the stream and its bytes from the counter |
| MemoryStorage.InMemoryStorage.CloseStream | src/storage/memory.rs:361-377 | refines the abstract close and notifies |
| MemoryStorage.InMemoryStorage.AppendWithProducer | src/storage/memory.rs:379-447 | refines the abstract producer append, evictions kept on failure; notifies only for a non-empty batch |
| MemoryStorage.InMemoryStorage.CreateStreamWithData | src/storage/memory.rs:449-499 | refines the abstract create-with-data, an expired stream being gone even if it fails |
| FileLog.RebuildIndex | src/storage/file.rs:292-349 | for any bytes, the index, counters and kept file are those of the whole records at the front |
| FileLog.RecordLayout | src/storage/file.rs:402-409 | a record is four bytes with the length, lowest first, and the message |
| FileLog.ParseEncoded | src/storage/file.rs:292-349 | parsing undoes printing, whatever follows |
| FileLog.ParsePrefix | src/storage/file.rs:317-332 | recovery keeps a prefix of the file and leaves no whole record behind |
| FileLog.TornRecovery | src/storage/file.rs:292-349 | any prefix of a cleanly written log recovers to exactly the records wholly inside it, with the live index's offsets and positions |
| FileLog.RecoveryIdempotent | src/storage/file.rs:292-349 | recovering a recovered file changes nothing, for any bytes |
| FileLog.SyncedSurvive | src/storage/file.rs:424-435 | messages whose records were synced are recovered whatever else a crash leaves |
| FileLog.LaterBatchesRecoveredExactly | src/storage/file.rs:411-435 | after any failed writes, every batch appended next is recovered behind all that was recoverable iff the file holds whole records only |
| FileLog.TornWriteWholeExactly | src/storage/file.rs:413-422 | a write cut off after n bytes leaves whole records iff n is the end of one |
| FileIndex.WriteBuffer | src/storage/file.rs:402-409 | the write buffer is the encoding of the batch |
| FileIndex.PlaceBatch | src/storage/file.rs:437-450 | the index loop points each new entry at its message in the grown file and keeps the old ones |
| FileIndex.CleanAppend | src/storage/file.rs:437-450 | an append to a log without gaps leaves the index recovery would build |
| FileIndex.ReadMessages | src/storage/file.rs:456-491 | slicing one contiguous span returns exactly the indexed messages, gaps notwithstanding |
| FileIndex.FindStart | src/storage/file.rs:713-719 | bisection over the indexed offsets finds the start index |
| FileIndex.RecoveryEqualsLiveExactly | src/storage/file.rs:411-435 | after any series of writes, failed or not, recovery equals the live index iff nothing was indexed after the first leftover byte and the leftover holds no whole record |
| FileIndex.AckedRecovered | src/storage/file.rs:437-450 | a batch indexed behind whole records is recovered right behind them whatever is written later |
| FileStorage.WriteRecords | src/storage/file.rs:402-452 | a written batch is indexed with exactly its entries; a failed write or sync leaves its bytes unindexed and the index right |
| FileStorage.TraceGrows | src/storage/file.rs:402-452 | each write adds one indexed or leftover piece to what file and index are made of |
| FileStorage.LoseAcked | src/storage/file.rs:413-422 | a write that fails after its header, then an acknowledged append: the message reads back, and recovery has another in its place |
| FileStorage.Open | src/storage/file.rs:543-566 | an entry read back from disk represents the whole records and the metadata found there |
| FileStorage.RestartRestores | src/storage/file.rs:503-581 | without failed writes a restart gives every unexpired stream back, up to stale producers |
| FileStorage.FileStorage.Load | src/storage/file.rs:503-581 | loading a directory yields the recovered store with its byte total |
| FileStorage.FileStorage.AppendRecords | src/storage/file.rs:361-454 | record size, then both limits, then the write; the counter moves by the batch or not at all |
| FileStorage.FileStorage.Append | src/storage/file.rs:627-648 | refines the abstract append; a failed write changes nothing a reader can see |
| FileStorage.FileStorage.BatchAppend | src/storage/file.rs:650-691 | refines the abstract batch append, with failed writes and failed metadata writes |
| FileStorage.FileStorage.AppendWithProducer | src/storage/file.rs:792-865 | refines the abstract producer append, with failed writes and failed metadata writes |
| FileStorage.FileStorage.CreateStream | src/storage/file.rs:585-625 | refines the abstract create, also over a leftover log file; when directory or metadata fail, the name is free and an error is reported |
| FileStorage.FileStorage.CreateStreamWithData | src/storage/file.rs:867-931 | refines the abstract create-with-data, with failed directories, writes and metadata and a leftover log file; a failed metadata write leaves the bytes counted |
| FileStorage.FileStorage.Read | src/storage/file.rs:693-731 | returns exactly the accepted messages in every reachable state, failed writes included |
| FileStorage.FileStorage.Delete | src/storage/file.rs:733-751 | removes the stream and its bytes from the counter, also when the directory cannot be removed and an error is reported |
| FileStorage.FileStorage.CloseStream | src/storage/file.rs:774-790 | refines the abstract close; a failed metadata write reports an error with the stream closed |
| FileCrash.AckedSurvives | src/storage/file.rs:411-435 | in every run with synced appends, failed writes and syncs included, every acknowledged batch written behind whole records is recovered where it was put, whatever a crash leaves |
| FileCrash.WholeRunsKeepAll | src/storage/file.rs:413-422 | in runs whose failed writes stop between two records, every acknowledged batch was written behind whole records |
| FileCrash.NextAppendSurvivesExactly | src/storage/file.rs:392-435 | in every reachable state that lets an append through, with or without producer and Stream-Seq, every non-empty message that fits the limits and is called next, to its metadata write, is in the log iff the log holds whole records only or not one byte fits |
| FileCrash.DuplicateOfLost | src/storage/file.rs:819-857 | behind torn bytes a producer append is acknowledged and recorded in the newest metadata, no crash leaves its message where it was put, and its pair is answered as a duplicate |
| FileCrash.TornWriteLosesAcked | src/storage/file.rs:413-422 | a run from the start that leads there |
| FileCrash.UnsyncedBatchExactly | src/storage/file.rs:411-435 | of a batch written behind whole records and not yet synced, a crash leaves the messages whose records lie wholly in the kept bytes, all or none iff these end within the first record or behind the last |
| FileCrash.FailedWriteExactly | src/storage/file.rs:413-422 | a write that fails after n bytes leaves recovery the messages it completed, all or none iff n ends within the first record or behind the last |
| FileCrash.MetadataNeverAhead | src/storage/file.rs:246-277 | at every crash point, every producer pair up to the recorded one and the recorded Stream-Seq were acknowledged, with their batches in the recovered log unless written behind torn bytes, and without exception when failed writes stop between records |
| FileCrash.DuplicateIsStored | src/storage/file.rs:819-833 | a duplicate answer rests on an acknowledged batch, in the log unless written behind torn bytes, and without exception when failed writes stop between records |
| FileRetries.RetryRepeatsExactly | src/storage/file.rs:806-857 | in every run, the retry of an acknowledged pair after a crash is acknowledged and stored a second time iff the surviving version is open and lets pair and Stream-Seq follow, the stream has not expired and the batch fits the limits beside what was recovered; otherwise the log does not change |
| FileRetries.RecognisedExactly | src/storage/file.rs:819-857 | any pair sent after a crash is answered as a duplicate or fenced iff the version found at the last restart covers it or one at or above it was acknowledged since and before the surviving version, while no check evicts the producer |
| FileRetries.RetryRecognisedExactly | src/storage/file.rs:836-857 | a pair acknowledged since the last restart is recognised iff the surviving version was written after it |
| FileRetries.AtMostOnce | src/storage/file.rs:792-865 | when nothing fails and crashes fall outside write-to-metadata and find the newest version, the log is the acknowledged batches in order and the pairs of a producer that is never evicted strictly increase |
| FileRetries.RetryMayRepeat | src/storage/file.rs:854-857 | a crash between sync and metadata write lets a retry be stored again |
| FileRetries.FailedSyncRepeats | src/storage/file.rs:424-435 | after a failed sync of a batch written behind whole records, its retry leaves it in the log twice iff it still fits the limits |
| FileRetries.FailedWriteRepeats | src/storage/file.rs:413-422 | after a write that failed at a record end, the retry stores the batch behind the messages that were completed iff it still fits the limits; none were iff the write stopped within the first record |
| FileSteps.ThroughIsApply | src/storage/file.rs:792-865 | an uninterrupted append, with or without producer, from checks to metadata, leaves the stream as the abstract call does and is acknowledged iff that succeeds |
| FileSteps.CloseIsApply | src/storage/file.rs:774-790 | a close step leaves the stream as the abstract close does, also when its metadata write fails |
| FileSteps.MetaFailureHidden | src/storage/file.rs:854-857 | a metadata write that fails behind an acknowledged append shows in nothing but the metadata on disk |
| FileSteps.MetadataCurrent | src/storage/file.rs:246-277 | in every run whose metadata writes succeed, the newest metadata between calls has the closed flag, the Stream-Seq and every producer of the entry |
| FileSteps.VersionsGrow | src/storage/file.rs:681-688 | a metadata version is written by a close and behind an append with a producer or a Stream-Seq, and holds the entry of that moment; a failed write leaves none |
| FileSteps.FailedCloseReopens | src/storage/file.rs:785-788 | after a close whose metadata write failed, the stream is closed, and open again after a crash that finds the newest metadata |
| AcidTables.InsertAllHolds | src/storage/acid.rs:613-624 | inserting a batch keeps the rows of a stream exactly its messages under (index, bytes before it) and touches no other stream |
| AcidTables.TableTxnRefines | src/storage/acid.rs:466-1004 | each write transaction on the tables does and replies what the abstract one does and keeps the table invariant |
| AcidShards.MaskIsModulo | src/storage/acid.rs:208-216 | mask routing is the hash modulo the shard count, in range, on 32-bit and 64-bit words |
| AcidShards.ShardCountsAre | src/storage/acid.rs:120-132 | the shard counts accepted are the powers of two from 1 to 256 |
| AcidShards.OpensExactly | src/storage/acid.rs:146-206 | an existing layout opens, unchanged, iff version, shard count and hash policy are the expected ones |
| AcidShards.CountFixedByManifest | src/storage/acid.rs:146-206 | all startups that succeed after the first use its shard count |
| AcidShards.OwnShardOnly | src/storage/acid.rs:218-220 | a lookup in the home shard is a lookup in the whole store, and no other shard knows the name |
| AcidShards.ShardedTxnRefines | src/storage/acid.rs:569-648 | a transaction in the home shard refines the abstract transaction on the whole store and keeps streams in their shards |
| AcidShards.PurgeSpread | src/storage/acid.rs:403-462 | after a restart the shards hold exactly the unexpired streams with their rows |
| AcidShards.RecountIsTotal | src/storage/acid.rs:395-401 | the counter rebuilt from the metadata rows is the byte total |
| AcidMachine.StepKeeps | src/storage/acid.rs:508-567 | every step of every caller, and a crash, keeps the invariant for the store its event leads to |
| AcidMachine.BytesConserved | src/storage/acid.rs:222-255 | in every reachable state the counter is the committed bytes plus reservations in flight plus removed bytes not yet released, within the cap |
| AcidMachine.CallersCanFinish | src/storage/acid.rs:241-255 | in every reachable state each caller underway can fail or give back what it holds, and with none underway the counter is the bytes of the streams |
| AcidMachine.NoSaturationNoOverflow | src/storage/acid.rs:241-255 | no subtraction saturates, and a stream's bytes plus a reserved batch stay within the cap |
| AcidMachine.NoGhostData | src/storage/acid.rs:287-311 | in every reachable and post-crash state rows, counters and messages agree, and no row exists for a name without a stream |
| AcidMachine.ExactlyOnceInTables | src/storage/acid.rs:788-900 | exactly-once delivery of producer batches holds of the rows under every interleaving and across crashes |
| AcidMachine.ResendInTables | src/storage/acid.rs:797-840 | under every interleaving a retry of an accepted pair is answered as a duplicate or fenced iff its bytes fit beside committed, reserved and unreleased ones; otherwise it is refused first |
| AcidMachine.ClosedStaysClosed | src/storage/acid.rs:763-786 | a closed stream keeps its rows and stays closed through any further steps and crashes that leave it there |
| AcidStorage.InsertBatch | src/storage/acid.rs:845-856 | the loop inserts the batch under consecutive keys and advances all three counters |
| AcidStorage.DeleteStreamMessages | src/storage/acid.rs:287-311 | removes exactly the rows of the stream |
| AcidStorage.ScanFrom | src/storage/acid.rs:688-697 | the ordered range scan returns what bisection over an index would |
| AcidStorage.RebuildShard | src/storage/acid.rs:403-462 | expired streams go with their rows and the bytes of the others are counted |
| AcidStorage.AppendOn | src/storage/acid.rs:512-558 | the append transaction, aborted or committed |
| AcidStorage.ProduceOn | src/storage/acid.rs:800-889 | the producer transaction, aborted, duplicate or committed |
| AcidStorage.CreateOn | src/storage/acid.rs:942-987 | the create-with-data transaction on a free name |
| AcidStorage.AcidStorage.constructor | src/storage/acid.rs:65-113 | startup holds the unexpired streams and counts their bytes, whatever the limits are now |
| AcidStorage.AcidStorage.ShardFor | src/storage/acid.rs:208-220 | the masked hash is the home shard |
| AcidStorage.AcidStorage.Reserve | src/storage/acid.rs:222-239 | reserves within the cap or changes nothing |
| AcidStorage.AcidStorage.CreateStream | src/storage/acid.rs:466-506 | refines the abstract create and releases the bytes of an expired stream |
| AcidStorage.AcidStorage.Append | src/storage/acid.rs:508-567 | refines the abstract append, the cap coming first; settles the counter and notifies on success |
| AcidStorage.AcidStorage.BatchAppend | src/storage/acid.rs:569-648 | refines the abstract batch append, the cap coming first; settles the counter and notifies on success |
| AcidStorage.AcidStorage.Read | src/storage/acid.rs:650-705 | returns exactly the abstract read |
| AcidStorage.AcidStorage.Delete | src/storage/acid.rs:707-733 | removes stream and rows and releases the bytes |
| AcidStorage.AcidStorage.CloseStream | src/storage/acid.rs:763-786 | refines the abstract close and notifies |
| AcidStorage.AcidStorage.AppendWithProducer | src/storage/acid.rs:788-900 | refines the abstract producer append; duplicates give bytes back and still notify |
| AcidStorage.AcidStorage.CreateStreamWithData | src/storage/acid.rs:902-1004 | refines the abstract create-with-data, an all-empty batch being dropped |
| Reading.ResumeExactly | src/storage/memory.rs:300-325 | reading and resuming from the returned offset equals one later read iff the offset was not past the tail or nothing was added |
| Reading.ResumeOverRun | src/storage/acid.rs:680-704 | over any run in which the stream survives, resuming skips and repeats nothing |
| Reading.EtagInjective | src/handlers/get.rs:399-406 | equal tags mean equal start, next offset and closed mark |
| Reading.EtagPrinted | src/handlers/get.rs:399-406 | the tag is start and next offset, quoted, with a colon between them and a closed mark |
| Reading.EtagSound | src/handlers/get.rs:132-138 | within one life, two reads carry equal tags iff they start alike and the stream neither grew nor closed |
| Reading.NotModifiedExactly | src/handlers/get.rs:132-138 | for any two logs, the tag of one makes the other answer 304 iff message count, byte total and closed flag agree |
| Reading.EtagBlindAcrossLives | src/handlers/get.rs:399-406 | from the empty store: after deletion and re-creation with another message of the same length the old tag answers 304 |
| Reading.NotModifiedHidesNothing | src/handlers/get.rs:121-141 | with an earlier tag, 304 iff nothing changed; otherwise the full read is delivered |
| Reading.LongPollComplete | src/handlers/get.rs:144-190 | the immediate and wake branches deliver everything from the request to the tail and point behind it, `now` included |
| Reading.WaitsExactly | src/handlers/get.rs:158-177 | a long-poll waits iff its tag does not match, no message lies at or after the requested position and the stream is open |
| Reading.AnswersMarked | src/handlers/get.rs:121-197 | every answer of catch-up, immediate, wake and timeout branches points behind the log it read and, unless it is a 304, says closed iff the log is |
| Reading.TagComesBack | src/handlers/get.rs:132-141 | the tag sent with data makes the same request answer 304 while the log stays |
| Reading.TimeoutCompleteExactly | src/handlers/get.rs:191-196 | the timeout branch loses nothing iff nothing was added since the first read |
| Reading.TimeoutLosesMessages | src/handlers/get.rs:191-196 | a client that follows a timed-out answer never sees messages added while it waited |
| LiveReader.StepKeeps | src/handlers/get.rs:287-349 | every step of writers and readers keeps the reader invariant |
| LiveReader.NoLostWakeup | src/handlers/get.rs:216-222 | a reader waiting on the open, empty channel of its stream, with no writer between commit and notification, has sent every message and the stream is open iff no silent change came after its last read |
| LiveReader.AcidWakesAll | src/storage/acid.rs:891-897 | on ACID such a reader always has everything |
| LiveReader.WakeupsAre | src/storage/mod.rs:192 | a reader is woken once per notification, and seventeen times at most however many it missed |
| LiveReader.DropsExactly | src/storage/acid.rs:497-505 | on ACID a call drops the notifier iff it ends a life of the stream, a create over a stream without bytes excepted |
| LiveReader.SentExactlyOnce | src/handlers/get.rs:287-349 | what a reader sent is one slice of its stream from the requested position to its last read, followed by what it read of later lives; the slice is all iff no re-read found another life with messages at or after where it stood |
| LiveReader.ResumeAfterReader | src/handlers/get.rs:183-197 | what was sent, what a timed-out long-poll dropped, and a read from the last offset together are the stream from the start on |
| Chunks.StepKeepsItems | src/handlers/get.rs:253-351 | every step keeps what the items say: positions, the closed mark in the last item only, one answer per long-poll |
| Chunks.ChunksPoint | src/handlers/get.rs:324-348 | over every run within one life, each chunk points behind exactly the messages sent up to and including it |
| Chunks.ResumeAfterAnyItem | src/handlers/get.rs:334-348 | a client cut off after any item gets exactly the rest of the stream from the last offset it was sent, but for what a timed-out long-poll dropped |
| Chunks.ItemsAreReads | src/handlers/get.rs:287-349 | over every run, whatever happens to the stream, each item comes from one read, from where the client had been sent, and its messages, offset and closed mark are those of the stream at that read |
| Chunks.StopsExactly | src/handlers/get.rs:271-346 | a reader stops iff a read finds the stream gone, expired or closed, it gave up, its channel closed, a long-poll has something to answer, or it is idle |
| Chunks.NeverStuck | src/handlers/get.rs:287-322 | which steps a reader has in each phase, one at least until it has ended |
| Chunks.BehindCanMove | src/handlers/get.rs:287-293 | over every run, a waiting reader that lacks something can be woken or has a writer about to notify it, unless the change was silent |
| Chunks.WokenCatchesUp | src/handlers/get.rs:324-335 | the next read of a woken reader sends everything the stream holds from its start on |
| Chunks.NotifyWakes | src/storage/acid.rs:333-342 | a notification lets every reader that waits on the channel wake and touches no other, and is sent once |
| Chunks.CallTells | src/storage/memory.rs:113-157 | a call that changes a surviving stream is silent, or lets every reader that waits on its channel wake, on ACID by a notification still to be sent |
| Chunks.WakeThenRead | src/handlers/get.rs:289-348 | a woken reader has one wake-up less ahead and reads once; it waits again iff it streams and the stream is there and open |
| Chunks.ChannelStaysOpen | src/storage/acid.rs:313-331 | over every run, no reader on the channel its stream notifies finds it closed |
| Chunks.ChannelGivenUp | src/storage/acid.rs:344-349 | a call that leaves no stream gives up its channel in memory and file; on ACID its caller does so next iff the call ended a life of the stream, a create over a stream without bytes excepted |
| Chunks.ClosedChannelEnds | src/handlers/get.rs:294-305 | a reader whose channel has closed reads once more and ends |
| Chunks.TimeoutAnswers | src/handlers/get.rs:191-196 | a timed-out long-poll answers without content, with tail and closed mark of the stream as it is then |
| LiveReader.QuietExactly | src/storage/file.rs:785-788 | a step changes a stream without a notification iff it is a successful memory append, a close-only producer append outside ACID, or a file close of an open stream whose metadata write fails |
| LiveReader.NeverSilent | src/storage/memory.rs:113-157 | a run without calls of these kinds changes no stream silently |
| LiveReader.QuietCloseMissed | src/storage/memory.rs:420-427 | a waiting reader is never told of a close-only producer append in memory or file |
| LiveReader.QuietAppendMissed | src/storage/memory.rs:191-237 | a waiting reader is never told of a single append in memory |
| LiveReader.FailedCloseMissed | src/storage/file.rs:785-788 | a waiting reader is never told of a file close whose metadata write fails |
| LiveReader.LivesMixed | src/handlers/get.rs:294-327 | on every backend a reader may continue in the middle of a re-created stream |
| Delivery.ClientReads | src/handlers/get.rs:259-269 | the client reads one data event per framed text, in order, whatever the texts are |
| Delivery.ClientReceivesLog | src/handlers/get.rs:259-351 | over every run within one life of a stream that is not JSON, the data events a client reads are exactly the stream's messages, decoded and normalised, from the requested position to the last read |
| Delivery.ClientReceivesArrays | src/protocol/sse.rs:95-104 | on a JSON stream they are arrays, one per read that returned messages, which cut the same slice into consecutive pieces in order |
| Delivery.ControlsPrinted | src/protocol/sse.rs:14-46 | the control payload as JSON text, of an open and of a closed stream |
| Delivery.ControlReads | src/handlers/get.rs:354-371 | a client finds the offset and the closed mark in a control payload, whatever the cursor |
| Delivery.DecimalRead | src/protocol/cursor.rs:47 | a cursor is printed as the decimal digits of its value |
| Delivery.ClientFinds | src/handlers/get.rs:259-269 | the last control event a client reads names the last offset sent and no other, and says closed iff the last item does |
| Delivery.ClientResumes | src/handlers/get.rs:259-351 | over every run within one life, what was sent and a read from the offset in the last control event make the stream from the start on; a control event that says closed is right |
| Delivery.CutAnywhere | src/handlers/get.rs:259-335 | over every run within one life, on JSON and other streams, a client cut off behind any frame has been sent the first m messages, and the last control event it read leads to the n-th and all later ones for some n at most m: nothing is lost, the data events coming before their control event |
| Sse.SplitLines | src/protocol/sse.rs:134-160 | the loop cuts at CRLF, CR and LF: no piece holds CR or LF, and the pieces joined by those breaks are the text |
| Sse.LinesExactly | src/protocol/sse.rs:134-160 | the lines of a text are the one way to cut it into pieces without CR or LF, put together by CRLF, CR or LF, with no CRLF cut in two |
| Sse.TerminatedAreLines | src/protocol/sse.rs:134-160 | what an event stream client takes for lines is every line of the text but the unterminated last |
| Sse.FormatRawDataFrame | src/protocol/sse.rs:119-128 | one data line per piece, then a blank line |
| Sse.FormatDataFrames | src/protocol/sse.rs:89-113 | one frame per message, or one array frame for JSON |
| Sse.ParseUndoesWire | src/protocol/sse.rs:42-46 | a client reading data, control and keep-alive frames sees exactly the frames written |
| Sse.ReceivedText | src/protocol/sse.rs:119-160 | a data event carries its text with breaks made LF and one leading space dropped per line |
| Sse.DataFramesRoundTrip | src/protocol/sse.rs:89-160 | parsing the formatted messages gives one event per message, one in all for JSON, each with its normalised text |
| Sse.PlainTextUnchanged | src/protocol/sse.rs:62-63 | text without breaks or a leading space, such as base64, arrives unchanged |
| OffsetCodec.EncodeOffset | src/protocol/offset.rs:197-212 | the filled array is the printed offset |
| OffsetCodec.ShowPrinted | src/protocol/offset.rs:71-80 | offsets print as `-1`, `now` or 33 characters around an underscore |
| OffsetCodec.DigitsPrinted | src/protocol/offset.rs:197-212 | each digit is the hexadecimal character of the nibble it stands for, highest first |
| OffsetCodec.DecodeHex16 | src/protocol/offset.rs:214-229 | succeeds iff there are 16 lowercase digits, with their value below 2^64 |
| OffsetCodec.FromStr | src/protocol/offset.rs:98-144 | accepts exactly `-1`, `now` and canonical strings, printing gives the string back, and errors name the first bad character |
| OffsetCodec.PrintThenParse | src/protocol/offset.rs:98-150 | every printed offset parses back |
| OffsetCodec.CompareIsByteOrder | src/protocol/offset.rs:175-182 | the mixed comparison is byte order of the printed strings |
| OffsetCodec.CompareIsBefore | src/protocol/offset.rs:158-182 | it is also the order of log positions, with equality as identity |
| OffsetCodec.CompareTotalOrder | src/protocol/offset.rs:175-182 | one total order with `-1` first and `now` last |
| Cursor.PackFaithfulExactly | src/protocol/cursor.rs:39 | the packed value gives the position back iff it is in range |
| Cursor.PackKeepsOrder | src/protocol/cursor.rs:39 | in range, packing keeps order and separates positions |
| Cursor.PackCollidesOnBytes | src/protocol/cursor.rs:39 | positions past 2^27 bytes collide |
| Cursor.PackCollidesOnSequence | src/protocol/cursor.rs:39 | sequence numbers 2^37 apart collide |
| Cursor.PackSafeExactly | src/protocol/cursor.rs:33-39 | the packed value of any 64-bit position is below 2^53 iff the low 37 bits of the sequence are below 2^26 and the byte offset below 2^53 |
| Cursor.Counter.Generate | src/protocol/cursor.rs:37-54 | the retry loop returns and stores the larger of the packed position and the last cursor plus one, below 2^53 iff both are |
| Cursor.CursorsIncrease | src/protocol/cursor.rs:40-48 | over every interleaving, short of wrap-around, cursors strictly increase in exchange order, between their own position and the highest one plus the number of exchanges |
| Cursor.ExchangeRaisesExactly | src/protocol/cursor.rs:41-48 | an exchange raises the counter iff it is not at its maximum |
| Cursor.CursorsSafeExactly | src/protocol/cursor.rs:33-48 | over every interleaving all cursors are below 2^53 iff no packed position, raised by one per later exchange, and no count of exchanges reaches it |
| Cursor.UnsafeFromAnotherStream | src/protocol/cursor.rs:33-48 | a run in which the position (0, 0) is given the cursor 2^53 |

## Left out

- redb, the file system, tokio channels and timers themselves; they are modelled as described above. After a failed sync a later successful sync is taken to cover the earlier bytes.
- A race inside src/storage/file.rs:461-479: readers share the position of a cloned file handle. A file read is one atomic positioned read here.
- Writers that still hold an entry of a deleted stream in memory and file. Their calls are atomic here, so byte accounting under concurrency is proved for ACID only.
- What a directory that could not be removed, or a metadata file of a failed creation, makes of the next restart; a failed stat after a failed write, which leaves the cached length behind.
- FileCrash: synced mode only, without sync an acknowledgement promises nothing about a crash; one stream up to its removal by deletion or expiry, with the bytes of other streams as a parameter of each write.
- Conditional requests in the live reader machine; entity tags are treated in Reading.
- Base64, lossy UTF-8 decoding and JSON serialisation, which are functions the model takes as parameters, but for the control payload. JSON bodies of catch-up reads (src/protocol/json_mode.rs) and the concatenation of message bodies.
- Request handling: routing, header and query parsing, status codes, src/handlers/post.rs, src/handlers/put.rs, src/handlers/head.rs, src/handlers/delete.rs, src/config.rs, TLS, CORS and logging.
- `head`, `exists` and creation times, which would only add easy members.
