/**
  The file backend (src/storage/file.rs): one record log and one metadata file per stream.
  Calls are atomic; an `Io` argument says how the write of the batch went.
 */
module FileStorage {
  import opened Types
  import opened Validation
  import opened LogSpec
  import opened Limiting
  import opened FileLog
  import opened FileIndex

  /** What `meta.json` holds. */
  datatype StreamMeta = StreamMeta(config: StreamConfig, closed: bool, lastSeq: Option<string>, producers: Producers)

  datatype StreamEntry = StreamEntry(
    config: StreamConfig,
    index: seq<MessageIndex>,
    closed: bool,
    nextReadSeq: nat,
    nextByteOffset: nat,
    totalBytes: nat,
    producers: Producers,
    lastSeq: Option<string>,
    file: seq<byte>,
    fileLen: nat)
  {
    function Next(): Offset {
      At(nextReadSeq, nextByteOffset)
    }

    function Meta(): StreamMeta {
      StreamMeta(config, closed, lastSeq, producers)
    }

    /** The entry fields an accepted producer append sets once its batch is in. */
    function Accept(p: ProducerHeaders, close: bool, streamSeq: Option<string>, now: int): (e: StreamEntry) {
      this.(lastSeq := CommitSeq(lastSeq, streamSeq),
            closed := closed || close,
            producers := producers[p.id := ProducerState(p.epoch, p.seqNo, now)])
    }
  }

  /** How writing and syncing a batch went; after a failure the cached length is refreshed. */
  datatype Io = Written | WriteFailed(partial: nat) | SyncFailed

  ghost predicate Located(e: StreamEntry, ms: seq<Bytes>) {
    && Placed(e.file, e.index, ms, e.Next(), |e.file|)
    && e.fileLen == |e.file| && e.totalBytes == e.nextByteOffset
  }

  ghost predicate Represents(e: StreamEntry, log: StreamLog) {
    && e.config == log.config && e.closed == log.closed && e.lastSeq == log.lastSeq && e.producers == log.producers
    && Located(e, log.messages)
  }

  /** The file is exactly the records of the log, and the index is the one recovery would build. */
  ghost predicate Clean(e: StreamEntry, ms: seq<Bytes>) {
    AllShort(ms) && e.file == Encode(ms) && Canonical(e.index, ms)
  }

  /** The metadata on disk is the log's, except for producers that were stale when a call evicted them. */
  ghost predicate Persisted(meta: StreamMeta, log: StreamLog, evicted: int) {
    && meta.config == log.config && meta.closed == log.closed && meta.lastSeq == log.lastSeq
    && (forall id :: id in log.producers ==> id in meta.producers && meta.producers[id] == log.producers[id])
    && (forall id :: id in meta.producers ==> id in log.producers || Stale(meta.producers[id], evicted))
  }

  /** A new entry on a log file that already holds `leftover` bytes. */
  function NewEntry(config: StreamConfig, leftover: seq<byte>): (e: StreamEntry)
    ensures Represents(e, EmptyLog(config))
    ensures leftover == [] ==> Clean(e, [])
  {
    StreamEntry(config, [], false, 0, 0, 0, map[], None, leftover, |leftover|)
  }

  method CheckSizes(batch: seq<Bytes>) returns (ok: bool)
    ensures ok <==> AllShort(batch)
    ensures ok <==> !HasLongRecord(batch)
  {
    for i := 0 to |batch|
      invariant forall k :: 0 <= k < i ==> Short(batch[k])
    {
      if |batch[i]| >= TWO32 {
        assert !Short(batch[i]);
        return false;
      }
    }
    ok := true;
    assert forall k :: 0 <= k < |batch| ==> Short(batch[k]);
  }

  /** The bytes of the batch that reach the file. */
  function Landed(batch: seq<Bytes>, io: Io): seq<byte>
    requires AllShort(batch)
  {
    if io.WriteFailed? && io.partial <= |Encode(batch)| then Encode(batch)[..io.partial] else Encode(batch)
  }

  /** The entry has come about by these writes. */
  ghost predicate Traced(e: StreamEntry, ps: seq<Piece>) {
    Proper(ps) && e.file == FileOf(ps) && e.index == LiveIndex(ps)
  }

  function PieceOf(batch: seq<Bytes>, io: Io): Piece
    requires AllShort(batch)
  {
    if io == Written then Indexed(batch) else Leftover(Landed(batch, io))
  }

  /** Write the batch at the end of the file and index it; a failed write leaves its bytes unindexed. */
  method WriteRecords(stream: StreamEntry, batch: seq<Bytes>, io: Io, ghost ms: seq<Bytes>)
    returns (ok: bool, e: StreamEntry)
    requires AllShort(batch) && Located(stream, ms)
    ensures ok <==> io == Written
    ensures e == stream.(index := e.index, nextReadSeq := e.nextReadSeq, nextByteOffset := e.nextByteOffset,
                         totalBytes := e.totalBytes, file := e.file, fileLen := e.fileLen)
    ensures Located(e, if ok then ms + batch else ms)
    ensures ok && Clean(stream, ms) ==> Clean(e, ms + batch)
    ensures e.file == stream.file + Landed(batch, io)
    ensures e.index == stream.index + if ok then Entries(|stream.file|, ms, batch) else []
  {
    var buf := WriteBuffer(batch);
    if io != Written {
      var left := if io.WriteFailed? && io.partial <= |buf| then buf[..io.partial] else buf;
      assert left == Landed(batch, io) && stream.index + [] == stream.index;
      IndexesGrow(stream.file, left, stream.index, ms);
      OrderedWiden(stream.index, |stream.file|, |stream.file + left|);
      e := stream.(file := stream.file + left, fileLen := |stream.file + left|);
      ok := false;
    } else {
      var index, next, cursor := PlaceBatch(stream.file, stream.index, stream.Next(), batch, ms);
      e := stream.(index := index, nextReadSeq := next.readSeq, nextByteOffset := next.byteOffset,
                   totalBytes := next.byteOffset, file := stream.file + buf, fileLen := cursor);
      ok := true;
      EntriesPlaced(e.file, stream.index, index, |stream.file|, ms, batch);
      if Clean(stream, ms) {
        CleanAppend(ms, stream.index, batch);
        EncodeAppend(ms, batch);
      }
    }
  }

  /** Writing, successfully or not, adds one piece to the trace of an entry. */
  lemma TraceGrows(stream: StreamEntry, e: StreamEntry, ps: seq<Piece>, batch: seq<Bytes>, io: Io)
    requires Traced(stream, ps) && AllShort(batch) && e.file == stream.file + Landed(batch, io)
    requires e.index == stream.index + if io == Written then Entries(|stream.file|, AckedOf(ps), batch) else []
    ensures Traced(e, ps + [PieceOf(batch, io)])
  {
    PiecesPush(ps, PieceOf(batch, io));
  }

  lemma LostBytes(m: Bytes)
    requires |m| + HEADER < TWO32
    ensures Landed([Record(m)], WriteFailed(HEADER)) == Le32(HEADER + |m|) && Landed([m], Written) == Record(m)
  {
    EncodeOne(m);
    EncodeOne(Record(m));
  }

  /** A write that fails after its four header bytes. */
  method TornStart(m: Bytes, config: StreamConfig) returns (torn: StreamEntry)
    requires |m| + HEADER < TWO32
    ensures Located(torn, []) && torn.file == Le32(HEADER + |m|)
  {
    LostBytes(m);
    var failed;
    failed, torn := WriteRecords(NewEntry(config, []), [Record(m)], WriteFailed(HEADER), []);
    assert [] + Le32(HEADER + |m|) == Le32(HEADER + |m|);
  }

  /** Then an append that is acknowledged. */
  method TornThenAcked(m: Bytes, config: StreamConfig) returns (e: StreamEntry, acked: bool)
    requires |m| + HEADER < TWO32
    ensures acked && Located(e, [m]) && e.file == Le32(HEADER + |m|) + Record(m)
  {
    var torn := TornStart(m, config);
    LostBytes(m);
    acked, e := WriteRecords(torn, [m], Written, []);
    assert [] + [m] == [m];
  }

  /** The acknowledged message is read back while the server runs; after a restart another one is in its place. */
  method LoseAcked(m: Bytes, config: StreamConfig) returns (e: StreamEntry, acked: bool, after: StreamEntry)
    requires |m| + HEADER < TWO32
    ensures acked && Located(e, [m])
    ensures Located(after, [Record(m)]) && m != Record(m)
  {
    e, acked := TornThenAcked(m, config);
    after := Open(OnDisk(StreamMeta(config, false, None, map[]), e.file));
    HeaderSwallows(m);
  }

  /** The outcome of a call whose write ends in `io`, when it would be `out` otherwise. */
  function WithIo(io: Io, s: Store, c: Call, now: int, out: Outcome): Outcome {
    if io != Written && BatchOf(c) != []
       && (out.reply.Appended? || out.reply.Accepted? || (out.reply.CreatedWith? && out.reply.isNew))
    then Outcome(Refused(true, s, c, now), Failed(StorageFailure))
    else out
  }

  /** One stream in memory, and on disk when no write to it has failed, against its log. */
  ghost predicate Fits(e: StreamEntry, meta: StreamMeta, log: StreamLog, isClean: bool, evicted: int) {
    Represents(e, log) && (isClean ==> Clean(e, log.messages) && Persisted(meta, log, evicted))
  }

  ghost predicate FitsAt(n: string, streams: map<string, StreamEntry>, metas: map<string, StreamMeta>, store: Store,
                         clean: set<string>, evicted: int)
    requires n in streams && n in metas && n in store
  {
    Fits(streams[n], metas[n], store[n], n in clean, evicted)
  }

  /** Index, files, metadata and byte counter agree with the abstract store. */
  ghost predicate Consistent(streams: map<string, StreamEntry>, metas: map<string, StreamMeta>, total: nat,
                             store: Store, clean: set<string>, evicted: int) {
    && streams.Keys == store.Keys == metas.Keys && clean <= streams.Keys
    && (forall n {:trigger FitsAt(n, streams, metas, store, clean, evicted)} :: n in streams ==>
        FitsAt(n, streams, metas, store, clean, evicted))
    && total == Total(store)
  }

  lemma Known(streams: map<string, StreamEntry>, metas: map<string, StreamMeta>, total: nat, store: Store,
              clean: set<string>, evicted: int, name: string)
    requires Consistent(streams, metas, total, store, clean, evicted) && name in streams
    ensures Fits(streams[name], metas[name], store[name], name in clean, evicted)
  {
    assert FitsAt(name, streams, metas, store, clean, evicted);
  }

  /** What the calls know of the log file. */
  lemma KnownLog(streams: map<string, StreamEntry>, metas: map<string, StreamMeta>, total: nat, store: Store,
                 clean: set<string>, evicted: int, name: string)
    requires Consistent(streams, metas, total, store, clean, evicted) && name in streams
    ensures Represents(streams[name], store[name]) && (name in clean ==> Clean(streams[name], store[name].messages))
  {
    Known(streams, metas, total, store, clean, evicted, name);
  }

  /** What the calls look at before they write. */
  lemma Header(streams: map<string, StreamEntry>, metas: map<string, StreamMeta>, total: nat, store: Store,
               clean: set<string>, evicted: int, name: string)
    requires Consistent(streams, metas, total, store, clean, evicted) && name in streams
    ensures var e, log := streams[name], store[name];
            && e.config == log.config && e.closed == log.closed && e.lastSeq == log.lastSeq
            && e.producers == log.producers
            && e.Next() == NextOffset(log.messages) && e.totalBytes == SumLen(log.messages)
  {
    Known(streams, metas, total, store, clean, evicted, name);
  }

  lemma ConsistentLater(streams: map<string, StreamEntry>, metas: map<string, StreamMeta>, total: nat, store: Store,
                        clean: set<string>, evicted: int, later: int)
    requires Consistent(streams, metas, total, store, clean, evicted) && evicted <= later
    ensures Consistent(streams, metas, total, store, clean, later)
  {
    forall n | n in streams ensures FitsAt(n, streams, metas, store, clean, later) {
      Known(streams, metas, total, store, clean, evicted, n);
    }
  }

  // ------------------------------------------------------------- restart

  datatype OnDisk = OnDisk(meta: StreamMeta, log: seq<byte>)

  /** What a restart makes of one stream directory. */
  function Restored(d: OnDisk): StreamLog {
    StreamLog(d.meta.config, Parse(d.log), d.meta.closed, d.meta.lastSeq, d.meta.producers)
  }

  /** What a restart makes of the storage directory. */
  function Recovered(disk: map<string, OnDisk>, now: int): Store {
    map n | n in disk && !Expired(disk[n].meta.config, now) :: Restored(disk[n])
  }

  lemma RecoveredOne(disk: map<string, OnDisk>, pending: set<string>, n: string, now: int)
    requires n in disk && n in pending
    ensures Recovered(disk - (pending - {n}), now) ==
            if Expired(disk[n].meta.config, now) then Recovered(disk - pending, now)
            else Recovered(disk - pending, now)[n := Restored(disk[n])]
    ensures n !in Recovered(disk - pending, now)
  {}

  function OnDiskOf(streams: map<string, StreamEntry>, metas: map<string, StreamMeta>): map<string, OnDisk>
    requires streams.Keys == metas.Keys
  {
    map n | n in streams :: OnDisk(metas[n], streams[n].file)
  }

  /**
    Without failed writes a restart gives back every unexpired stream: same messages, closed
    flag and Stream-Seq, and the same producers but for those stale by then.
   */
  lemma RestartRestores(streams: map<string, StreamEntry>, metas: map<string, StreamMeta>, total: nat, store: Store,
                        clean: set<string>, evicted: int, now: int, name: string)
    requires Consistent(streams, metas, total, store, clean, evicted) && evicted <= now
    requires name in clean
    ensures var after := Recovered(OnDiskOf(streams, metas), now);
            && (name in after <==> !Expired(store[name].config, now))
            && (name in after ==> Cleaned(after[name], now) == Cleaned(store[name], now))
  {
    Known(streams, metas, total, store, clean, evicted, name);
    ParseEncoded(store[name].messages, []);
    assert Encode(store[name].messages) + [] == Encode(store[name].messages);
    assert Parse([]) == [] && store[name].messages + [] == store[name].messages;
    LiveModuloStale(metas[name].producers, store[name].producers, evicted, now);
  }

  lemma LiveModuloStale(onDisk: Producers, kept: Producers, evicted: int, now: int)
    requires evicted <= now
    requires forall id :: id in kept ==> id in onDisk && onDisk[id] == kept[id]
    requires forall id :: id in onDisk ==> id in kept || Stale(onDisk[id], evicted)
    ensures Live(onDisk, now) == Live(kept, now)
  {}

  lemma ConsistentPut(streams: map<string, StreamEntry>, metas: map<string, StreamMeta>, total: nat, store: Store,
                      clean: set<string>, evicted: int, name: string, e: StreamEntry, meta: StreamMeta, log: StreamLog,
                      isClean: bool)
    requires Consistent(streams, metas, total, store, clean, evicted) && Fits(e, meta, log, isClean, evicted)
    ensures Consistent(streams[name := e], metas[name := meta], Total(store[name := log]), store[name := log],
                       if isClean then clean + {name} else clean - {name}, evicted)
  {
    var clean' := if isClean then clean + {name} else clean - {name};
    var streams', metas', store' := streams[name := e], metas[name := meta], store[name := log];
    forall n | n in streams'
      ensures FitsAt(n, streams', metas', store', clean', evicted)
    {
      if n != name { Known(streams, metas, total, store, clean, evicted, n); }
    }
  }

  lemma ConsistentRemove(streams: map<string, StreamEntry>, metas: map<string, StreamMeta>, total: nat, store: Store,
                         clean: set<string>, evicted: int, name: string)
    requires Consistent(streams, metas, total, store, clean, evicted)
    ensures Consistent(streams - {name}, metas - {name}, Total(store - {name}), store - {name}, clean - {name}, evicted)
  {
    var streams', metas', store', clean' := streams - {name}, metas - {name}, store - {name}, clean - {name};
    forall n | n in streams'
      ensures FitsAt(n, streams', metas', store', clean', evicted)
    {
      Known(streams, metas, total, store, clean, evicted, n);
    }
  }

  /** An entry read back from disk, its log cut after the last whole record. */
  method Open(d: OnDisk) returns (e: StreamEntry)
    ensures Represents(e, Restored(d)) && Clean(e, Parse(d.log))
    ensures e.Meta() == d.meta
  {
    var index, nextReadSeq, nextByteOffset, kept := RebuildIndex(d.log);
    CanonicalPlaced(index, Parse(d.log));
    e := StreamEntry(d.meta.config, index, d.meta.closed, nextReadSeq, nextByteOffset, nextByteOffset,
                     d.meta.producers, d.meta.lastSeq, kept, |kept|);
  }

  class FileStorage {
    var streams: map<string, StreamEntry>
    var totalBytes: nat
    const limits: Limits
    /** Metadata files on disk. */
    var metas: map<string, StreamMeta>
    /** Names whose subscribers were notified, in order. */
    var sent: seq<string>
    /** The abstract store this one represents. */
    ghost var store: Store
    /** Streams whose log started empty and which never saw a failed write. */
    ghost var clean: set<string>
    /** The latest time at which a call evicted producers. */
    ghost var evicted: int
    /** Bytes counted for batches of creations that failed at their metadata. */
    ghost var leaked: nat

    ghost predicate Valid()
      reads this
    {
      Consistent(streams, metas, Total(store), store, clean, evicted)
      && totalBytes == Total(store) + leaked && leaked <= limits.maxTotal
    }

    /** The limits as they act with the leaked bytes still counted. */
    ghost function Room(): Limits
      reads this
    {
      if leaked <= limits.maxTotal then limits.(maxTotal := limits.maxTotal - leaked) else limits
    }

    constructor (limits: Limits)
      ensures Valid() && store == map[] && sent == [] && leaked == 0 && this.limits == limits
    {
      this.limits := limits;
      streams, store, metas, sent, clean, evicted, leaked := map[], map[], map[], [], {}, 0, 0;
      totalBytes := 0;
      assert ByteSizes(map[]) == map[];
    }

    /** `load_existing_streams`: rebuild every index, drop what has expired, add up the bytes. */
    constructor Load(limits: Limits, disk: map<string, OnDisk>, now: int)
      ensures Valid() && sent == [] && leaked == 0 && this.limits == limits
      ensures store == Recovered(disk, now) && clean == store.Keys
    {
      this.limits := limits;
      streams, store, metas, sent, clean, evicted, leaked := map[], map[], map[], [], {}, now, 0;
      totalBytes := 0;
      new;
      var pending := disk.Keys;
      assert ByteSizes(map[]) == map[];
      assert Recovered(disk - pending, now) == map[];
      while pending != {}
        invariant Valid() && pending <= disk.Keys && sent == [] && leaked == 0
        invariant store == Recovered(disk - pending, now) && clean == store.Keys
      {
        var name :| name in pending;
        RecoveredOne(disk, pending, name, now);
        LoadOne(name, disk[name], now);
        pending := pending - {name};
      }
      assert disk - {} == disk;
    }

    method LoadOne(name: string, d: OnDisk, now: int)
      requires Valid() && name !in store && clean == store.Keys
      modifies this`streams, this`store, this`metas, this`clean, this`totalBytes
      ensures Valid() && clean == store.Keys
      ensures store == if Expired(d.meta.config, now) then old(store) else old(store)[name := Restored(d)]
    {
      var e := Open(d);
      if !Expired(e.config, now) {
        NewTotal(store, name, Restored(d));
        totalBytes := totalBytes + e.totalBytes;
        Put(name, e, e.Meta(), Restored(d), true);
      }
    }

    /** Replace a stream's entry and metadata; its bytes are already counted. */
    method Put(name: string, e: StreamEntry, meta: StreamMeta, ghost log: StreamLog, ghost isClean: bool)
      requires Consistent(streams, metas, Total(store), store, clean, evicted) && Fits(e, meta, log, isClean, evicted)
      requires totalBytes == Total(store[name := log]) + leaked && leaked <= limits.maxTotal
      modifies this`streams, this`store, this`metas, this`clean
      ensures Valid() && store == old(store)[name := log]
      ensures streams == old(streams)[name := e] && metas == old(metas)[name := meta]
      ensures clean == if isClean then old(clean) + {name} else old(clean) - {name}
    {
      ConsistentPut(streams, metas, Total(store), store, clean, evicted, name, e, meta, log, isClean);
      streams, store, metas := streams[name := e], store[name := log], metas[name := meta];
      clean := if isClean then clean + {name} else clean - {name};
    }

    /** `append_records`: sizes, then both limits, then the write. */
    method AppendRecords(stream: StreamEntry, batch: seq<Bytes>, io: Io, ghost log: StreamLog)
      returns (error: Option<Error>, e: StreamEntry)
      requires Represents(stream, log) && leaked <= totalBytes && leaked <= limits.maxTotal
      modifies this`totalBytes
      ensures totalBytes <= old(totalBytes) || totalBytes <= limits.maxTotal
      ensures error == WriteError(old(Room()), old(totalBytes) - leaked, SumLen(log.messages), batch, io)
      ensures totalBytes == if error.None? then old(totalBytes) + SumLen(batch) else old(totalBytes)
      ensures error.None? ==> Represents(e, log.(messages := log.messages + batch))
      ensures error.Some? ==> Represents(e, log)
      ensures error.None? && Clean(stream, log.messages) ==> Clean(e, log.messages + batch)
      ensures error.Some? && error != Some(StorageFailure) ==> e == stream
    {
      if batch == [] {
        assert log.messages + batch == log.messages;
        return None, stream;
      }
      var bytes;
      error, bytes := ReserveBytes(stream.totalBytes, batch);
      if error.Some? { return error, stream; }
      var ok;
      ok, e := WriteRecords(stream, batch, io, log.messages);
      if !ok {
        totalBytes := SaturatingSub(totalBytes, bytes);
        error := Some(StorageFailure);
      }
    }

    /** Sizes, then both limits; on success the batch is counted. */
    method ReserveBytes(streamBytes: nat, batch: seq<Bytes>) returns (error: Option<Error>, bytes: nat)
      requires batch != [] && leaked <= totalBytes && leaked <= limits.maxTotal
      modifies this`totalBytes
      ensures totalBytes <= old(totalBytes) || totalBytes <= limits.maxTotal
      ensures error == LimitError(File, old(Room()), old(totalBytes) - leaked, streamBytes, batch)
      ensures error.None? ==> AllShort(batch)
      ensures bytes == if error.None? then SumLen(batch) else 0
      ensures totalBytes == old(totalBytes) + bytes
    {
      var short := CheckSizes(batch);
      if !short { return Some(RecordTooLarge), 0; }
      bytes := BatchBytes(batch);
      if totalBytes + bytes > limits.maxTotal { return Some(MemoryLimitExceeded), 0; }
      if streamBytes + bytes > limits.maxStream { return Some(StreamSizeLimitExceeded), 0; }
      totalBytes := totalBytes + bytes;
      error := None;
    }

    method AppendExisting(name: string, batch: seq<Bytes>, contentType: string, streamSeq: Option<string>, now: int,
                          io: Io, metaOk: bool)
      returns (error: Option<Error>)
      requires Valid() && name in streams && batch != []
      modifies this`streams, this`store, this`metas, this`clean, this`totalBytes
      ensures totalBytes <= old(totalBytes) || totalBytes <= limits.maxTotal
      ensures Valid() && name in streams
      ensures AppendedWithIo(io, old(Room()), old(store), name, batch, contentType, streamSeq, now, store, error)
    {
      Header(streams, metas, Total(store), store, clean, evicted, name);
      var stream := streams[name];
      error := AppendRefusal(stream.config, stream.closed, stream.lastSeq, contentType, streamSeq, now);
      if error.None? {
        error := CommitAppend(name, batch, streamSeq, io, metaOk);
      }
    }

    /** The metadata file is rewritten, if that succeeds, only when the append carries a Stream-Seq. */
    method CommitAppend(name: string, batch: seq<Bytes>, streamSeq: Option<string>, io: Io, metaOk: bool)
      returns (error: Option<Error>)
      requires Valid() && name in streams && batch != []
      modifies this`streams, this`store, this`metas, this`clean, this`totalBytes
      ensures totalBytes <= old(totalBytes) || totalBytes <= limits.maxTotal
      ensures Valid() && name in streams
      ensures error == WriteError(old(Room()), Total(old(store)), SumLen(old(store)[name].messages), batch, io)
      ensures store == if error.None? then AppendStore(old(store), name, batch, streamSeq) else old(store)
    {
      KnownLog(streams, metas, Total(store), store, clean, evicted, name);
      var stream := streams[name];
      ghost var log := store[name];
      var e;
      error, e := AppendRecords(stream, batch, io, log);
      if error == Some(StorageFailure) {
        KeepTorn(name, e);
      } else if error.None? {
        AcceptAppended(name, e, batch, streamSeq, metaOk);
      }
    }

    /** A failed write leaves its bytes in the file and nothing else. */
    method KeepTorn(name: string, e: StreamEntry)
      requires Valid() && name in streams && Represents(e, store[name])
      modifies this`streams, this`store, this`metas, this`clean
      ensures Valid() && name in streams && store == old(store)
    {
      SameBytes(store, name, store[name]);
      assert store[name := store[name]] == store;
      Put(name, e, metas[name], store[name], false);
    }

    method AcceptAppended(name: string, stream: StreamEntry, batch: seq<Bytes>, streamSeq: Option<string>, metaOk: bool)
      requires Consistent(streams, metas, Total(store), store, clean, evicted) && name in streams
               && leaked <= limits.maxTotal
      requires totalBytes == Total(store) + SumLen(batch) + leaked
      requires Represents(stream, store[name].(messages := store[name].messages + batch))
      requires name in clean ==> Clean(stream, store[name].messages + batch)
      modifies this`streams, this`store, this`metas, this`clean
      ensures Valid() && name in streams && store == AppendStore(old(store), name, batch, streamSeq)
    {
      Known(streams, metas, Total(store), store, clean, evicted, name);
      var meta, e := metas[name], stream.(lastSeq := CommitSeq(stream.lastSeq, streamSeq));
      ghost var log := AppendLog(store[name], batch, streamSeq);
      PutTotal(store, name, batch, log);
      Put(name, e, if streamSeq.Some? && metaOk then e.Meta() else meta, log,
          name in clean && (streamSeq.None? || metaOk));
    }

    method AppendOne(name: string, data: Bytes, contentType: string, now: int, io: Io) returns (r: Reply)
      requires Valid() && name in streams
      modifies this`streams, this`store, this`metas, this`clean, this`totalBytes
      ensures totalBytes <= old(totalBytes) || totalBytes <= limits.maxTotal
      ensures Valid()
      ensures var c := Types.Append(name, data, contentType);
              Outcome(store, r) == WithIo(io, old(store), c, now, Apply(File, old(Room()), old(store), c, now))
      ensures r.Appended? || r.Failed?
    {
      Header(streams, metas, Total(store), store, clean, evicted, name);
      var offset := streams[name].Next();
      var error := AppendExisting(name, [data], contentType, None, now, io, true);
      r := if error.Some? then Failed(error.value) else Appended(offset);
      AppendIoApplied(io, old(Room()), old(store), name, data, contentType, now, store, error);
    }

    method Append(name: string, data: Bytes, contentType: string, now: int, io: Io) returns (r: Reply)
      requires Valid()
      modifies this`streams, this`store, this`metas, this`clean, this`totalBytes, this`sent
      ensures totalBytes <= old(totalBytes) || totalBytes <= limits.maxTotal
      ensures Valid() && leaked == old(leaked)
      ensures var c := Types.Append(name, data, contentType);
              Outcome(store, r) == WithIo(io, old(store), c, now, Apply(File, old(Room()), old(store), c, now))
      ensures sent == old(sent) + Told(File, Types.Append(name, data, contentType), r)
    {
      if name !in streams {
        r := Failed(NotFound);
        MissingIo(io, Room(), store, Types.Append(name, data, contentType), now);
      } else {
        r := AppendOne(name, data, contentType, now, io);
        if r.Appended? { sent := sent + [name]; }
      }
    }

    /** A failed metadata write only shows after a restart. */
    method BatchAppend(name: string, batch: seq<Bytes>, contentType: string, streamSeq: Option<string>, now: int,
                       io: Io, metaOk: bool) returns (r: Reply)
      requires Valid()
      modifies this`streams, this`store, this`metas, this`clean, this`totalBytes, this`sent
      ensures totalBytes <= old(totalBytes) || totalBytes <= limits.maxTotal
      ensures Valid() && leaked == old(leaked)
      ensures var c := Types.BatchAppend(name, batch, contentType, streamSeq);
              Outcome(store, r) == WithIo(io, old(store), c, now, Apply(File, old(Room()), old(store), c, now))
      ensures sent == old(sent) + Told(File, Types.BatchAppend(name, batch, contentType, streamSeq), r)
    {
      if batch == [] {
        r := Failed(EmptyBatch);
      } else if name !in streams {
        r := Failed(NotFound);
        MissingIo(io, Room(), store, Types.BatchAppend(name, batch, contentType, streamSeq), now);
      } else {
        r := AppendBatch(name, batch, contentType, streamSeq, now, io, metaOk);
        if r.Appended? { sent := sent + [name]; }
      }
    }

    method AppendBatch(name: string, batch: seq<Bytes>, contentType: string, streamSeq: Option<string>, now: int,
                       io: Io, metaOk: bool) returns (r: Reply)
      requires Valid() && name in streams && batch != []
      modifies this`streams, this`store, this`metas, this`clean, this`totalBytes
      ensures totalBytes <= old(totalBytes) || totalBytes <= limits.maxTotal
      ensures Valid()
      ensures var c := Types.BatchAppend(name, batch, contentType, streamSeq);
              Outcome(store, r) == WithIo(io, old(store), c, now, Apply(File, old(Room()), old(store), c, now))
      ensures r.Appended? || r.Failed?
    {
      var error := AppendExisting(name, batch, contentType, streamSeq, now, io, metaOk);
      Header(streams, metas, Total(store), store, clean, evicted, name);
      r := if error.Some? then Failed(error.value) else Appended(streams[name].Next());
      BatchIoApplied(io, old(Room()), old(store), name, batch, contentType, streamSeq, now, store, error);
    }

    /** The eviction is kept in memory whatever follows; metadata is rewritten on acceptance only. */
    method AppendWithProducer(name: string, batch: seq<Bytes>, contentType: string, producer: ProducerHeaders,
                              close: bool, streamSeq: Option<string>, now: int, io: Io, metaOk: bool) returns (r: Reply)
      requires Valid()
      modifies this
      ensures totalBytes <= old(totalBytes) || totalBytes <= limits.maxTotal
      ensures Valid() && leaked == old(leaked)
      ensures var c := ProducerAppend(name, batch, contentType, producer, close, streamSeq);
              Outcome(store, r) == WithIo(io, old(store), c, now, Apply(File, old(Room()), old(store), c, now))
      ensures sent == old(sent) + Told(File, ProducerAppend(name, batch, contentType, producer, close, streamSeq), r)
    {
      ghost var c := ProducerAppend(name, batch, contentType, producer, close, streamSeq);
      if name in streams { Header(streams, metas, Total(store), store, clean, evicted, name); }
      if name !in streams {
        r := Failed(NotFound);
        MissingApplied(File, Room(), store, c, now);
      } else if Expired(streams[name].config, now) {
        r := Failed(StreamExpired);
        ExpiredProducerApplied(File, Room(), store, c, now);
      } else {
        r := EvictThenProduce(name, batch, contentType, producer, close, streamSeq, now, io, metaOk);
        if r.Accepted? && batch != [] { sent := sent + [name]; }
      }
    }

    method EvictThenProduce(name: string, batch: seq<Bytes>, contentType: string, producer: ProducerHeaders,
                            close: bool, streamSeq: Option<string>, now: int, io: Io, metaOk: bool) returns (r: Reply)
      requires Valid() && name in store && !Expired(store[name].config, now)
      modifies this`streams, this`store, this`metas, this`clean, this`evicted, this`totalBytes
      ensures totalBytes <= old(totalBytes) || totalBytes <= limits.maxTotal
      ensures Valid()
      ensures var c := ProducerAppend(name, batch, contentType, producer, close, streamSeq);
              Outcome(store, r) == WithIo(io, old(store), c, now, Apply(File, old(Room()), old(store), c, now))
    {
      ghost var c := ProducerAppend(name, batch, contentType, producer, close, streamSeq);
      ghost var room := Room();
      Evict(name, now);
      assert Room() == room;
      r := ProduceInto(name, batch, contentType, producer, close, streamSeq, now, io, metaOk);
      ProducerIoApplied(io, old(Room()), old(store), c, now, store, r);
    }

    /** `cleanup_stale_producers` on one stream; the metadata file keeps the old entries. */
    method Evict(name: string, now: int)
      requires Valid() && name in streams
      modifies this`streams, this`store, this`metas, this`clean, this`evicted
      ensures Valid() && name in streams && store == old(store)[name := Cleaned(old(store)[name], now)]
    {
      ghost var later := if evicted <= now then now else evicted;
      ConsistentLater(streams, metas, Total(store), store, clean, evicted, later);
      evicted := later;
      Known(streams, metas, Total(store), store, clean, evicted, name);
      var stream := streams[name];
      ghost var log := store[name];
      SameBytes(store, name, Cleaned(log, now));
      Put(name, stream.(producers := Live(stream.producers, now)), metas[name], Cleaned(log, now), name in clean);
    }

    method ProduceInto(name: string, batch: seq<Bytes>, contentType: string, producer: ProducerHeaders,
                       close: bool, streamSeq: Option<string>, now: int, io: Io, metaOk: bool) returns (r: Reply)
      requires Valid() && name in streams
      modifies this`streams, this`store, this`metas, this`clean, this`totalBytes
      ensures totalBytes <= old(totalBytes) || totalBytes <= limits.maxTotal
      ensures Valid()
      ensures ProducedWithIo(io, old(Room()), old(store),
                             ProducerAppend(name, batch, contentType, producer, close, streamSeq), now, store, r)
    {
      Header(streams, metas, Total(store), store, clean, evicted, name);
      var stream := streams[name];
      var stop := ProducerStop(stream.config, stream.closed, stream.lastSeq, stream.producers, stream.Next(),
                               batch, contentType, producer, streamSeq, now);
      if stop.Some? {
        r := stop.value;
      } else {
        r := CommitProduced(name, batch, producer, close, streamSeq, now, io, metaOk);
        ProducedCommitted(io, old(Room()), old(store),
                          ProducerAppend(name, batch, contentType, producer, close, streamSeq), now, store, r);
      }
    }

    method CommitProduced(name: string, batch: seq<Bytes>, producer: ProducerHeaders, close: bool,
                          streamSeq: Option<string>, now: int, io: Io, metaOk: bool) returns (r: Reply)
      requires Valid() && name in streams
      modifies this`streams, this`store, this`metas, this`clean, this`totalBytes
      ensures totalBytes <= old(totalBytes) || totalBytes <= limits.maxTotal
      ensures Valid()
      ensures var log := old(store)[name];
              CommittedWithIo(io, old(Room()), old(store), name, batch, producer,
                              ProducerCommit(log, batch, producer, close, streamSeq, now), store, r)
    {
      KnownLog(streams, metas, Total(store), store, clean, evicted, name);
      var stream := streams[name];
      ghost var log := store[name];
      assert totalBytes - leaked == Total(store);
      var error, e := AppendRecords(stream, batch, io, log);
      r := SettleProduced(name, error, e, batch, producer, close, streamSeq, now, metaOk);
    }

    /** What follows the write of a producer's batch, whether it failed or not. */
    method SettleProduced(name: string, error: Option<Error>, e: StreamEntry, batch: seq<Bytes>,
                          producer: ProducerHeaders, close: bool, streamSeq: Option<string>, now: int, metaOk: bool)
      returns (r: Reply)
      requires Consistent(streams, metas, Total(store), store, clean, evicted) && name in streams
               && leaked <= limits.maxTotal
      requires totalBytes == Total(store) + (if error.None? then SumLen(batch) else 0) + leaked
      requires error.None? ==> Represents(e, store[name].(messages := store[name].messages + batch))
      requires error.None? && name in clean ==> Clean(e, store[name].messages + batch)
      requires error.Some? ==> Represents(e, store[name])
      modifies this`streams, this`store, this`metas, this`clean
      ensures Valid()
      ensures if error.Some? then store == old(store) && r == Failed(error.value)
              else
                var log' := ProducerCommit(old(store)[name], batch, producer, close, streamSeq, now);
                && store == old(store)[name := log']
                && r == Accepted(producer.epoch, producer.seqNo, NextOffset(log'.messages), log'.closed)
    {
      if error.Some? {
        r := Failed(error.value);
        if error == Some(StorageFailure) { KeepTorn(name, e); }
      } else {
        r := AcceptProduced(name, e, batch, producer, close, streamSeq, now, metaOk);
      }
    }

    /**
      The batch of a producer append is written and counted; its headers go into the entry and, if
      possible, the metadata.
     */
    method AcceptProduced(name: string, stream: StreamEntry, batch: seq<Bytes>, producer: ProducerHeaders, close: bool,
                          streamSeq: Option<string>, now: int, metaOk: bool) returns (r: Reply)
      requires Consistent(streams, metas, Total(store), store, clean, evicted) && name in streams
               && leaked <= limits.maxTotal
      requires totalBytes == Total(store) + SumLen(batch) + leaked
      requires Represents(stream, store[name].(messages := store[name].messages + batch))
      requires name in clean ==> Clean(stream, store[name].messages + batch)
      modifies this`streams, this`store, this`metas, this`clean
      ensures Valid()
      ensures var log' := ProducerCommit(old(store)[name], batch, producer, close, streamSeq, now);
              && store == old(store)[name := log']
              && r == Accepted(producer.epoch, producer.seqNo, NextOffset(log'.messages), log'.closed)
    {
      var meta, e := metas[name], stream.Accept(producer, close, streamSeq, now);
      ghost var log' := ProducerCommit(store[name], batch, producer, close, streamSeq, now);
      PutTotal(store, name, batch, log');
      r := Accepted(producer.epoch, producer.seqNo, e.Next(), e.closed);
      Put(name, e, if metaOk then e.Meta() else meta, log', name in clean && metaOk);
    }

    /** Remove a stream's entry and directory, if any, and give its bytes back. */
    method Remove(name: string)
      requires Valid()
      modifies this`streams, this`store, this`metas, this`clean, this`totalBytes
      ensures Valid() && store == old(store) - {name} && totalBytes <= old(totalBytes) && name !in streams
    {
      if name in streams {
        Header(streams, metas, Total(store), store, clean, evicted, name);
        TotalUpdate(store, name, store[name]);
        totalBytes := SaturatingSub(totalBytes, streams[name].totalBytes);
      } else {
        assert store - {name} == store;
      }
      ConsistentRemove(streams, metas, Total(store), store, clean, evicted, name);
      streams, store, metas, clean := streams - {name}, store - {name}, metas - {name}, clean - {name};
    }

    /**
      `leftover` is what the log file already holds, after an earlier creation that never completed;
      `diskOk` says that the directories and the metadata file could be written.
     */
    method CreateStream(name: string, config: StreamConfig, leftover: seq<byte>, now: int, diskOk: bool)
      returns (r: Reply)
      requires Valid()
      modifies this`streams, this`store, this`metas, this`clean, this`totalBytes
      ensures totalBytes <= old(totalBytes) || totalBytes <= limits.maxTotal
      ensures Valid()
      ensures Outcome(store, r) ==
              if Occupied(old(store), name, now) || diskOk
              then Apply(File, old(Room()), old(store), Create(name, config), now)
              else Outcome(old(store) - {name}, Failed(StorageFailure))
      ensures r.Created? && leftover == [] ==> name in clean
      ensures sent == old(sent) + Told(File, Create(name, config), r)
    {
      if name in streams { Header(streams, metas, Total(store), store, clean, evicted, name); }
      if name in streams && !Expired(streams[name].config, now) {
        r := if SameConfig(streams[name].config, config) then AlreadyExists else Failed(ConfigMismatch);
      } else {
        Remove(name);
        if !diskOk { return Failed(StorageFailure); }
        var e := NewEntry(config, leftover);
        NewTotal(store, name, EmptyLog(config));
        Put(name, e, e.Meta(), EmptyLog(config), leftover == []);
        PutBack(old(store), name, EmptyLog(config));
        r := Created;
      }
    }

    /** When the metadata cannot be written, the entry is dropped but its bytes stay counted. */
    method CreateStreamWithData(name: string, config: StreamConfig, batch: seq<Bytes>, close: bool,
                                leftover: seq<byte>, now: int, io: Io, diskOk: bool, metaOk: bool) returns (r: Reply)
      requires Valid()
      modifies this`streams, this`store, this`metas, this`clean, this`totalBytes, this`leaked
      ensures totalBytes <= old(totalBytes) || totalBytes <= limits.maxTotal
      ensures Valid()
      ensures var c := CreateWithData(name, config, batch, close);
              var out := WithIo(io, old(store), c, now, Apply(File, old(Room()), old(store), c, now));
              if Occupied(old(store), name, now) then Outcome(store, r) == out && leaked == old(leaked)
              else if !diskOk then store == old(store) - {name} && r == Failed(StorageFailure) && leaked == old(leaked)
              else if out.reply.CreatedWith? && !metaOk then
                store == old(store) - {name} && r == Failed(StorageFailure) && leaked == old(leaked) + SumLen(batch)
              else Outcome(store, r) == out && leaked == old(leaked)
      ensures sent == old(sent) + Told(File, CreateWithData(name, config, batch, close), r)
    {
      if name in streams { Header(streams, metas, Total(store), store, clean, evicted, name); }
      if name in streams && !Expired(streams[name].config, now) {
        var stream := streams[name];
        r := if SameConfig(stream.config, config) then CreatedWith(false, stream.Next(), stream.closed)
             else Failed(ConfigMismatch);
      } else {
        r := CreateFree(name, config, batch, close, leftover, io, diskOk, metaOk);
      }
      if Occupied(old(store), name, now) || diskOk {
        FreshApplied(io, metaOk, old(Room()), old(store), CreateWithData(name, config, batch, close), now, store, r);
      }
    }

    /** Take a name that is free or whose stream has expired. */
    method CreateFree(name: string, config: StreamConfig, batch: seq<Bytes>, close: bool, leftover: seq<byte>, io: Io,
                      diskOk: bool, metaOk: bool) returns (r: Reply)
      requires Valid()
      modifies this`streams, this`store, this`metas, this`clean, this`totalBytes, this`leaked
      ensures totalBytes <= old(totalBytes) || totalBytes <= limits.maxTotal
      ensures Valid()
      ensures var error := WriteError(old(Room()), Total(old(store) - {name}), 0, batch, io);
              if diskOk && error.None? && metaOk then
                && store == old(store)[name := EmptyLog(config).(messages := batch, closed := close)]
                && r == CreatedWith(true, NextOffset(batch), close) && leaked == old(leaked)
              else
                && store == old(store) - {name}
                && r == Failed(if diskOk && error.Some? then error.value else StorageFailure)
                && leaked == old(leaked) + if diskOk && error.None? then SumLen(batch) else 0
    {
      ghost var room := Room();
      Remove(name);
      assert Room() == room;
      if !diskOk { return Failed(StorageFailure); }
      assert name !in streams;
      r := CreateFresh(name, config, batch, close, leftover, io, metaOk);
      PutBack(old(store), name, EmptyLog(config).(messages := batch, closed := close));
    }

    method CreateFresh(name: string, config: StreamConfig, batch: seq<Bytes>, close: bool, leftover: seq<byte>, io: Io,
                       metaOk: bool) returns (r: Reply)
      requires Valid() && name !in streams
      modifies this`streams, this`store, this`metas, this`clean, this`totalBytes, this`leaked
      ensures totalBytes <= old(totalBytes) || totalBytes <= limits.maxTotal
      ensures Valid()
      ensures var error := WriteError(old(Room()), Total(old(store)), 0, batch, io);
              if error.Some? then store == old(store) && r == Failed(error.value) && leaked == old(leaked)
              else if !metaOk
              then store == old(store) && r == Failed(StorageFailure) && leaked == old(leaked) + SumLen(batch)
              else store == old(store)[name := EmptyLog(config).(messages := batch, closed := close)]
                   && r == CreatedWith(true, NextOffset(batch), close) && leaked == old(leaked)
    {
      var error, e := AppendRecords(NewEntry(config, leftover), batch, io, EmptyLog(config));
      if error.Some? {
        r := Failed(error.value);
      } else {
        FreshEntry(e, config, batch, close);
        r := SettleFresh(name, e.(closed := close), EmptyLog(config).(messages := batch, closed := close), metaOk,
                         leftover == []);
      }
    }

    /** What follows the write of a new stream's batch: it is registered, or its bytes stay counted. */
    method SettleFresh(name: string, e: StreamEntry, ghost log: StreamLog, metaOk: bool, ghost isClean: bool)
      returns (r: Reply)
      requires Consistent(streams, metas, Total(store), store, clean, evicted) && name !in streams
      requires totalBytes == Total(store) + SumLen(log.messages) + leaked && leaked <= limits.maxTotal
      requires leaked + SumLen(log.messages) <= limits.maxTotal
      requires Represents(e, log) && (isClean ==> Clean(e, log.messages))
      modifies this`streams, this`store, this`metas, this`clean, this`leaked
      ensures Valid()
      ensures if metaOk
              then store == old(store)[name := log] && r == CreatedWith(true, NextOffset(log.messages), log.closed)
                   && leaked == old(leaked)
              else store == old(store) && r == Failed(StorageFailure) && leaked == old(leaked) + SumLen(log.messages)
    {
      if metaOk {
        r := Register(name, e, log, isClean);
      } else {
        Abandon(SumLen(log.messages));
        r := Failed(StorageFailure);
      }
    }

    /** Bytes were counted for a stream that does not come about. */
    ghost method Abandon(bytes: nat)
      requires Consistent(streams, metas, Total(store), store, clean, evicted)
      requires totalBytes == Total(store) + bytes + leaked && (leaked + bytes <= limits.maxTotal)
      modifies this`leaked
      ensures Valid() && leaked == old(leaked) + bytes
    {
      leaked := leaked + bytes;
    }

    /** Enter a new stream whose bytes are written and counted. */
    method Register(name: string, e: StreamEntry, ghost log: StreamLog, ghost isClean: bool) returns (r: Reply)
      requires Consistent(streams, metas, Total(store), store, clean, evicted) && name !in streams
               && leaked <= limits.maxTotal
      requires totalBytes == Total(store) + SumLen(log.messages) + leaked
      requires Represents(e, log) && (isClean ==> Clean(e, log.messages))
      modifies this`streams, this`store, this`metas, this`clean
      ensures Valid() && store == old(store)[name := log]
      ensures r == CreatedWith(true, NextOffset(log.messages), log.closed)
    {
      NewTotal(store, name, log);
      Put(name, e, e.Meta(), log, isClean);
      r := CreatedWith(true, e.Next(), e.closed);
    }

    /** Gaps left by failed writes never show: a read returns exactly the accepted messages. */
    method Read(name: string, from: Offset, now: int) returns (r: Reply)
      requires Valid()
      ensures r == Apply(File, Room(), store, Types.Read(name, from), now).reply
    {
      if name !in streams { return Failed(NotFound); }
      Known(streams, metas, Total(store), store, clean, evicted, name);
      var stream := streams[name];
      ghost var data := store[name].messages;
      if Expired(stream.config, now) { return Failed(StreamExpired); }
      if from.Now? { return Messages([], stream.Next(), true, stream.closed); }
      var start := 0;
      if from.At? { start := FindStart(stream.file, stream.index, from, data); }
      var messages := ReadMessages(stream.file, stream.index, start, data);
      r := Messages(messages, stream.Next(), start + |messages| >= |stream.index|, stream.closed);
    }

    /** When the directory cannot be removed the entry is gone all the same. */
    method Delete(name: string, dirOk: bool) returns (r: Reply)
      requires Valid()
      modifies this`streams, this`store, this`metas, this`clean, this`totalBytes
      ensures Valid()
      ensures var out := Apply(File, old(Room()), old(store), Types.Delete(name), 0);
              store == out.store && r == if out.reply.Done? && !dirOk then Failed(StorageFailure) else out.reply
      ensures sent == old(sent) + Told(File, Types.Delete(name), r)
    {
      if name in streams {
        Remove(name);
        r := if dirOk then Done else Failed(StorageFailure);
      } else {
        r := Failed(NotFound);
      }
    }

    method CloseEntry(name: string, metaOk: bool)
      requires Valid() && name in streams
      modifies this`streams, this`store, this`metas, this`clean
      ensures Valid() && store == old(store)[name := old(store)[name].(closed := true)]
    {
      Known(streams, metas, Total(store), store, clean, evicted, name);
      var e := streams[name].(closed := true);
      ghost var log := store[name].(closed := true);
      SameBytes(store, name, log);
      Put(name, e, if metaOk then e.Meta() else metas[name], log, name in clean && metaOk);
    }

    /** When the metadata cannot be written the stream is closed all the same, but nobody is told. */
    method CloseStream(name: string, now: int, metaOk: bool) returns (r: Reply)
      requires Valid()
      modifies this`streams, this`store, this`metas, this`clean, this`sent
      ensures Valid() && leaked == old(leaked)
      ensures var out := Apply(File, old(Room()), old(store), Close(name), now);
              store == out.store && r == if out.reply.Done? && !metaOk then Failed(StorageFailure) else out.reply
      ensures sent == old(sent) + Told(File, Close(name), r)
    {
      CloseApplied(Room(), store, name, now);
      if name !in streams { return Failed(NotFound); }
      Header(streams, metas, Total(store), store, clean, evicted, name);
      if Expired(streams[name].config, now) {
        r := Failed(StreamExpired);
      } else {
        CloseEntry(name, metaOk);
        r := Failed(StorageFailure);
        if metaOk {
          sent := sent + [name];
          r := Done;
        }
      }
    }
  }

  // ------------------------------------------ calls whose write may fail

  /** Limits first; past them a non-empty batch is lost when its write or sync fails. */
  function WriteError(lim: Limits, total: nat, streamBytes: nat, batch: seq<Bytes>, io: Io): Option<Error> {
    var limit := LimitError(File, lim, total, streamBytes, batch);
    if limit.Some? then limit
    else if batch != [] && io != Written then Some(StorageFailure)
    else None
  }

  lemma MissingIo(io: Io, lim: Limits, s: Store, c: Call, now: int)
    requires c.name !in s && (c.Append? || (c.BatchAppend? && c.messages != []))
    ensures Outcome(s, Failed(NotFound)) == WithIo(io, s, c, now, Apply(File, lim, s, c, now))
    ensures Told(File, c, Failed(NotFound)) == []
  {
    MissingApplied(File, lim, s, c, now);
  }

  /** A close answers NotFound, StreamExpired or Done, and notifies in the last case. */
  lemma CloseApplied(lim: Limits, s: Store, name: string, now: int)
    ensures var out := Apply(File, lim, s, Close(name), now);
            if name !in s then out == Outcome(s, Failed(NotFound))
            else if Expired(s[name].config, now) then out == Outcome(s, Failed(StreamExpired))
            else out == Outcome(s[name := s[name].(closed := true)], Done)
    ensures Told(File, Close(name), Done) == [name]
    ensures forall e :: Told(File, Close(name), Failed(e)) == []
  {}

  lemma FreshEntry(e: StreamEntry, config: StreamConfig, batch: seq<Bytes>, close: bool)
    requires Represents(e, EmptyLog(config).(messages := EmptyLog(config).messages + batch))
    ensures Represents(e.(closed := close), EmptyLog(config).(messages := batch, closed := close))
    ensures EmptyLog(config).messages + batch == batch
  {
    assert [] + batch == batch;
  }

  ghost predicate AppendedWithIo(io: Io, lim: Limits, s: Store, name: string, batch: seq<Bytes>, contentType: string,
                                 streamSeq: Option<string>, now: int, s': Store, error: Option<Error>)
    requires name in s
  {
    if error == Some(StorageFailure) then
      && io != Written && s' == s
      && AppendedOrNot(File, lim, s, name, batch, contentType, streamSeq, now, AppendStore(s, name, batch, streamSeq),
                       None)
    else
      && AppendedOrNot(File, lim, s, name, batch, contentType, streamSeq, now, s', error)
      && (error.None? ==> io == Written)
  }

  lemma AppendIoApplied(io: Io, lim: Limits, s: Store, name: string, data: Bytes, contentType: string, now: int,
                        s': Store, error: Option<Error>)
    requires name in s && AppendedWithIo(io, lim, s, name, [data], contentType, None, now, s', error)
    ensures var c := Append(name, data, contentType);
            Outcome(s', if error.Some? then Failed(error.value) else Appended(NextOffset(s[name].messages)))
            == WithIo(io, s, c, now, Apply(File, lim, s, c, now))
  {
    if error == Some(StorageFailure) {
      AppendApplied(File, lim, s, name, data, contentType, now, AppendStore(s, name, [data], None), None);
    } else {
      AppendApplied(File, lim, s, name, data, contentType, now, s', error);
    }
  }

  lemma BatchIoApplied(io: Io, lim: Limits, s: Store, name: string, batch: seq<Bytes>, contentType: string,
                       streamSeq: Option<string>, now: int, s': Store, error: Option<Error>)
    requires name in s && batch != [] && AppendedWithIo(io, lim, s, name, batch, contentType, streamSeq, now, s', error)
    requires error.None? ==> name in s'
    ensures var c := BatchAppend(name, batch, contentType, streamSeq);
            Outcome(s', if error.Some? then Failed(error.value) else Appended(NextOffset(s'[name].messages)))
            == WithIo(io, s, c, now, Apply(File, lim, s, c, now))
  {
    if error == Some(StorageFailure) {
      BatchApplied(File, lim, s, name, batch, contentType, streamSeq, now, AppendStore(s, name, batch, streamSeq),
                   None);
    } else {
      BatchApplied(File, lim, s, name, batch, contentType, streamSeq, now, s', error);
    }
  }

  /** What is left of a producer append once it has passed every check but the limits. */
  ghost predicate CommittedWithIo(io: Io, lim: Limits, s: Store, name: string, batch: seq<Bytes>, p: ProducerHeaders,
                                  log': StreamLog, s': Store, r: Reply)
    requires name in s
  {
    var error := WriteError(lim, Total(s), SumLen(s[name].messages), batch, io);
    if error.Some? then s' == s && r == Failed(error.value)
    else s' == s[name := log'] && r == Accepted(p.epoch, p.seqNo, NextOffset(log'.messages), log'.closed)
  }

  lemma ProducedCommitted(io: Io, lim: Limits, s: Store, c: Call, now: int, s': Store, r: Reply)
    requires c.ProducerAppend? && c.name in s
    requires var log := s[c.name];
             && ProducerStop(log.config, log.closed, log.lastSeq, log.producers, NextOffset(log.messages),
                             c.messages, c.contentType, c.producer, c.streamSeq, now).None?
             && CommittedWithIo(io, lim, s, c.name, c.messages, c.producer,
                                ProducerCommit(log, c.messages, c.producer, c.close, c.streamSeq, now), s', r)
    ensures ProducedWithIo(io, lim, s, c, now, s', r)
  {}

  /** The store and reply an accepted producer append gives. */
  function ProducedOutcome(s: Store, c: Call, now: int): Outcome
    requires c.ProducerAppend? && c.name in s
  {
    var log' := ProducerCommit(s[c.name], c.messages, c.producer, c.close, c.streamSeq, now);
    Outcome(s[c.name := log'], Accepted(c.producer.epoch, c.producer.seqNo, NextOffset(log'.messages), log'.closed))
  }

  ghost predicate ProducedWithIo(io: Io, lim: Limits, s: Store, c: Call, now: int, s': Store, r: Reply)
    requires c.ProducerAppend? && c.name in s
  {
    if r == Failed(StorageFailure) then
      && io != Written && c.messages != [] && s' == s
      && ProducedInto(File, lim, s, c, now, ProducedOutcome(s, c, now).store, ProducedOutcome(s, c, now).reply)
    else
      && ProducedInto(File, lim, s, c, now, s', r)
      && (r.Accepted? ==> io == Written || c.messages == [])
  }

  lemma ProducerIoApplied(io: Io, lim: Limits, s: Store, c: Call, now: int, s': Store, r: Reply)
    requires c.ProducerAppend? && c.name in s && !Expired(s[c.name].config, now)
    requires ProducedWithIo(io, lim, s[c.name := Cleaned(s[c.name], now)], c, now, s', r)
    ensures Outcome(s', r) == WithIo(io, s, c, now, Apply(File, lim, s, c, now))
  {
    var cleaned := s[c.name := Cleaned(s[c.name], now)];
    if r == Failed(StorageFailure) {
      var out := ProducedOutcome(cleaned, c, now);
      ProducerApplied(File, lim, s, c, now, out.store, out.reply);
      assert Refused(true, s, c, now) == cleaned;
    } else {
      ProducerApplied(File, lim, s, c, now, s', r);
    }
  }

  /** A create with data whose directories were there: it fails at its metadata only once all else has gone well. */
  lemma FreshApplied(io: Io, metaOk: bool, lim: Limits, s: Store, c: Call, now: int, s': Store, r: Reply)
    requires c.CreateWithData?
    requires var log := EmptyLog(c.config).(messages := c.messages, closed := c.close);
             var error := WriteError(lim, Total(s - {c.name}), 0, c.messages, io);
             if Occupied(s, c.name, now) then CreatedOrNot(File, lim, s, c, now, s', r)
             else if error.Some? then s' == s - {c.name} && r == Failed(error.value)
             else if !metaOk then s' == s - {c.name} && r == Failed(StorageFailure)
             else s' == s[c.name := log] && r == CreatedWith(true, NextOffset(c.messages), c.close)
    ensures var out := WithIo(io, s, c, now, Apply(File, lim, s, c, now));
            var error := WriteError(lim, Total(s - {c.name}), 0, c.messages, io);
            && (!Occupied(s, c.name, now) ==> (out.reply.CreatedWith? <==> error.None?))
            && (Occupied(s, c.name, now) || error.Some? || metaOk ==> Outcome(s', r) == out)
  {
    var log := EmptyLog(c.config).(messages := c.messages, closed := c.close);
    if !Occupied(s, c.name, now) && WriteError(lim, Total(s - {c.name}), 0, c.messages, io).None? {
      CreateIoApplied(io, lim, s, c, now, s[c.name := log], CreatedWith(true, NextOffset(c.messages), c.close));
    } else {
      CreateIoApplied(io, lim, s, c, now, s', r);
    }
  }

  lemma CreateIoApplied(io: Io, lim: Limits, s: Store, c: Call, now: int, s': Store, r: Reply)
    requires c.CreateWithData?
    requires var log := EmptyLog(c.config).(messages := c.messages, closed := c.close);
             var error := WriteError(lim, Total(s - {c.name}), 0, c.messages, io);
             if Occupied(s, c.name, now) then CreatedOrNot(File, lim, s, c, now, s', r)
             else if error.Some? then s' == s - {c.name} && r == Failed(error.value)
             else s' == s[c.name := log] && r == CreatedWith(true, NextOffset(c.messages), c.close)
    ensures Outcome(s', r) == WithIo(io, s, c, now, Apply(File, lim, s, c, now))
  {
    var log := EmptyLog(c.config).(messages := c.messages, closed := c.close);
    var error := WriteError(lim, Total(s - {c.name}), 0, c.messages, io);
    if !Occupied(s, c.name, now) && error == Some(StorageFailure) {
      CreateDataApplied(File, lim, s, c, now, s[c.name := log], CreatedWith(true, NextOffset(c.messages), c.close));
      if c.name !in s { assert s - {c.name} == s; }
    } else {
      CreateDataApplied(File, lim, s, c, now, s', r);
    }
  }

  function AppendLog(log: StreamLog, batch: seq<Bytes>, streamSeq: Option<string>): StreamLog {
    log.(messages := log.messages + batch, lastSeq := CommitSeq(log.lastSeq, streamSeq))
  }

  function AppendStore(s: Store, name: string, batch: seq<Bytes>, streamSeq: Option<string>): Store
    requires name in s
  {
    s[name := AppendLog(s[name], batch, streamSeq)]
  }
}
