/**
  The ACID backend (src/storage/acid.rs) as a store of sharded tables. A write transaction
  works on its own copy of a shard's tables and commits by putting them back; the byte counter
  is reserved before and settled after. Calls are atomic here; AcidMachine interleaves their steps.
 */
module AcidStorage {
  import opened Types
  import opened Validation
  import opened Sums
  import opened LogSpec
  import opened Effects
  import opened Runs
  import opened Limiting
  import opened AcidTables
  import opened AcidShards
  import opened AcidMachine

  // ---------------------------------------------------- loops over the tables

  /** The insert loop of a batch, with the metadata counters it advances. */
  method InsertBatch(rows: Rows, name: string, meta: StreamMeta, batch: seq<Bytes>)
    returns (rows': Rows, meta': StreamMeta)
    ensures rows' == InsertAll(rows, name, meta.nextReadSeq, meta.nextByteOffset, batch)
    ensures meta' == meta.Push(batch)
  {
    rows', meta' := rows, meta;
    for i := 0 to |batch|
      invariant InsertAll(rows', name, meta'.nextReadSeq, meta'.nextByteOffset, batch[i..]) ==
                InsertAll(rows, name, meta.nextReadSeq, meta.nextByteOffset, batch)
      invariant meta' == meta.Push(batch[..i])
    {
      assert batch[i..][1..] == batch[i + 1..] && batch[..i + 1] == batch[..i] + [batch[i]];
      SumLenPush(batch[..i], batch[i]);
      rows' := rows'[Key(name, meta'.nextReadSeq, meta'.nextByteOffset) := batch[i]];
      meta' := meta'.(nextReadSeq := meta'.nextReadSeq + 1,
                      nextByteOffset := meta'.nextByteOffset + |batch[i]|,
                      totalBytes := meta'.totalBytes + |batch[i]|);
    }
    assert batch[..|batch|] == batch;
  }

  /** `delete_stream_messages`: collect the keys of the stream, then remove them one by one. */
  method DeleteStreamMessages(rows: Rows, name: string) returns (rows': Rows)
    ensures rows' == RemoveRows(rows, name)
  {
    var keys := set k | k in rows && k.name == name;
    rows' := rows;
    while keys != {}
      invariant keys <= rows'.Keys <= rows.Keys
      invariant forall k :: k in rows' ==> rows'[k] == rows[k]
      invariant forall k :: k in rows && k.name != name ==> k in rows'
      invariant forall k :: k in rows' && k.name == name ==> k in keys
    {
      var k :| k in keys;
      rows' := rows' - {k};
      keys := keys - {k};
    }
  }

  predicate KeyBefore(a: Key, b: Key) {
    a.readSeq < b.readSeq || (a.readSeq == b.readSeq && a.byteOffset < b.byteOffset)
  }

  /** The keys of messages from index `k` on. */
  ghost function KeysFrom(name: string, ms: seq<Bytes>, k: nat): set<Key>
    decreases |ms| - k
  {
    if k >= |ms| then {} else {KeyAt(name, ms, k)} + KeysFrom(name, ms, k + 1)
  }

  lemma {:induction false} KeysFromExactly(name: string, ms: seq<Bytes>, k: nat, j: Key)
    ensures j in KeysFrom(name, ms, k) <==> k <= j.readSeq < |ms| && j == KeyAt(name, ms, j.readSeq)
    decreases |ms| - k
  {
    if k < |ms| { KeysFromExactly(name, ms, k + 1, j); }
  }

  lemma RangeKeys(rows: Rows, ms: seq<Bytes>, lo: Key)
    requires Holds(rows, lo.name, ms)
    ensures (set k | k in rows && k.name == lo.name && !KeyBefore(k, lo)) ==
            KeysFrom(lo.name, ms, StartIndex(ms, At(lo.readSeq, lo.byteOffset)))
  {
    var from := At(lo.readSeq, lo.byteOffset);
    var found := set k | k in rows && k.name == lo.name && !KeyBefore(k, lo);
    var keys := KeysFrom(lo.name, ms, StartIndex(ms, from));
    forall k ensures k in found <==> k in keys {
      KeysFromExactly(lo.name, ms, StartIndex(ms, from), k);
      if k.readSeq < |ms| && k == KeyAt(lo.name, ms, k.readSeq) { StartIndexExact(ms, from, k.readSeq); }
    }
  }

  /** `k` comes first in key order. */
  predicate Leads(k: Key, keys: set<Key>) {
    forall j :: j in keys && j != k ==> KeyBefore(k, j)
  }

  /** Among the keys from `n` on, the one at `n` comes first, and no other does. */
  lemma NextInScan(name: string, ms: seq<Bytes>, n: nat, k: Key)
    requires n < |ms| && k in KeysFrom(name, ms, n)
    ensures Leads(k, KeysFrom(name, ms, n)) <==> k == KeyAt(name, ms, n)
    ensures k == KeyAt(name, ms, n) ==> KeysFrom(name, ms, n) - {k} == KeysFrom(name, ms, n + 1)
  {
    var least, all, rest := KeyAt(name, ms, n), KeysFrom(name, ms, n), KeysFrom(name, ms, n + 1);
    assert all == {least} + rest;
    forall j | j in rest ensures KeyBefore(least, j) && j != least {
      KeysFromExactly(name, ms, n + 1, j);
    }
    assert all - {least} == rest;
    assert Leads(least, all);
    assert Leads(k, all) ==> k == least || KeyBefore(k, least);
    assert k == least || k in rest;
  }

  /** A range scan in key order from `lo` to the end of the stream. */
  method ScanFrom(rows: Rows, lo: Key, ghost ms: seq<Bytes>) returns (messages: seq<Bytes>)
    requires Holds(rows, lo.name, ms)
    ensures messages == ms[StartIndex(ms, At(lo.readSeq, lo.byteOffset))..]
  {
    var pending := set k | k in rows && k.name == lo.name && !KeyBefore(k, lo);
    RangeKeys(rows, ms, lo);
    ghost var start := StartIndex(ms, At(lo.readSeq, lo.byteOffset));
    ghost var next := start;
    messages := [];
    while pending != {}
      invariant start <= next <= |ms| && pending == KeysFrom(lo.name, ms, next)
      invariant messages == ms[start..next]
      decreases |ms| - next
    {
      NextInScan(lo.name, ms, next, KeyAt(lo.name, ms, next));
      var k :| k in pending && Leads(k, pending);
      NextInScan(lo.name, ms, next, k);
      messages := messages + [rows[k]];
      pending := pending - {k};
      next := next + 1;
    }
  }

  function LiveSizes(t: Tables, names: set<string>, now: int): map<string, nat> {
    map n | n in t.streams && n in names && !Expired(t.streams[n].config, now) :: t.streams[n].totalBytes
  }

  lemma CountOne(t: Tables, names: set<string>, name: string, now: int)
    requires name in t.streams && name !in names
    ensures MapSum(LiveSizes(t, names + {name}, now)) ==
            MapSum(LiveSizes(t, names, now))
            + if Expired(t.streams[name].config, now) then 0 else t.streams[name].totalBytes
  {
    var before, after := LiveSizes(t, names, now), LiveSizes(t, names + {name}, now);
    if Expired(t.streams[name].config, now) {
      assert after == before;
    } else {
      MapSumUpdate(before, name, t.streams[name].totalBytes);
      assert after == before[name := t.streams[name].totalBytes] && before - {name} == before;
    }
  }

  /** `rebuild_shard`: count the live streams, then remove the expired ones with their rows. */
  method RebuildShard(t: Tables, now: int) returns (t': Tables, liveBytes: nat)
    ensures t' == Purge(t, now)
    ensures liveBytes == MapSum(Sizes(t'))
  {
    liveBytes := 0;
    var expired: set<string> := {};
    var pending := t.streams.Keys;
    assert LiveSizes(t, t.streams.Keys - pending, now) == map[];
    while pending != {}
      invariant pending <= t.streams.Keys
      invariant expired == set n | n in t.streams && n !in pending && Expired(t.streams[n].config, now)
      invariant liveBytes == MapSum(LiveSizes(t, t.streams.Keys - pending, now))
    {
      var name :| name in pending;
      CountOne(t, t.streams.Keys - pending, name, now);
      assert t.streams.Keys - (pending - {name}) == (t.streams.Keys - pending) + {name};
      if Expired(t.streams[name].config, now) {
        expired := expired + {name};
      } else {
        liveBytes := liveBytes + t.streams[name].totalBytes;
      }
      pending := pending - {name};
    }
    t' := RemoveStreams(t, expired);
    assert t' == Purge(t, now);
    assert LiveSizes(t, t.streams.Keys - {}, now) == Sizes(t');
  }

  method RemoveStreams(t: Tables, names: set<string>) returns (t': Tables)
    ensures t'.streams == t.streams - names
    ensures t'.rows == map k | k in t.rows && k.name !in names :: t.rows[k]
  {
    t' := t;
    var pending := names;
    while pending != {}
      invariant pending <= names
      invariant t'.streams == t.streams - (names - pending)
      invariant t'.rows == map k | k in t.rows && k.name !in names - pending :: t.rows[k]
    {
      var name :| name in pending;
      var rows := DeleteStreamMessages(t'.rows, name);
      t' := Tables(t'.streams - {name}, rows);
      pending := pending - {name};
    }
    assert names - {} == names;
  }

  // ------------------------------------------------ transactions on a shard

  /** `append` and `batch_append`: returning the tables unchanged is dropping the transaction. */
  method AppendOn(maxStream: nat, t: Tables, name: string, batch: seq<Bytes>, contentType: string,
                  streamSeq: Option<string>, now: int) returns (t': Tables, error: Option<Error>)
    ensures (t', error) == AppendTxn(maxStream, t, name, batch, contentType, streamSeq, now)
    ensures error.None? ==> name in t.streams && name in t'.streams
  {
    if name !in t.streams { return t, Some(NotFound); }
    var meta := t.streams[name];
    error := AppendRefusal(meta.config, meta.closed, meta.lastSeq, contentType, streamSeq, now);
    if error.Some? { return t, error; }
    var bytes := BatchBytes(batch);
    if meta.totalBytes + bytes > maxStream { return t, Some(StreamSizeLimitExceeded); }
    var rows;
    rows, meta := InsertBatch(t.rows, name, meta, batch);
    meta := meta.(lastSeq := CommitSeq(meta.lastSeq, streamSeq));
    t' := Tables(t.streams[name := meta], rows);
  }

  method ProduceOn(maxStream: nat, t: Tables, name: string, batch: seq<Bytes>, contentType: string,
                   producer: ProducerHeaders, close: bool, streamSeq: Option<string>, now: int)
    returns (t': Tables, r: Reply)
    ensures TxnResult(t', r, 0) == ProducerTxn(maxStream, t, name, batch, contentType, producer, close, streamSeq, now)
  {
    if name !in t.streams { return t, Failed(NotFound); }
    var meta := t.streams[name];
    var live := Live(meta.producers, now);
    var stop := ProducerStop(meta.config, meta.closed, meta.lastSeq, live, meta.Next(), batch, contentType, producer,
                             streamSeq, now);
    if stop.Some? { return t, stop.value; }
    var bytes := BatchBytes(batch);
    if meta.totalBytes + bytes > maxStream { return t, Failed(StreamSizeLimitExceeded); }
    var rows;
    rows, meta := InsertBatch(t.rows, name, meta, batch);
    meta := meta.(lastSeq := CommitSeq(meta.lastSeq, streamSeq), closed := meta.closed || close,
                  producers := live[producer.id := ProducerState(producer.epoch, producer.seqNo, now)]);
    t' := Tables(t.streams[name := meta], rows);
    r := Accepted(producer.epoch, producer.seqNo, meta.Next(), meta.closed);
  }

  /** Create-with-data once the name is known to be free and the bytes are reserved. */
  method CreateOn(maxStream: nat, t: Tables, name: string, config: StreamConfig, batch: seq<Bytes>, close: bool,
                  now: int)
    returns (t': Tables, r: Reply)
    requires !Taken(t, name, now)
    ensures var txn := CreateDataTxn(maxStream, t, name, config, batch, close, now, true);
            t' == txn.tables && r == txn.reply
    ensures r.Failed? || r.CreatedWith?
  {
    var bytes := BatchBytes(batch);
    if bytes > 0 && bytes > maxStream { return t, Failed(StreamSizeLimitExceeded); }
    var rows, meta := t.rows, NewMeta(config).(closed := close);
    if name in t.streams { rows := DeleteStreamMessages(t.rows, name); }
    rows, meta := InsertBatch(rows, name, meta, if bytes > 0 then batch else []);
    t' := Tables(t.streams[name := meta], rows);
    r := CreatedWith(true, meta.Next(), meta.closed);
  }

  // -------------------------------------------------------------- the store

  /** What a committed transaction does to shards, store and byte total. */
  lemma Committed(maxStream: nat, hash: string -> nat, shards: Shards, s: Store, c: Call, now: int)
    requires Spread(hash, shards, s) && !c.Read?
    ensures var home, out := Home(hash, |shards|, c.name), Txn(false, maxStream, s, Effective(Acid, c), now);
            && home < |shards|
            && var r := TableTxn(maxStream, shards[home], c, now, true);
               && Spread(hash, shards[home := r.tables], out.store)
               && r.reply == out.reply
               && Total(out.store) + r.released == Total(s) + Added(c, r.reply)
  {
    var home := Home(hash, |shards|, c.name);
    var part := ShardOf(hash, |shards|, s, home);
    ShardedTxnRefines(maxStream, hash, shards, s, c, now, true);
    TxnBalances(maxStream, s, Effective(Acid, c), now);
    SameAdded(c, TableTxn(maxStream, shards[home], c, now, true).reply);
    assert Shows(shards[home], part);
    assert ShowsAt(c.name, shards[home], part);
    ReleasedIsFreed(maxStream, shards[home], part, c, now);
  }

  /** An append whose reservation went through is just its transaction. */
  lemma ReservedApplied(lim: Limits, s: Store, c: Call, now: int)
    requires SumLen(BatchOf(c)) == 0 || Total(s) + SumLen(BatchOf(c)) <= lim.maxTotal
    requires !c.CreateWithData?
    ensures Apply(Acid, lim, s, c, now) == Txn(false, lim.maxStream, s, c, now)
  {}

  /** What a call finds in the home shard of its stream before it writes. */
  lemma OwnShard(hash: string -> nat, shards: Shards, s: Store, name: string, i: nat, now: int)
    requires Spread(hash, shards, s) && i == Home(hash, |shards|, name) < |shards|
    ensures Taken(shards[i], name, now) <==> Occupied(s, name, now)
    ensures name in shards[i].streams <==> name in s
    ensures name in s ==> MetaOf(shards[i].streams[name], s[name])
  {
    OwnShardOnly(hash, shards, s, name, i);
  }

  lemma ProducerReplies(maxStream: nat, s: Store, c: Call, now: int)
    requires c.ProducerAppend?
    ensures var r := Txn(false, maxStream, s, c, now).reply; r.Accepted? || r.Duplicate? || r.Failed?
  {}

  /** Create-with-data reserves only for a new stream, and before it looks at the stream limit. */
  lemma CreateApplied(lim: Limits, s: Store, c: Call, now: int)
    requires c.CreateWithData?
    ensures Apply(Acid, lim, s, c, now) ==
            if !Occupied(s, c.name, now) && SumLen(c.messages) > 0 && Total(s) + SumLen(c.messages) > lim.maxTotal
            then Outcome(s, Failed(MemoryLimitExceeded))
            else Txn(false, lim.maxStream, s, Effective(Acid, c), now)
  {
    if Effective(Acid, c).messages == [] { assert SumLen(Effective(Acid, c).messages) == 0; }
  }

  class AcidStorage {
    var shards: Shards
    var totalBytes: nat
    const hash: string -> nat
    const limits: Limits
    /** Names whose subscribers were notified, in order. */
    var sent: seq<string>
    /** The abstract store the shards hold together. */
    ghost var store: Store

    ghost predicate Valid()
      reads this
    {
      && ValidShardCount(|shards|) && Spread(hash, shards, store)
      && totalBytes == Total(store)
    }

    /** Startup: every shard is rebuilt and the counter added up; `onDisk` is what the shards held. */
    constructor (disk: Shards, hash: string -> nat, limits: Limits, now: int, ghost onDisk: Store)
      requires ValidShardCount(|disk|) && Spread(hash, disk, onDisk)
      ensures Valid() && store == Unexpired(onDisk, now) && sent == []
      ensures this.hash == hash && this.limits == limits
    {
      var rebuilt: Shards := [];
      var total := 0;
      for i := 0 to |disk|
        invariant |rebuilt| == i && forall j :: 0 <= j < i ==> rebuilt[j] == Purge(disk[j], now)
        invariant total == Recount(rebuilt, i)
      {
        var t, bytes := RebuildShard(disk[i], now);
        RecountPush(rebuilt, t);
        rebuilt := rebuilt + [t];
        total := total + bytes;
      }
      this.hash, this.limits := hash, limits;
      shards, totalBytes, sent := rebuilt, total, [];
      store := Unexpired(onDisk, now);
      PurgeSpread(hash, disk, rebuilt, onDisk, now);
      RecountIsTotal(hash, rebuilt, Unexpired(onDisk, now));
    }

    method ShardFor(name: string) returns (i: nat)
      requires ValidShardCount(|shards|)
      ensures i == Home(hash, |shards|, name) < |shards|
    {
      MaskIsModulo(hash(name), |shards|, true);
      i := ShardIndex(hash(name), |shards|, true);
    }

    method Reserve(bytes: nat) returns (ok: bool)
      modifies this`totalBytes
      ensures ok <==> bytes == 0 || old(totalBytes) + bytes <= limits.maxTotal
      ensures totalBytes == if ok then old(totalBytes) + bytes else old(totalBytes)
    {
      ok := bytes == 0 || totalBytes + bytes <= limits.maxTotal;
      if ok { totalBytes := totalBytes + bytes; }
    }

    /** Commit the transaction of an append; the counter is settled by the caller. */
    method AppendReserved(ghost c: Call, name: string, batch: seq<Bytes>, contentType: string,
                          streamSeq: Option<string>, now: int)
      returns (error: Option<Error>, first: Offset, next: Offset)
      requires ValidShardCount(|shards|) && Spread(hash, shards, store) && batch != []
      requires c == Types.BatchAppend(name, batch, contentType, streamSeq)
               || (c == Types.Append(name, batch[0], contentType) && |batch| == 1 && streamSeq.None?)
      modifies this`shards, this`store
      ensures ValidShardCount(|shards|) && Spread(hash, shards, store)
      ensures var r := if error.Some? then Failed(error.value) else Appended(if c.Append? then first else next);
              Outcome(store, r) == Txn(false, limits.maxStream, old(store), c, now)
      ensures Total(store) == Total(old(store)) + if error.None? then SumLen(batch) else 0
    {
      Committed(limits.maxStream, hash, shards, store, c, now);
      var i := ShardFor(name);
      var t := shards[i];
      assert c.Append? ==> [batch[0]] == batch;
      var t';
      t', error := AppendOn(limits.maxStream, t, name, batch, contentType, streamSeq, now);
      shards := shards[i := t'];
      store := Txn(false, limits.maxStream, store, c, now).store;
      first := if error.None? then t.streams[name].Next() else Start;
      next := if error.None? then t'.streams[name].Next() else Start;
    }

    method Append(name: string, data: Bytes, contentType: string, now: int) returns (r: Reply)
      requires Valid()
      modifies this
      ensures totalBytes <= old(totalBytes) || totalBytes <= limits.maxTotal
      ensures Valid()
      ensures Outcome(store, r) == Apply(Acid, limits, old(store), Types.Append(name, data, contentType), now)
      ensures sent == old(sent) + Told(Acid, Types.Append(name, data, contentType), r)
    {
      ghost var c := Types.Append(name, data, contentType);
      SumLenOne(data);
      var reserved := Reserve(|data|);
      if !reserved { return Failed(MemoryLimitExceeded); }
      ReservedApplied(limits, store, c, now);
      var error, offset, _ := AppendReserved(c, name, [data], contentType, None, now);
      if error.Some? {
        totalBytes := SaturatingSub(totalBytes, |data|);
        r := Failed(error.value);
      } else {
        sent := sent + [name];
        r := Appended(offset);
      }
    }

    method BatchAppend(name: string, batch: seq<Bytes>, contentType: string, streamSeq: Option<string>, now: int)
      returns (r: Reply)
      requires Valid()
      modifies this
      ensures totalBytes <= old(totalBytes) || totalBytes <= limits.maxTotal
      ensures Valid()
      ensures Outcome(store, r) ==
              Apply(Acid, limits, old(store), Types.BatchAppend(name, batch, contentType, streamSeq), now)
      ensures sent == old(sent) + Told(Acid, Types.BatchAppend(name, batch, contentType, streamSeq), r)
    {
      ghost var c := Types.BatchAppend(name, batch, contentType, streamSeq);
      if batch == [] { return Failed(EmptyBatch); }
      var bytes := BatchBytes(batch);
      var reserved := Reserve(bytes);
      if !reserved { return Failed(MemoryLimitExceeded); }
      ReservedApplied(limits, store, c, now);
      var error, _, next := AppendReserved(c, name, batch, contentType, streamSeq, now);
      if error.Some? {
        totalBytes := SaturatingSub(totalBytes, bytes);
        r := Failed(error.value);
      } else {
        sent := sent + [name];
        r := Appended(next);
      }
    }

    /** Commit the producer's transaction; the counter is settled by the caller. */
    method ProduceReserved(name: string, batch: seq<Bytes>, contentType: string, producer: ProducerHeaders,
                           close: bool, streamSeq: Option<string>, now: int) returns (r: Reply)
      requires ValidShardCount(|shards|) && Spread(hash, shards, store)
      modifies this`shards, this`store
      ensures ValidShardCount(|shards|) && Spread(hash, shards, store)
      ensures Outcome(store, r) == Txn(false, limits.maxStream, old(store),
                                       ProducerAppend(name, batch, contentType, producer, close, streamSeq), now)
      ensures Total(store) == Total(old(store)) + if r.Accepted? then SumLen(batch) else 0
      ensures r.Accepted? || r.Duplicate? || r.Failed?
    {
      ghost var c := ProducerAppend(name, batch, contentType, producer, close, streamSeq);
      Committed(limits.maxStream, hash, shards, store, c, now);
      ProducerReplies(limits.maxStream, store, c, now);
      var i := ShardFor(name);
      var t;
      t, r := ProduceOn(limits.maxStream, shards[i], name, batch, contentType, producer, close, streamSeq, now);
      shards := shards[i := t];
      store := Txn(false, limits.maxStream, store, c, now).store;
    }

    /** Duplicates give their reservation back and still notify. */
    method AppendWithProducer(name: string, batch: seq<Bytes>, contentType: string, producer: ProducerHeaders,
                              close: bool, streamSeq: Option<string>, now: int) returns (r: Reply)
      requires Valid()
      modifies this
      ensures totalBytes <= old(totalBytes) || totalBytes <= limits.maxTotal
      ensures Valid()
      ensures Outcome(store, r) ==
              Apply(Acid, limits, old(store), ProducerAppend(name, batch, contentType, producer, close, streamSeq), now)
      ensures sent == old(sent) + Told(Acid, ProducerAppend(name, batch, contentType, producer, close, streamSeq), r)
    {
      ghost var c := ProducerAppend(name, batch, contentType, producer, close, streamSeq);
      var bytes := BatchBytes(batch);
      var reserved := Reserve(bytes);
      if !reserved { return Failed(MemoryLimitExceeded); }
      ReservedApplied(limits, store, c, now);
      r := ProduceReserved(name, batch, contentType, producer, close, streamSeq, now);
      if r.Failed? || r.Duplicate? { totalBytes := SaturatingSub(totalBytes, bytes); }
      if !r.Failed? && (batch != [] || close) { sent := sent + [name]; }
    }

    method CreateStream(name: string, config: StreamConfig, now: int) returns (r: Reply)
      requires Valid()
      modifies this`shards, this`store, this`totalBytes
      ensures totalBytes <= old(totalBytes) || totalBytes <= limits.maxTotal
      ensures Valid()
      ensures Outcome(store, r) == Apply(Acid, limits, old(store), Create(name, config), now)
      ensures sent == old(sent) + Told(Acid, Create(name, config), r)
    {
      ghost var c := Create(name, config);
      Committed(limits.maxStream, hash, shards, store, c, now);
      var i := ShardFor(name);
      var t := shards[i];
      if name in t.streams && !Expired(t.streams[name].config, now) {
        assert shards[i := t] == shards;
        store := Txn(false, limits.maxStream, store, c, now).store;
        return if SameConfig(t.streams[name].config, config) then AlreadyExists else Failed(ConfigMismatch);
      }
      var removed, rows := 0, t.rows;
      if name in t.streams {
        removed := t.streams[name].totalBytes;
        rows := DeleteStreamMessages(t.rows, name);
      }
      shards := shards[i := Tables(t.streams[name := NewMeta(config)], rows)];
      store := Txn(false, limits.maxStream, store, c, now).store;
      totalBytes := SaturatingSub(totalBytes, removed);
      r := Created;
    }

    /** The reservation is made inside the transaction, once the stream is known to be new. */
    method CreateStreamWithData(name: string, config: StreamConfig, batch: seq<Bytes>, close: bool, now: int)
      returns (r: Reply)
      requires Valid()
      modifies this
      ensures totalBytes <= old(totalBytes) || totalBytes <= limits.maxTotal
      ensures Valid()
      ensures Outcome(store, r) == Apply(Acid, limits, old(store), CreateWithData(name, config, batch, close), now)
      ensures sent == old(sent) + Told(Acid, CreateWithData(name, config, batch, close), r)
    {
      ghost var c := CreateWithData(name, config, batch, close);
      CreateApplied(limits, store, c, now);
      var i := ShardFor(name);
      var t := shards[i];
      OwnShard(hash, shards, store, name, i, now);
      if name in t.streams && !Expired(t.streams[name].config, now) {
        r := if SameConfig(t.streams[name].config, config)
             then CreatedWith(false, t.streams[name].Next(), t.streams[name].closed)
             else Failed(ConfigMismatch);
      } else {
        r := CreateNew(name, config, batch, close, now);
      }
      if r.CreatedWith? && (batch != [] || close) { sent := sent + [name]; }
    }

    method CreateNew(name: string, config: StreamConfig, batch: seq<Bytes>, close: bool, now: int) returns (r: Reply)
      requires Valid() && !Occupied(store, name, now)
      modifies this`shards, this`store, this`totalBytes
      ensures totalBytes <= old(totalBytes) || totalBytes <= limits.maxTotal
      ensures Valid()
      ensures if SumLen(batch) > 0 && Total(old(store)) + SumLen(batch) > limits.maxTotal
              then store == old(store) && r == Failed(MemoryLimitExceeded)
              else Outcome(store, r) == Txn(false, limits.maxStream, old(store),
                                            Effective(Acid, CreateWithData(name, config, batch, close)), now)
    {
      var i := ShardFor(name);
      var removed := BytesOf(shards[i], name);
      var bytes := BatchBytes(batch);
      var reserved := Reserve(bytes);
      if !reserved { return Failed(MemoryLimitExceeded); }
      r := CreateReserved(name, config, batch, close, now);
      totalBytes := SaturatingSub(totalBytes, if r.Failed? then bytes else removed);
    }

    method CreateReserved(name: string, config: StreamConfig, batch: seq<Bytes>, close: bool, now: int)
      returns (r: Reply)
      requires ValidShardCount(|shards|) && Spread(hash, shards, store)
      requires !Occupied(store, name, now)
      modifies this`shards, this`store
      ensures ValidShardCount(|shards|) && Spread(hash, shards, store)
      ensures Outcome(store, r) == Txn(false, limits.maxStream, old(store),
                                       Effective(Acid, CreateWithData(name, config, batch, close)), now)
      ensures Home(hash, |old(shards)|, name) < |old(shards)|
      ensures var removed := BytesOf(old(shards)[Home(hash, |old(shards)|, name)], name);
              if r.Failed? then Total(store) == Total(old(store))
              else Total(store) + removed == Total(old(store)) + SumLen(batch)
      ensures r.Failed? || r.CreatedWith?
    {
      ghost var c := CreateWithData(name, config, batch, close);
      Committed(limits.maxStream, hash, shards, store, c, now);
      var i := ShardFor(name);
      OwnShardOnly(hash, shards, store, name, i);
      var t;
      t, r := CreateOn(limits.maxStream, shards[i], name, config, batch, close, now);
      shards := shards[i := t];
      store := Txn(false, limits.maxStream, store, Effective(Acid, c), now).store;
    }

    /** A scan of the key range gives what bisection over an index gives elsewhere. */
    method Read(name: string, from: Offset, now: int) returns (r: Reply)
      requires Valid()
      ensures r == Apply(Acid, limits, store, Types.Read(name, from), now).reply
    {
      var i := ShardFor(name);
      OwnShardOnly(hash, shards, store, name, i);
      var t := shards[i];
      if name !in t.streams { return Failed(NotFound); }
      var meta := t.streams[name];
      if Expired(meta.config, now) { return Failed(StreamExpired); }
      if from.Now? { return Messages([], meta.Next(), true, meta.closed); }
      var lo := if from.Start? then Key(name, 0, 0) else Key(name, from.readSeq, from.byteOffset);
      var messages := ScanFrom(t.rows, lo, store[name].messages);
      r := Messages(messages, meta.Next(), true, meta.closed);
    }

    method Delete(name: string) returns (r: Reply)
      requires Valid()
      modifies this`shards, this`store, this`totalBytes
      ensures totalBytes <= old(totalBytes) || totalBytes <= limits.maxTotal
      ensures Valid()
      ensures Outcome(store, r) == Apply(Acid, limits, old(store), Types.Delete(name), 0)
      ensures sent == old(sent) + Told(Acid, Types.Delete(name), r)
    {
      ghost var c := Types.Delete(name);
      Committed(limits.maxStream, hash, shards, store, c, 0);
      var i := ShardFor(name);
      OwnShardOnly(hash, shards, store, name, i);
      var t := shards[i];
      if name !in t.streams { return Failed(NotFound); }
      var rows := DeleteStreamMessages(t.rows, name);
      shards := shards[i := Tables(t.streams - {name}, rows)];
      store := Txn(false, limits.maxStream, store, c, 0).store;
      totalBytes := SaturatingSub(totalBytes, t.streams[name].totalBytes);
      r := Done;
    }

    method CloseStream(name: string, now: int) returns (r: Reply)
      requires Valid()
      modifies this
      ensures Valid()
      ensures Outcome(store, r) == Apply(Acid, limits, old(store), Close(name), now)
      ensures sent == old(sent) + Told(Acid, Close(name), r)
    {
      ghost var c := Close(name);
      Committed(limits.maxStream, hash, shards, store, c, now);
      var i := ShardFor(name);
      OwnShardOnly(hash, shards, store, name, i);
      var t := shards[i];
      if name !in t.streams { return Failed(NotFound); }
      if Expired(t.streams[name].config, now) { return Failed(StreamExpired); }
      shards := shards[i := t.(streams := t.streams[name := t.streams[name].(closed := true)])];
      store := Txn(false, limits.maxStream, store, c, now).store;
      sent := sent + [name];
      r := Done;
    }
  }

  lemma RecountPush(shards: Shards, t: Tables)
    ensures Recount(shards + [t], |shards| + 1) == Recount(shards, |shards|) + MapSum(Sizes(t))
  {
    RecountPrefix(shards, t, |shards|);
  }

  lemma {:induction false} RecountPrefix(shards: Shards, t: Tables, k: nat)
    requires k <= |shards|
    ensures Recount(shards + [t], k) == Recount(shards, k)
  {
    if k > 0 { RecountPrefix(shards, t, k - 1); }
  }
}
