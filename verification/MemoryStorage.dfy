/**
  The in-memory backend (src/storage/memory.rs). Each call runs under its locks, so it is
  one atomic method; every method is proved to do what the abstract log does.
 */
module MemoryStorage {
  import opened Types
  import opened Validation
  import opened LogSpec
  import opened Limiting

  datatype Message = Message(offset: Offset, data: Bytes)

  datatype StreamEntry = StreamEntry(
    config: StreamConfig,
    messages: seq<Message>,
    closed: bool,
    nextReadSeq: nat,
    nextByteOffset: nat,
    totalBytes: nat,
    producers: Producers,
    lastSeq: Option<string>)
  {
    function Next(): Offset {
      At(nextReadSeq, nextByteOffset)
    }

    /** The entry fields an accepted producer append sets once its batch is in. */
    function Accept(p: ProducerHeaders, close: bool, streamSeq: Option<string>, now: int,
                    ghost log: StreamLog, ghost batch: seq<Bytes>): (e: StreamEntry)
      requires Represents(this, log.(messages := log.messages + batch))
      ensures Represents(e, ProducerCommit(log, batch, p, close, streamSeq, now))
    {
      this.(lastSeq := CommitSeq(lastSeq, streamSeq),
            closed := closed || close,
            producers := producers[p.id := ProducerState(p.epoch, p.seqNo, now)])
    }
  }

  /** The stored offsets and counters are those of the log's messages. */
  ghost predicate Holds(ms: seq<Message>, data: seq<Bytes>) {
    && |ms| == |data|
    && forall i {:trigger ms[i]} :: 0 <= i < |ms| ==> ms[i] == Message(OffsetOf(data, i), data[i])
  }

  ghost predicate Represents(e: StreamEntry, log: StreamLog) {
    && e.config == log.config && e.closed == log.closed && e.lastSeq == log.lastSeq && e.producers == log.producers
    && Holds(e.messages, log.messages)
    && e.nextReadSeq == |log.messages|
    && e.nextByteOffset == e.totalBytes == SumLen(log.messages)
  }

  function NewEntry(config: StreamConfig): (e: StreamEntry)
    ensures Represents(e, EmptyLog(config))
  {
    StreamEntry(config, [], false, 0, 0, 0, map[], None)
  }

  lemma HoldsPush(ms: seq<Message>, data: seq<Bytes>, d: Bytes)
    requires Holds(ms, data)
    ensures Holds(ms + [Message(NextOffset(data), d)], data + [d])
  {
    var data' := data + [d];
    forall i | 0 <= i <= |ms| ensures OffsetOf(data', i) == OffsetOf(data, i) {
      assert data'[..i] == data[..i];
    }
    assert data[..|data|] == data;
  }

  /** Push the batch, giving each message the offset that was next. */
  method PushAll(stream: StreamEntry, batch: seq<Bytes>, ghost log: StreamLog) returns (e: StreamEntry)
    requires Represents(stream, log)
    ensures Represents(e, log.(messages := log.messages + batch))
  {
    e := stream;
    ghost var data := log.messages;
    for i := 0 to |batch|
      invariant data == log.messages + batch[..i]
      invariant Represents(e, log.(messages := data))
    {
      HoldsPush(e.messages, data, batch[i]);
      SumLenPush(data, batch[i]);
      e := e.(messages := e.messages + [Message(e.Next(), batch[i])],
              nextReadSeq := e.nextReadSeq + 1,
              nextByteOffset := e.nextByteOffset + |batch[i]|,
              totalBytes := e.totalBytes + |batch[i]|);
      data := data + [batch[i]];
    }
    assert batch[..|batch|] == batch;
  }

  /** The position a read starts at, found by bisection over the message offsets. */
  method FindStart(ms: seq<Message>, from: Offset, ghost data: seq<Bytes>) returns (k: nat)
    requires Holds(ms, data) && from.At?
    ensures k == StartIndex(data, from)
  {
    var lo, hi := 0, |ms|;
    while lo < hi
      invariant 0 <= lo <= hi <= |ms|
      invariant lo <= StartIndex(data, from) <= hi
    {
      var mid := (lo + hi) / 2;
      StartIndexExact(data, from, mid);
      if Before(ms[mid].offset, from) { lo := mid + 1; } else { hi := mid; }
    }
    k := lo;
  }

  method Collect(ms: seq<Message>, start: nat, ghost data: seq<Bytes>) returns (out: seq<Bytes>)
    requires Holds(ms, data) && start <= |ms|
    ensures out == data[start..]
  {
    out := [];
    for i := start to |ms|
      invariant out == data[start..i]
    {
      out := out + [ms[i].data];
    }
  }

  ghost predicate FitsAt(n: string, streams: map<string, StreamEntry>, store: Store)
    requires n in streams && n in store
  {
    Represents(streams[n], store[n])
  }

  /** Every entry represents its log and the counter is the total over all of them. */
  ghost predicate Consistent(streams: map<string, StreamEntry>, total: nat, store: Store) {
    && streams.Keys == store.Keys
    && (forall n {:trigger FitsAt(n, streams, store)} :: n in streams ==> FitsAt(n, streams, store))
    && total == Total(store)
  }

  lemma Known(streams: map<string, StreamEntry>, total: nat, store: Store, name: string)
    requires Consistent(streams, total, store) && name in streams
    ensures Represents(streams[name], store[name])
  {
    assert FitsAt(name, streams, store);
  }

  /** What the calls look at before they write. */
  lemma Header(streams: map<string, StreamEntry>, total: nat, store: Store, name: string)
    requires Consistent(streams, total, store) && name in streams
    ensures var e, log := streams[name], store[name];
            && e.config == log.config && e.closed == log.closed && e.lastSeq == log.lastSeq
            && e.producers == log.producers
            && e.Next() == NextOffset(log.messages) && e.totalBytes == SumLen(log.messages)
  {
    Known(streams, total, store, name);
  }

  lemma ConsistentPut(streams: map<string, StreamEntry>, total: nat, store: Store, name: string, e: StreamEntry,
                      log: StreamLog)
    requires Consistent(streams, total, store) && Represents(e, log)
    ensures Consistent(streams[name := e], Total(store[name := log]), store[name := log])
  {
    var streams', store' := streams[name := e], store[name := log];
    forall n | n in streams' ensures FitsAt(n, streams', store') {
      if n != name { Known(streams, total, store, n); }
    }
  }

  lemma ConsistentRemove(streams: map<string, StreamEntry>, total: nat, store: Store, name: string)
    requires Consistent(streams, total, store)
    ensures Consistent(streams - {name}, Total(store - {name}), store - {name})
  {
    var streams', store' := streams - {name}, store - {name};
    forall n | n in streams' ensures FitsAt(n, streams', store') {
      Known(streams, total, store, n);
    }
  }

  class InMemoryStorage {
    var streams: map<string, StreamEntry>
    var totalBytes: nat
    const limits: Limits
    /** Names whose subscribers were notified, in order. */
    var sent: seq<string>
    /** The abstract store this one represents. */
    ghost var store: Store

    ghost predicate Valid()
      reads this
    {
      Consistent(streams, totalBytes, store) && totalBytes <= limits.maxTotal
    }

    constructor (limits: Limits)
      ensures Valid() && store == map[] && sent == [] && this.limits == limits
    {
      this.limits := limits;
      streams, store, sent := map[], map[], [];
      totalBytes := 0;
      assert ByteSizes(map[]) == map[];
    }

    /** `commit_messages`: reserve globally, check the stream limit, then push. */
    method CommitMessages(stream: StreamEntry, batch: seq<Bytes>, ghost log: StreamLog)
      returns (error: Option<Error>, e: StreamEntry)
      requires Represents(stream, log) && totalBytes <= limits.maxTotal
      modifies this`totalBytes
      ensures error == LimitError(Memory, limits, old(totalBytes), SumLen(log.messages), batch)
      ensures Represents(e, if error.None? then log.(messages := log.messages + batch) else log)
      ensures totalBytes == if error.None? then old(totalBytes) + SumLen(batch) else old(totalBytes)
    {
      if batch == [] {
        assert log.messages + batch == log.messages;
        return None, stream;
      }
      var bytes := BatchBytes(batch);
      if totalBytes + bytes > limits.maxTotal { return Some(MemoryLimitExceeded), stream; }
      totalBytes := totalBytes + bytes;
      if stream.totalBytes + bytes > limits.maxStream {
        totalBytes := SaturatingSub(totalBytes, bytes);
        return Some(StreamSizeLimitExceeded), stream;
      }
      e := PushAll(stream, batch, log);
      error := None;
    }

    method AppendExisting(name: string, batch: seq<Bytes>, contentType: string, streamSeq: Option<string>, now: int)
      returns (error: Option<Error>)
      requires Valid() && name in streams && batch != []
      modifies this`streams, this`store, this`totalBytes
      ensures Valid()
      ensures AppendedOrNot(Memory, limits, old(store), name, batch, contentType, streamSeq, now, store, error)
    {
      Known(streams, totalBytes, store, name);
      var stream := streams[name];
      error := AppendRefusal(stream.config, stream.closed, stream.lastSeq, contentType, streamSeq, now);
      if error.None? {
        ghost var log := store[name];
        var e;
        error, e := CommitMessages(stream, batch, log);
        if error.None? {
          e := e.(lastSeq := CommitSeq(e.lastSeq, streamSeq));
          ghost var log' := log.(messages := log.messages + batch, lastSeq := CommitSeq(log.lastSeq, streamSeq));
          PutTotal(store, name, batch, log');
          ConsistentPut(streams, Total(store), store, name, e, log');
          streams, store := streams[name := e], store[name := log'];
        }
      }
    }

    method Append(name: string, data: Bytes, contentType: string, now: int) returns (r: Reply)
      requires Valid()
      modifies this`streams, this`store, this`totalBytes
      ensures Valid()
      ensures Outcome(store, r) == Apply(Memory, limits, old(store), Types.Append(name, data, contentType), now)
      ensures sent == old(sent) + Told(Memory, Types.Append(name, data, contentType), r)
    {
      if name !in streams {
        r := Failed(NotFound);
      } else {
        Header(streams, totalBytes, store, name);
        var offset := streams[name].Next();
        SumLenOne(data);
        var error := AppendExisting(name, [data], contentType, None, now);
        r := if error.Some? then Failed(error.value) else Appended(offset);
        AppendApplied(Memory, limits, old(store), name, data, contentType, now, store, error);
      }
    }

    method BatchAppend(name: string, batch: seq<Bytes>, contentType: string, streamSeq: Option<string>, now: int)
      returns (r: Reply)
      requires Valid()
      modifies this
      ensures Valid()
      ensures Outcome(store, r) ==
              Apply(Memory, limits, old(store), Types.BatchAppend(name, batch, contentType, streamSeq), now)
      ensures sent == old(sent) + Told(Memory, Types.BatchAppend(name, batch, contentType, streamSeq), r)
    {
      if batch == [] {
        r := Failed(EmptyBatch);
      } else if name !in streams {
        r := Failed(NotFound);
      } else {
        var error := AppendExisting(name, batch, contentType, streamSeq, now);
        if error.Some? {
          r := Failed(error.value);
        } else {
          Header(streams, totalBytes, store, name);
          r := Appended(streams[name].Next());
          sent := sent + [name];
        }
        BatchApplied(Memory, limits, old(store), name, batch, contentType, streamSeq, now, store, error);
      }
    }

    /** The eviction is kept in the entry whatever the rest of the call does. */
    method AppendWithProducer(name: string, batch: seq<Bytes>, contentType: string, producer: ProducerHeaders,
                              close: bool, streamSeq: Option<string>, now: int) returns (r: Reply)
      requires Valid()
      modifies this
      ensures Valid()
      ensures Outcome(store, r) ==
              Apply(Memory, limits, old(store), ProducerAppend(name, batch, contentType, producer, close, streamSeq),
                    now)
      ensures sent == old(sent) + Told(Memory, ProducerAppend(name, batch, contentType, producer, close, streamSeq), r)
    {
      if name in streams { Header(streams, totalBytes, store, name); }
      if name !in streams {
        r := Failed(NotFound);
      } else if Expired(streams[name].config, now) {
        assert store[name := store[name]] == store;
        r := Failed(StreamExpired);
      } else {
        Evict(name, now);
        r := ProduceInto(name, batch, contentType, producer, close, streamSeq, now);
        if r.Accepted? && batch != [] { sent := sent + [name]; }
        ghost var c := ProducerAppend(name, batch, contentType, producer, close, streamSeq);
        ProducerApplied(Memory, limits, old(store), c, now, store, r);
      }
    }

    /** `cleanup_stale_producers` on one stream. */
    method Evict(name: string, now: int)
      requires Valid() && name in streams
      modifies this`streams, this`store
      ensures Valid() && store == old(store)[name := Cleaned(old(store)[name], now)]
    {
      Known(streams, totalBytes, store, name);
      var stream := streams[name];
      ghost var log := store[name];
      var e := stream.(producers := Live(stream.producers, now));
      SameBytes(store, name, Cleaned(log, now));
      ConsistentPut(streams, totalBytes, store, name, e, Cleaned(log, now));
      streams, store := streams[name := e], store[name := Cleaned(log, now)];
    }

    method ProduceInto(name: string, batch: seq<Bytes>, contentType: string, producer: ProducerHeaders,
                       close: bool, streamSeq: Option<string>, now: int) returns (r: Reply)
      requires Valid() && name in streams
      modifies this`streams, this`store, this`totalBytes
      ensures Valid()
      ensures ProducedInto(Memory, limits, old(store),
                           ProducerAppend(name, batch, contentType, producer, close, streamSeq), now, store, r)
    {
      Header(streams, totalBytes, store, name);
      var stream := streams[name];
      var stop := ProducerStop(stream.config, stream.closed, stream.lastSeq, stream.producers, stream.Next(),
                               batch, contentType, producer, streamSeq, now);
      if stop.Some? {
        r := stop.value;
      } else {
        r := CommitProduced(name, batch, producer, close, streamSeq, now);
      }
    }

    method CommitProduced(name: string, batch: seq<Bytes>, producer: ProducerHeaders, close: bool,
                          streamSeq: Option<string>, now: int) returns (r: Reply)
      requires Valid() && name in streams
      modifies this`streams, this`store, this`totalBytes
      ensures Valid()
      ensures var log := old(store)[name];
              var limit := LimitError(Memory, limits, Total(old(store)), SumLen(log.messages), batch);
              var log' := ProducerCommit(log, batch, producer, close, streamSeq, now);
              if limit.Some? then store == old(store) && r == Failed(limit.value)
              else store == old(store)[name := log']
                   && r == Accepted(producer.epoch, producer.seqNo, NextOffset(log'.messages), log'.closed)
    {
      Known(streams, totalBytes, store, name);
      ghost var log := store[name];
      var error, e := CommitMessages(streams[name], batch, log);
      if error.Some? {
        r := Failed(error.value);
      } else {
        ghost var log' := ProducerCommit(log, batch, producer, close, streamSeq, now);
        e := e.Accept(producer, close, streamSeq, now, log, batch);
        PutTotal(store, name, batch, log');
        ConsistentPut(streams, Total(store), store, name, e, log');
        streams, store := streams[name := e], store[name := log'];
        r := Accepted(producer.epoch, producer.seqNo, e.Next(), e.closed);
      }
    }

    /** Remove a stream, if there is one, and give its bytes back. */
    method Remove(name: string)
      requires Valid()
      modifies this`streams, this`store, this`totalBytes
      ensures Valid() && store == old(store) - {name}
    {
      if name in streams {
        Header(streams, totalBytes, store, name);
        TotalUpdate(store, name, store[name]);
        totalBytes := SaturatingSub(totalBytes, streams[name].totalBytes);
      } else {
        assert store - {name} == store;
      }
      ConsistentRemove(streams, Total(store), store, name);
      streams, store := streams - {name}, store - {name};
    }

    method CreateStream(name: string, config: StreamConfig, now: int) returns (r: Reply)
      requires Valid()
      modifies this`streams, this`store, this`totalBytes
      ensures Valid()
      ensures Outcome(store, r) == Apply(Memory, limits, old(store), Create(name, config), now)
      ensures sent == old(sent) + Told(Memory, Create(name, config), r)
    {
      if name in streams { Header(streams, totalBytes, store, name); }
      if name in streams && !Expired(streams[name].config, now) {
        r := if SameConfig(streams[name].config, config) then AlreadyExists else Failed(ConfigMismatch);
      } else {
        Remove(name);
        NewTotal(store, name, EmptyLog(config));
        ConsistentPut(streams, totalBytes, store, name, NewEntry(config), EmptyLog(config));
        streams, store := streams[name := NewEntry(config)], store[name := EmptyLog(config)];
        PutBack(old(store), name, EmptyLog(config));
        r := Created;
      }
    }

    method CreateStreamWithData(name: string, config: StreamConfig, batch: seq<Bytes>, close: bool, now: int)
      returns (r: Reply)
      requires Valid()
      modifies this`streams, this`store, this`totalBytes
      ensures Valid()
      ensures Outcome(store, r) == Apply(Memory, limits, old(store), CreateWithData(name, config, batch, close), now)
      ensures sent == old(sent) + Told(Memory, CreateWithData(name, config, batch, close), r)
    {
      if name in streams { Header(streams, totalBytes, store, name); }
      if name in streams && !Expired(streams[name].config, now) {
        var stream := streams[name];
        r := if SameConfig(stream.config, config) then CreatedWith(false, stream.Next(), stream.closed)
             else Failed(ConfigMismatch);
      } else {
        Remove(name);
        r := CreateFresh(name, config, batch, close);
        PutBack(old(store), name, EmptyLog(config).(messages := batch, closed := close));
      }
      CreateDataApplied(Memory, limits, old(store), CreateWithData(name, config, batch, close), now, store, r);
    }

    method CreateFresh(name: string, config: StreamConfig, batch: seq<Bytes>, close: bool) returns (r: Reply)
      requires Valid() && name !in streams
      modifies this`streams, this`store, this`totalBytes
      ensures Valid()
      ensures var limit := LimitError(Memory, limits, Total(old(store)), 0, batch);
              if limit.Some? then store == old(store) && r == Failed(limit.value)
              else store == old(store)[name := EmptyLog(config).(messages := batch, closed := close)]
                   && r == CreatedWith(true, NextOffset(batch), close)
    {
      var error, e := CommitMessages(NewEntry(config), batch, EmptyLog(config));
      if error.Some? {
        r := Failed(error.value);
      } else {
        e := e.(closed := close);
        ghost var log := EmptyLog(config).(messages := batch, closed := close);
        assert [] + batch == batch;
        NewTotal(store, name, log);
        ConsistentPut(streams, Total(store), store, name, e, log);
        streams, store := streams[name := e], store[name := log];
        r := CreatedWith(true, e.Next(), e.closed);
      }
    }

    /** Reads take everything from the start position to the tail. */
    method Read(name: string, from: Offset, now: int) returns (r: Reply)
      requires Valid()
      ensures r == Apply(Memory, limits, store, Types.Read(name, from), now).reply
    {
      if name !in streams { return Failed(NotFound); }
      Known(streams, totalBytes, store, name);
      var stream := streams[name];
      ghost var data := store[name].messages;
      if Expired(stream.config, now) { return Failed(StreamExpired); }
      if from.Now? { return Messages([], stream.Next(), true, stream.closed); }
      var start := 0;
      if from.At? { start := FindStart(stream.messages, from, data); }
      var messages := Collect(stream.messages, start, data);
      r := Messages(messages, stream.Next(), start + |messages| >= |stream.messages|, stream.closed);
    }

    method Delete(name: string) returns (r: Reply)
      requires Valid()
      modifies this`streams, this`store, this`totalBytes
      ensures Valid()
      ensures Outcome(store, r) == Apply(Memory, limits, old(store), Types.Delete(name), 0)
      ensures sent == old(sent) + Told(Memory, Types.Delete(name), r)
    {
      if name in streams {
        Remove(name);
        r := Done;
      } else {
        r := Failed(NotFound);
      }
    }

    method CloseStream(name: string, now: int) returns (r: Reply)
      requires Valid()
      modifies this
      ensures Valid()
      ensures Outcome(store, r) == Apply(Memory, limits, old(store), Close(name), now)
      ensures sent == old(sent) + Told(Memory, Close(name), r)
    {
      if name in streams { Known(streams, totalBytes, store, name); }
      if name !in streams {
        r := Failed(NotFound);
      } else if Expired(streams[name].config, now) {
        r := Failed(StreamExpired);
      } else {
        ghost var log := store[name];
        var e := streams[name].(closed := true);
        SameBytes(store, name, log.(closed := true));
        ConsistentPut(streams, totalBytes, store, name, e, log.(closed := true));
        streams, store := streams[name := e], store[name := log.(closed := true)];
        sent := sent + [name];
        r := Done;
      }
    }
  }
}
