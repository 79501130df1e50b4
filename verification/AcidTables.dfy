/**
  One shard of the ACID backend as its two tables, STREAMS and MESSAGES, and the write
  transactions of src/storage/acid.rs as functions on them.
 */
module AcidTables {
  import opened Types
  import opened Validation
  import opened LogSpec

  datatype Key = Key(name: string, readSeq: nat, byteOffset: nat)

  type Rows = map<Key, Bytes>

  datatype StreamMeta = StreamMeta(
    config: StreamConfig,
    closed: bool,
    nextReadSeq: nat,
    nextByteOffset: nat,
    totalBytes: nat,
    lastSeq: Option<string>,
    producers: Producers)
  {
    function Next(): Offset {
      At(nextReadSeq, nextByteOffset)
    }

    /** The counters after the batch has been inserted. */
    function Push(batch: seq<Bytes>): StreamMeta {
      this.(nextReadSeq := nextReadSeq + |batch|,
            nextByteOffset := nextByteOffset + SumLen(batch),
            totalBytes := totalBytes + SumLen(batch))
    }
  }

  datatype Tables = Tables(streams: map<string, StreamMeta>, rows: Rows)

  function NewMeta(config: StreamConfig): StreamMeta {
    StreamMeta(config, false, 0, 0, 0, None, map[])
  }

  /** The insert loop: the batch under consecutive keys, starting at the next one of the stream. */
  function InsertAll(rows: Rows, name: string, readSeq: nat, byteOffset: nat, batch: seq<Bytes>): Rows
    decreases |batch|
  {
    if batch == [] then rows
    else InsertAll(rows[Key(name, readSeq, byteOffset) := batch[0]], name, readSeq + 1, byteOffset + |batch[0]|,
                   batch[1..])
  }

  /** `delete_stream_messages`. */
  function RemoveRows(rows: Rows, name: string): Rows {
    map k | k in rows && k.name != name :: rows[k]
  }

  // ---------------------------------------------------------- transactions

  /** What a transaction leaves, what it answers, and the bytes of a removed stream still to be released. */
  datatype TxnResult = TxnResult(tables: Tables, reply: Reply, released: nat)

  function Aborted(t: Tables, e: Error): TxnResult {
    TxnResult(t, Failed(e), 0)
  }

  predicate Taken(t: Tables, name: string, now: int) {
    name in t.streams && !Expired(t.streams[name].config, now)
  }

  function Cleared(t: Tables, name: string): Rows {
    if name in t.streams then RemoveRows(t.rows, name) else t.rows
  }

  function BytesOf(t: Tables, name: string): nat {
    if name in t.streams then t.streams[name].totalBytes else 0
  }

  /** Insert the batch and write the metadata row. */
  function Appending(t: Tables, name: string, meta: StreamMeta, batch: seq<Bytes>): Tables {
    Tables(t.streams[name := meta.Push(batch)],
           InsertAll(t.rows, name, meta.nextReadSeq, meta.nextByteOffset, batch))
  }

  function CreateTxn(t: Tables, name: string, config: StreamConfig, now: int): TxnResult {
    if Taken(t, name, now) then
      TxnResult(t, if SameConfig(t.streams[name].config, config) then AlreadyExists else Failed(ConfigMismatch), 0)
    else
      TxnResult(Tables(t.streams[name := NewMeta(config)], Cleared(t, name)), Created, BytesOf(t, name))
  }

  /** `reserved` says whether the reservation made inside the transaction went through. */
  function CreateDataTxn(maxStream: nat, t: Tables, name: string, config: StreamConfig, batch: seq<Bytes>, close: bool,
                         now: int, reserved: bool): TxnResult {
    if Taken(t, name, now) then
      TxnResult(t, if SameConfig(t.streams[name].config, config)
                   then CreatedWith(false, t.streams[name].Next(), t.streams[name].closed)
                   else Failed(ConfigMismatch), 0)
    else if SumLen(batch) > 0 && !reserved then Aborted(t, MemoryLimitExceeded)
    else if SumLen(batch) > 0 && SumLen(batch) > maxStream then Aborted(t, StreamSizeLimitExceeded)
    else
      var stored := if SumLen(batch) > 0 then batch else [];
      var meta := NewMeta(config).(closed := close);
      TxnResult(Appending(Tables(t.streams, Cleared(t, name)), name, meta, stored),
                CreatedWith(true, meta.Push(stored).Next(), close), BytesOf(t, name))
  }

  function AppendTxn(maxStream: nat, t: Tables, name: string, batch: seq<Bytes>, contentType: string,
                     streamSeq: Option<string>, now: int): (Tables, Option<Error>) {
    if name !in t.streams then (t, Some(NotFound))
    else
      var meta := t.streams[name];
      var refusal := AppendRefusal(meta.config, meta.closed, meta.lastSeq, contentType, streamSeq, now);
      if refusal.Some? then (t, refusal)
      else if meta.totalBytes + SumLen(batch) > maxStream then (t, Some(StreamSizeLimitExceeded))
      else (Appending(t, name, meta.(lastSeq := CommitSeq(meta.lastSeq, streamSeq)), batch), None)
  }

  function ProducerTxn(maxStream: nat, t: Tables, name: string, batch: seq<Bytes>, contentType: string,
                       p: ProducerHeaders, close: bool, streamSeq: Option<string>, now: int): TxnResult {
    if name !in t.streams then Aborted(t, NotFound)
    else
      var meta := t.streams[name];
      var live := Live(meta.producers, now);
      var stop := ProducerStop(meta.config, meta.closed, meta.lastSeq, live, meta.Next(), batch, contentType, p,
                               streamSeq, now);
      if stop.Some? then TxnResult(t, stop.value, 0)
      else if meta.totalBytes + SumLen(batch) > maxStream then Aborted(t, StreamSizeLimitExceeded)
      else
        var meta' := meta.(lastSeq := CommitSeq(meta.lastSeq, streamSeq),
                           closed := meta.closed || close,
                           producers := live[p.id := ProducerState(p.epoch, p.seqNo, now)]);
        TxnResult(Appending(t, name, meta', batch),
                  Reply.Accepted(p.epoch, p.seqNo, meta'.Push(batch).Next(), meta'.closed), 0)
  }

  /** The write transaction of a call, past any reservation made before it. */
  function TableTxn(maxStream: nat, t: Tables, c: Call, now: int, reserved: bool): TxnResult
    requires !c.Read?
  {
    match c
    case Create(name, config) => CreateTxn(t, name, config, now)
    case CreateWithData(name, config, ms, close) => CreateDataTxn(maxStream, t, name, config, ms, close, now, reserved)
    case Append(name, data, contentType) =>
      var (t', error) := AppendTxn(maxStream, t, name, [data], contentType, None, now);
      if error.Some? then Aborted(t, error.value)
      else TxnResult(t', Appended(if name in t.streams then t.streams[name].Next() else Start), 0)
    case BatchAppend(name, ms, contentType, streamSeq) =>
      if ms == [] then Aborted(t, EmptyBatch)
      else
        var (t', error) := AppendTxn(maxStream, t, name, ms, contentType, streamSeq, now);
        if error.Some? then Aborted(t, error.value)
        else TxnResult(t', Appended(if name in t'.streams then t'.streams[name].Next() else Start), 0)
    case ProducerAppend(name, ms, contentType, p, close, streamSeq) =>
      ProducerTxn(maxStream, t, name, ms, contentType, p, close, streamSeq, now)
    case Close(name) =>
      if name !in t.streams then Aborted(t, NotFound)
      else if Expired(t.streams[name].config, now) then Aborted(t, StreamExpired)
      else TxnResult(t.(streams := t.streams[name := t.streams[name].(closed := true)]), Done, 0)
    case Delete(name) =>
      if name !in t.streams then Aborted(t, NotFound)
      else TxnResult(Tables(t.streams - {name}, RemoveRows(t.rows, name)), Done, t.streams[name].totalBytes)
  }

  // ------------------------------------------------------ the table invariant

  function KeyAt(name: string, ms: seq<Bytes>, i: nat): Key
    requires i <= |ms|
  {
    Key(name, i, SumLen(ms[..i]))
  }

  /** The rows under `name` are exactly the messages `ms`, each under its sequence number and byte offset. */
  ghost predicate Holds(rows: Rows, name: string, ms: seq<Bytes>) {
    && (forall i {:trigger KeyAt(name, ms, i)} :: 0 <= i < |ms| ==>
          KeyAt(name, ms, i) in rows && rows[KeyAt(name, ms, i)] == ms[i])
    && (forall k :: k in rows && k.name == name ==> k.readSeq < |ms| && k == KeyAt(name, ms, k.readSeq))
  }

  ghost predicate MetaOf(meta: StreamMeta, log: StreamLog) {
    && meta.config == log.config && meta.closed == log.closed
    && meta.lastSeq == log.lastSeq && meta.producers == log.producers
    && meta.Next() == NextOffset(log.messages) && meta.totalBytes == SumLen(log.messages)
  }

  function MessagesOf(s: Store, name: string): seq<Bytes> {
    if name in s then s[name].messages else []
  }

  /** One name in the tables against the abstract store; a name without a stream has no rows. */
  ghost predicate ShowsAt(name: string, t: Tables, s: Store) {
    && (name in t.streams <==> name in s)
    && (name in s ==> MetaOf(t.streams[name], s[name]))
    && Holds(t.rows, name, MessagesOf(s, name))
  }

  ghost predicate Shows(t: Tables, s: Store) {
    forall name {:trigger ShowsAt(name, t, s)} :: ShowsAt(name, t, s)
  }

  ghost predicate SameElsewhere(rows: Rows, rows': Rows, name: string) {
    forall k: Key {:trigger k in rows'} {:trigger k in rows} :: k.name != name ==>
      (k in rows' <==> k in rows) && (k in rows ==> rows'[k] == rows[k])
  }

  lemma HoldsElsewhere(rows: Rows, rows': Rows, name: string, n: string, ms: seq<Bytes>)
    requires SameElsewhere(rows, rows', name) && n != name && Holds(rows, n, ms)
    ensures Holds(rows', n, ms)
  {}

  lemma HoldsPush(rows: Rows, name: string, ms: seq<Bytes>, m: Bytes)
    requires Holds(rows, name, ms)
    ensures Holds(rows[Key(name, |ms|, SumLen(ms)) := m], name, ms + [m])
  {
    var ms', rows' := ms + [m], rows[Key(name, |ms|, SumLen(ms)) := m];
    KeyAtPrefix(name, ms, m);
    forall i {:trigger KeyAt(name, ms', i)} | 0 <= i < |ms'|
      ensures KeyAt(name, ms', i) in rows' && rows'[KeyAt(name, ms', i)] == ms'[i]
    {
      if i < |ms| { assert ms'[i] == ms[i]; }
    }
    forall k | k in rows' && k.name == name ensures k.readSeq < |ms'| && k == KeyAt(name, ms', k.readSeq) {
      if k != Key(name, |ms|, SumLen(ms)) { assert k in rows; }
    }
  }

  lemma KeyAtPrefix(name: string, ms: seq<Bytes>, m: Bytes)
    ensures forall i {:trigger KeyAt(name, ms + [m], i)} :: 0 <= i <= |ms| ==>
            KeyAt(name, ms + [m], i) == KeyAt(name, ms, i)
    ensures KeyAt(name, ms, |ms|) == Key(name, |ms|, SumLen(ms))
  {
    forall i | 0 <= i <= |ms| ensures KeyAt(name, ms + [m], i) == KeyAt(name, ms, i) {
      assert (ms + [m])[..i] == ms[..i];
    }
    assert ms[..|ms|] == ms;
  }

  lemma {:induction false} InsertAllHolds(rows: Rows, name: string, ms: seq<Bytes>, batch: seq<Bytes>)
    requires Holds(rows, name, ms)
    ensures var rows' := InsertAll(rows, name, |ms|, SumLen(ms), batch);
            Holds(rows', name, ms + batch) && SameElsewhere(rows, rows', name)
    decreases |batch|
  {
    if batch == [] {
      assert ms + batch == ms;
    } else {
      var m := batch[0];
      HoldsPush(rows, name, ms, m);
      SumLenPush(ms, m);
      InsertAllHolds(rows[Key(name, |ms|, SumLen(ms)) := m], name, ms + [m], batch[1..]);
      Cons(ms, batch);
    }
  }

  lemma Cons(ms: seq<Bytes>, batch: seq<Bytes>)
    requires batch != []
    ensures (ms + [batch[0]]) + batch[1..] == ms + batch
  {}

  lemma ClearedHolds(t: Tables, s: Store, name: string)
    requires ShowsAt(name, t, s)
    ensures Holds(Cleared(t, name), name, []) && SameElsewhere(t.rows, Cleared(t, name), name)
  {}

  lemma ShowsPut(t: Tables, s: Store, name: string, meta: StreamMeta, rows: Rows, log: StreamLog)
    requires Shows(t, s) && SameElsewhere(t.rows, rows, name)
    requires MetaOf(meta, log) && Holds(rows, name, log.messages)
    ensures Shows(Tables(t.streams[name := meta], rows), s[name := log])
  {
    var t', s' := Tables(t.streams[name := meta], rows), s[name := log];
    forall n ensures ShowsAt(n, t', s') {
      if n != name {
        assert ShowsAt(n, t, s);
        HoldsElsewhere(t.rows, rows, name, n, MessagesOf(s, n));
      }
    }
  }

  lemma ShowsRemove(t: Tables, s: Store, name: string)
    requires Shows(t, s)
    ensures Shows(Tables(t.streams - {name}, RemoveRows(t.rows, name)), s - {name})
  {
    var t', s' := Tables(t.streams - {name}, RemoveRows(t.rows, name)), s - {name};
    forall n ensures ShowsAt(n, t', s') {
      assert ShowsAt(n, t, s);
      if n != name { HoldsElsewhere(t.rows, t'.rows, name, n, MessagesOf(s, n)); }
    }
  }

  /** Appending a batch to a stream whose other fields become those of `log`. */
  lemma AppendingShows(t: Tables, s: Store, name: string, meta: StreamMeta, batch: seq<Bytes>, log: StreamLog)
    requires Shows(t, s) && MetaOf(meta, log) && Holds(t.rows, name, log.messages)
    ensures Shows(Appending(t, name, meta, batch), s[name := log.(messages := log.messages + batch)])
    ensures MetaOf(meta.Push(batch), log.(messages := log.messages + batch))
  {
    InsertAllHolds(t.rows, name, log.messages, batch);
    SumLenAppend(log.messages, batch);
    ShowsPut(t, s, name, meta.Push(batch), InsertAll(t.rows, name, meta.nextReadSeq, meta.nextByteOffset, batch),
             log.(messages := log.messages + batch));
  }

  // ---------------------------------------------------------- refinement

  lemma CreateRefines(maxStream: nat, t: Tables, s: Store, name: string, config: StreamConfig, now: int)
    requires Shows(t, s)
    ensures var r, out := CreateTxn(t, name, config, now), Txn(false, maxStream, s, Create(name, config), now);
            Shows(r.tables, out.store) && r.reply == out.reply
  {
    assert ShowsAt(name, t, s);
    if !Taken(t, name, now) {
      ClearedHolds(t, s, name);
      ShowsPut(t, s, name, NewMeta(config), Cleared(t, name), EmptyLog(config));
    }
  }

  /** The store a freshly created stream appears in, through the cleared tables. */
  lemma CreatedShows(t: Tables, s: Store, name: string, config: StreamConfig, stored: seq<Bytes>, close: bool)
    requires Shows(t, s)
    ensures Shows(Appending(Tables(t.streams, Cleared(t, name)), name, NewMeta(config).(closed := close), stored),
                  s[name := EmptyLog(config).(messages := stored, closed := close)])
    ensures NewMeta(config).(closed := close).Push(stored).Next() == NextOffset(stored)
  {
    assert ShowsAt(name, t, s);
    ClearedHolds(t, s, name);
    var meta, log := NewMeta(config).(closed := close), EmptyLog(config).(closed := close);
    var cleared := Tables(t.streams[name := meta], Cleared(t, name));
    ShowsPut(t, s, name, meta, Cleared(t, name), log);
    AppendingShows(cleared, s[name := log], name, meta, stored, log);
    assert [] + stored == stored;
    assert s[name := log][name := log.(messages := stored)] == s[name := log.(messages := stored)];
    assert cleared.streams[name := meta.Push(stored)] == t.streams[name := meta.Push(stored)];
  }

  lemma CreateDataRefines(maxStream: nat, t: Tables, s: Store, c: Call, now: int, reserved: bool)
    requires Shows(t, s) && c.CreateWithData?
    ensures var r := CreateDataTxn(maxStream, t, c.name, c.config, c.messages, c.close, now, reserved);
            var out := Txn(false, maxStream, s, Effective(Acid, c), now);
            if !Occupied(s, c.name, now) && SumLen(c.messages) > 0 && !reserved
            then r == Aborted(t, MemoryLimitExceeded)
            else Shows(r.tables, out.store) && r.reply == out.reply
  {
    assert ShowsAt(c.name, t, s);
    if !Taken(t, c.name, now) && !(SumLen(c.messages) > 0 && (!reserved || SumLen(c.messages) > maxStream)) {
      CreatedShows(t, s, c.name, c.config, if SumLen(c.messages) > 0 then c.messages else [], c.close);
    }
  }

  lemma AppendRefines(maxStream: nat, t: Tables, s: Store, name: string, batch: seq<Bytes>, contentType: string,
                      streamSeq: Option<string>, now: int)
    requires Shows(t, s) && name in s
    ensures name in t.streams && t.streams[name].Next() == NextOffset(s[name].messages)
    ensures var (t', error) := AppendTxn(maxStream, t, name, batch, contentType, streamSeq, now);
            match AppendTo(maxStream, s[name], batch, contentType, streamSeq, now)
            case Err(e) => error == Some(e)
            case Ok(log) => error == None && Shows(t', s[name := log])
                            && name in t'.streams && t'.streams[name].Next() == NextOffset(log.messages)
  {
    assert ShowsAt(name, t, s);
    if AppendTo(maxStream, s[name], batch, contentType, streamSeq, now).Ok? {
      AppendingShows(t, s, name, t.streams[name].(lastSeq := CommitSeq(t.streams[name].lastSeq, streamSeq)), batch,
                     s[name].(lastSeq := CommitSeq(s[name].lastSeq, streamSeq)));
    }
  }

  lemma ProducerRefines(maxStream: nat, t: Tables, s: Store, c: Call, now: int)
    requires Shows(t, s) && c.ProducerAppend? && c.name in s
    ensures var r := ProducerTxn(maxStream, t, c.name, c.messages, c.contentType, c.producer, c.close, c.streamSeq,
                                 now);
            var (log, reply) := ProducerAppendTo(false, maxStream, s[c.name], c.messages, c.contentType, c.producer,
                                                 c.close, c.streamSeq, now);
            r.reply == reply && Shows(r.tables, s[c.name := log])
  {
    var name := c.name;
    assert ShowsAt(name, t, s);
    assert s[name := s[name]] == s;
    var meta, p := t.streams[name], c.producer;
    var live := Live(meta.producers, now);
    var (next, reply) := Decide(true, maxStream, Cleaned(s[name], now), c.messages, c.contentType, p, c.close,
                                c.streamSeq, now);
    if next.Some? {
      var st := live[p.id := ProducerState(p.epoch, p.seqNo, now)];
      var meta' := meta.(lastSeq := CommitSeq(meta.lastSeq, c.streamSeq), closed := meta.closed || c.close,
                         producers := st);
      var log' := s[name].(lastSeq := CommitSeq(meta.lastSeq, c.streamSeq), closed := meta.closed || c.close,
                           producers := st);
      AppendingShows(t, s, name, meta', c.messages, log');
      assert next.value == log'.(messages := s[name].messages + c.messages);
    }
  }

  /** Each write transaction on the tables does what the abstract transaction does, and keeps the table invariant. */
  lemma TableTxnRefines(maxStream: nat, t: Tables, s: Store, c: Call, now: int, reserved: bool)
    requires Shows(t, s) && !c.Read?
    requires c.CreateWithData? && !Occupied(s, c.name, now) && SumLen(c.messages) > 0 ==> reserved
    ensures var r, out := TableTxn(maxStream, t, c, now, reserved), Txn(false, maxStream, s, Effective(Acid, c), now);
            Shows(r.tables, out.store) && r.reply == out.reply
  {
    assert ShowsAt(c.name, t, s);
    match c
    case Create(name, config) => CreateRefines(maxStream, t, s, name, config, now);
    case CreateWithData(_, _, _, _) => CreateDataRefines(maxStream, t, s, c, now, reserved);
    case Append(name, data, contentType) =>
      if name in s { AppendRefines(maxStream, t, s, name, [data], contentType, None, now); }
    case BatchAppend(name, ms, contentType, streamSeq) =>
      if name in s && ms != [] { AppendRefines(maxStream, t, s, name, ms, contentType, streamSeq, now); }
    case ProducerAppend(name, _, _, _, _, _) =>
      if name in s { ProducerRefines(maxStream, t, s, c, now); }
    case Close(name) =>
      if name in s && !Expired(s[name].config, now) {
        ShowsPut(t, s, name, t.streams[name].(closed := true), t.rows, s[name].(closed := true));
      }
    case Delete(name) => ShowsRemove(t, s, name);
  }
}
