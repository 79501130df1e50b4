/**
  Byte limits as memory and file apply them, and what each call comes to once its
  transaction and the limits are put together.
 */
module Limiting {
  import opened Types
  import opened Validation
  import opened LogSpec

  function SaturatingSub(a: nat, b: nat): nat {
    if a >= b then a - b else 0
  }

  method BatchBytes(batch: seq<Bytes>) returns (bytes: nat)
    ensures bytes == SumLen(batch)
  {
    bytes := 0;
    for i := 0 to |batch|
      invariant bytes == SumLen(batch[..i])
    {
      assert batch[..i + 1] == batch[..i] + [batch[i]];
      SumLenPush(batch[..i], batch[i]);
      bytes := bytes + |batch[i]|;
    }
    assert batch[..|batch|] == batch;
  }

  /** The limit a batch breaks, the global one taking precedence over the stream's. */
  function LimitError(b: Backend, lim: Limits, total: nat, streamBytes: nat, batch: seq<Bytes>): Option<Error> {
    if batch == [] then None
    else if b == File && HasLongRecord(batch) then Some(RecordTooLarge)
    else if total + SumLen(batch) > lim.maxTotal then Some(MemoryLimitExceeded)
    else if streamBytes + SumLen(batch) > lim.maxStream then Some(StreamSizeLimitExceeded)
    else None
  }

  lemma PutTotal(s: Store, name: string, batch: seq<Bytes>, log: StreamLog)
    requires name in s && log.messages == s[name].messages + batch
    ensures Total(s[name := log]) == Total(s) + SumLen(batch)
  {
    TotalUpdate(s, name, log);
    SumLenAppend(s[name].messages, batch);
  }

  lemma SameBytes(s: Store, name: string, log: StreamLog)
    requires name in s && log.messages == s[name].messages
    ensures Total(s[name := log]) == Total(s)
  {
    TotalUpdate(s, name, log);
  }

  lemma NewTotal(s: Store, name: string, log: StreamLog)
    requires name !in s
    ensures Total(s[name := log]) == Total(s) + SumLen(log.messages)
  {
    TotalUpdate(s, name, log);
    assert s - {name} == s;
  }

  lemma PutBack(s: Store, name: string, log: StreamLog)
    ensures (s - {name})[name := log] == s[name := log]
  {}

  /** Which calls wake the subscribers of their stream. */
  predicate Notifies(b: Backend, c: Call, r: Reply) {
    match c
    case Append(_, _, _) => b != Memory && r.Appended?
    case BatchAppend(_, _, _, _) => r.Appended?
    case ProducerAppend(_, ms, _, _, close, _) =>
      if b == Acid then (r.Accepted? || r.Duplicate?) && (ms != [] || close) else r.Accepted? && ms != []
    case Close(_) => r.Done?
    case CreateWithData(_, _, ms, close) => b == Acid && r.CreatedWith? && (ms != [] || close)
    case _ => false
  }

  /** Whose subscribers a call wakes. */
  function Told(b: Backend, c: Call, r: Reply): seq<string> {
    if Notifies(b, c, r) then [c.name] else []
  }

  lemma MissingApplied(b: Backend, lim: Limits, s: Store, c: Call, now: int)
    requires b != Acid && c.name !in s
    requires c.Append? || c.ProducerAppend? || (c.BatchAppend? && c.messages != [])
    ensures Apply(b, lim, s, c, now) == Outcome(s, Failed(NotFound))
  {}

  lemma ExpiredProducerApplied(b: Backend, lim: Limits, s: Store, c: Call, now: int)
    requires b != Acid && c.ProducerAppend? && c.name in s && Expired(s[c.name].config, now)
    ensures Apply(b, lim, s, c, now) == Outcome(s, Failed(StreamExpired))
  {
    assert s[c.name := s[c.name]] == s;
  }

  // ------------------------------------------------ appends without a producer

  /** The outcome of an append to an existing stream, limits included. */
  ghost predicate AppendedOrNot(b: Backend, lim: Limits, s: Store, name: string, batch: seq<Bytes>, contentType: string,
                                streamSeq: Option<string>, now: int, s': Store, error: Option<Error>)
    requires name in s
  {
    var log := s[name];
    var refusal := AppendRefusal(log.config, log.closed, log.lastSeq, contentType, streamSeq, now);
    var limit := LimitError(b, lim, Total(s), SumLen(log.messages), batch);
    if refusal.Some? then error == refusal && s' == s
    else if limit.Some? then error == limit && s' == s
    else error == None &&
         s' == s[name := log.(messages := log.messages + batch, lastSeq := CommitSeq(log.lastSeq, streamSeq))]
  }

  lemma BatchApplied(b: Backend, lim: Limits, s: Store, name: string, batch: seq<Bytes>, contentType: string,
                     streamSeq: Option<string>, now: int, s': Store, error: Option<Error>)
    requires b != Acid && name in s && batch != []
    requires AppendedOrNot(b, lim, s, name, batch, contentType, streamSeq, now, s', error)
    ensures Outcome(s', if error.Some? then Failed(error.value) else Appended(NextOffset(s'[name].messages)))
            == Apply(b, lim, s, BatchAppend(name, batch, contentType, streamSeq), now)
  {}

  lemma AppendApplied(b: Backend, lim: Limits, s: Store, name: string, data: Bytes, contentType: string,
                      now: int, s': Store, error: Option<Error>)
    requires b != Acid && name in s
    requires AppendedOrNot(b, lim, s, name, [data], contentType, None, now, s', error)
    ensures Outcome(s', if error.Some? then Failed(error.value) else Appended(NextOffset(s[name].messages)))
            == Apply(b, lim, s, Append(name, data, contentType), now)
  {}

  // --------------------------------------------------------- producer appends

  /** The outcome of a producer append on a store whose stream holds no stale producers. */
  ghost predicate ProducedInto(b: Backend, lim: Limits, s: Store, c: Call, now: int, s': Store, r: Reply)
    requires c.ProducerAppend? && c.name in s
  {
    var log := s[c.name];
    var stop := ProducerStop(log.config, log.closed, log.lastSeq, log.producers, NextOffset(log.messages),
                             c.messages, c.contentType, c.producer, c.streamSeq, now);
    var limit := LimitError(b, lim, Total(s), SumLen(log.messages), c.messages);
    if stop.Some? then r == stop.value && s' == s
    else if limit.Some? then r == Failed(limit.value) && s' == s
    else
      var log' := ProducerCommit(log, c.messages, c.producer, c.close, c.streamSeq, now);
      s' == s[c.name := log'] && r == Accepted(c.producer.epoch, c.producer.seqNo, NextOffset(log'.messages),
                                               log'.closed)
  }

  lemma ProducerApplied(b: Backend, lim: Limits, s: Store, c: Call, now: int, s': Store, r: Reply)
    requires b != Acid && c.ProducerAppend? && c.name in s && !Expired(s[c.name].config, now)
    requires ProducedInto(b, lim, s[c.name := Cleaned(s[c.name], now)], c, now, s', r)
    ensures Outcome(s', r) == Apply(b, lim, s, c, now)
  {
    var name, live := c.name, Cleaned(s[c.name], now);
    SameBytes(s, name, live);
    ProducerTxnIs(lim.maxStream, s, c, now);
    var log' := ProducerCommit(live, c.messages, c.producer, c.close, c.streamSeq, now);
    assert s[name := live][name := log'] == s[name := log'];
    assert Refused(true, s, c, now) == s[name := live];
  }

  /** The transaction of a producer append in terms of the stream without its stale producers. */
  lemma ProducerTxnIs(maxStream: nat, s: Store, c: Call, now: int)
    requires c.ProducerAppend? && c.name in s && !Expired(s[c.name].config, now)
    ensures var live := Cleaned(s[c.name], now);
            var (next, reply) := Decide(false, maxStream, live, c.messages, c.contentType, c.producer, c.close,
                                        c.streamSeq, now);
            Txn(true, maxStream, s, c, now) == Outcome(s[c.name := if next.Some? then next.value else live], reply)
  {}

  // ---------------------------------------------------------------- creation

  ghost predicate CreatedOrNot(b: Backend, lim: Limits, s: Store, c: Call, now: int, s': Store, r: Reply)
    requires c.CreateWithData?
  {
    var cleared := s - {c.name};
    var limit := LimitError(b, lim, Total(cleared), 0, c.messages);
    if Occupied(s, c.name, now) then
      && s' == s
      && r == (if SameConfig(s[c.name].config, c.config)
               then CreatedWith(false, NextOffset(s[c.name].messages), s[c.name].closed)
               else Failed(ConfigMismatch))
    else if limit.Some? then s' == cleared && r == Failed(limit.value)
    else
      && s' == s[c.name := EmptyLog(c.config).(messages := c.messages, closed := c.close)]
      && r == CreatedWith(true, NextOffset(c.messages), c.close)
  }

  lemma CreateDataApplied(b: Backend, lim: Limits, s: Store, c: Call, now: int, s': Store, r: Reply)
    requires b != Acid && c.CreateWithData?
    requires CreatedOrNot(b, lim, s, c, now, s', r)
    ensures Outcome(s', r) == Apply(b, lim, s, c, now)
  {
    if c.name !in s { assert s - {c.name} == s; }
  }
}
