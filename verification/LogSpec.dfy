/**
  The abstract log every backend refines: a store is a map from names to
  append-only logs, and a call is one atomic transition on it.
 */
module LogSpec {
  import opened Types
  import opened Validation
  import opened Sums

  datatype StreamLog = StreamLog(
    config: StreamConfig,
    messages: seq<Bytes>,
    closed: bool,
    lastSeq: Option<string>,
    producers: Producers)

  type Store = map<string, StreamLog>

  datatype Outcome = Outcome(store: Store, reply: Reply)

  function EmptyLog(config: StreamConfig): StreamLog {
    StreamLog(config, [], false, None, map[])
  }

  // ---------------------------------------------------------------- reading

  function OffsetOf(ms: seq<Bytes>, i: nat): Offset
    requires i <= |ms|
  {
    At(i, SumLen(ms[..i]))
  }

  /** The order of concrete offsets; `-1` lies below and `now` above all of them. */
  predicate Before(a: Offset, b: Offset) {
    match (a, b)
    case (At(r, o), At(r', o')) => r < r' || (r == r' && o < o')
    case (Start, Start) => false
    case (Start, _) => true
    case (Now, _) => false
    case (At(_, _), Now) => true
    case (At(_, _), Start) => false
  }

  /** Index of the first message a read from `from` returns. */
  function StartIndex(ms: seq<Bytes>, from: Offset): (k: nat)
    ensures k <= |ms|
  {
    match from
    case Start => 0
    case Now => |ms|
    case At(r, o) =>
      if r >= |ms| then |ms|
      else if o <= SumLen(ms[..r]) then r
      else r + 1
  }

  /**
    A read from any offset, assigned or not, starts exactly at the first
    message whose offset is not below it.
   */
  lemma StartIndexExact(ms: seq<Bytes>, from: Offset, i: nat)
    requires i < |ms|
    ensures i >= StartIndex(ms, from) <==> !Before(OffsetOf(ms, i), from)
  {}

  function ReadLog(log: StreamLog, from: Offset): Reply {
    Messages(log.messages[StartIndex(log.messages, from)..],
             NextOffset(log.messages), true, log.closed)
  }

  // ---------------------------------------------------------------- writing

  datatype StreamResult = Ok(log: StreamLog) | Err(error: Error)

  /** The first check an append fails before the byte limits are looked at. */
  function AppendRefusal(config: StreamConfig, closed: bool, lastSeq: Option<string>, contentType: string,
                         streamSeq: Option<string>, now: int): Option<Error> {
    if Expired(config, now) then Some(StreamExpired)
    else if closed then Some(StreamClosed)
    else if !EqIgnoreAsciiCase(contentType, config.contentType) then
      Some(ContentTypeMismatch(config.contentType, contentType))
    else match ValidateSeq(lastSeq, streamSeq)
      case SeqRejected(e) => Some(e)
      case SeqOk(_) => None
  }

  /** `append` and `batch_append` on an existing stream. */
  function AppendTo(maxStream: nat, log: StreamLog, ms: seq<Bytes>, contentType: string,
                    streamSeq: Option<string>, now: int): StreamResult {
    var refusal := AppendRefusal(log.config, log.closed, log.lastSeq, contentType, streamSeq, now);
    if refusal.Some? then Err(refusal.value)
    else if SumLen(log.messages) + SumLen(ms) > maxStream then Err(StreamSizeLimitExceeded)
    else Ok(log.(messages := log.messages + ms, lastSeq := CommitSeq(log.lastSeq, streamSeq)))
  }

  /** The log without its stale producers. */
  function Cleaned(log: StreamLog, now: int): StreamLog {
    log.(producers := Live(log.producers, now))
  }

  /** The log a failed or duplicate producer append leaves behind. */
  function Evicted(keep: bool, log: StreamLog, now: int): StreamLog {
    if keep && !Expired(log.config, now) then Cleaned(log, now) else log
  }

  /** The reply of the first check a producer append stops at, given producers without stale ones. */
  function ProducerStop(config: StreamConfig, closed: bool, lastSeq: Option<string>, live: Producers, next: Offset,
                        ms: seq<Bytes>, contentType: string, p: ProducerHeaders, streamSeq: Option<string>, now: int)
    : Option<Reply>
  {
    if Expired(config, now) then Some(Failed(StreamExpired))
    else if ms != [] && !EqIgnoreAsciiCase(contentType, config.contentType) then
      Some(Failed(ContentTypeMismatch(config.contentType, contentType)))
    else match CheckProducer(Lookup(live, p.id), p, closed)
      case Refuse(e) => Some(Failed(e))
      case Repeat(e, q) => Some(Duplicate(e, q, next, closed))
      case Accept =>
        match ValidateSeq(lastSeq, streamSeq)
        case SeqRejected(e) => Some(Failed(e))
        case SeqOk(_) => None
  }

  /** The log after an accepted producer append. */
  function ProducerCommit(log: StreamLog, ms: seq<Bytes>, p: ProducerHeaders, close: bool,
                          streamSeq: Option<string>, now: int): StreamLog {
    log.(messages := log.messages + ms,
         closed := log.closed || close,
         lastSeq := CommitSeq(log.lastSeq, streamSeq),
         producers := log.producers[p.id := ProducerState(p.epoch, p.seqNo, now)])
  }

  /**
    The decision on a producer append, given a log without stale producers; `strict` says whether an
    empty batch is held against the stream limit too.
   */
  function Decide(strict: bool, maxStream: nat, log: StreamLog, ms: seq<Bytes>, contentType: string,
                  p: ProducerHeaders, close: bool, streamSeq: Option<string>, now: int)
    : (Option<StreamLog>, Reply)
  {
    var stop := ProducerStop(log.config, log.closed, log.lastSeq, log.producers, NextOffset(log.messages),
                             ms, contentType, p, streamSeq, now);
    if stop.Some? then (None, stop.value)
    else if (strict || ms != []) && SumLen(log.messages) + SumLen(ms) > maxStream
    then (None, Failed(StreamSizeLimitExceeded))
    else
      var log' := ProducerCommit(log, ms, p, close, streamSeq, now);
      (Some(log'), Accepted(p.epoch, p.seqNo, NextOffset(log'.messages), log'.closed))
  }

  /**
    `append_with_producer`; `keep` says whether evictions survive a call that does not commit. The
    backend that keeps none is also the one that holds empty batches against the stream limit.
   */
  function ProducerAppendTo(keep: bool, maxStream: nat, log: StreamLog, ms: seq<Bytes>, contentType: string,
                            p: ProducerHeaders, close: bool, streamSeq: Option<string>, now: int)
    : (StreamLog, Reply)
  {
    var (next, reply) := Decide(!keep, maxStream, Cleaned(log, now), ms, contentType, p, close, streamSeq, now);
    (if next.Some? then next.value else Evicted(keep, log, now), reply)
  }

  /** Whether `name` is taken by a stream that has not expired. */
  predicate Occupied(s: Store, name: string, now: int) {
    name in s && !Expired(s[name].config, now)
  }

  /** One call as a transaction: everything but the global byte cap. */
  function Txn(keep: bool, maxStream: nat, s: Store, c: Call, now: int): Outcome {
    match c
    case Create(name, config) =>
      if Occupied(s, name, now) then
        Outcome(s, if SameConfig(s[name].config, config) then AlreadyExists else Failed(ConfigMismatch))
      else
        Outcome(s[name := EmptyLog(config)], Created)
    case CreateWithData(name, config, ms, close) =>
      if Occupied(s, name, now) then
        Outcome(s, if SameConfig(s[name].config, config)
                   then CreatedWith(false, NextOffset(s[name].messages), s[name].closed)
                   else Failed(ConfigMismatch))
      else if ms != [] && SumLen(ms) > maxStream then
        Outcome(if keep then s - {name} else s, Failed(StreamSizeLimitExceeded))
      else
        Outcome(s[name := EmptyLog(config).(messages := ms, closed := close)],
                CreatedWith(true, NextOffset(ms), close))
    case Append(name, data, contentType) =>
      if name !in s then Outcome(s, Failed(NotFound))
      else (match AppendTo(maxStream, s[name], [data], contentType, None, now)
        case Err(e) => Outcome(s, Failed(e))
        case Ok(log) => Outcome(s[name := log], Appended(NextOffset(s[name].messages))))
    case BatchAppend(name, ms, contentType, streamSeq) =>
      if ms == [] then Outcome(s, Failed(EmptyBatch))
      else if name !in s then Outcome(s, Failed(NotFound))
      else (match AppendTo(maxStream, s[name], ms, contentType, streamSeq, now)
        case Err(e) => Outcome(s, Failed(e))
        case Ok(log) => Outcome(s[name := log], Appended(NextOffset(log.messages))))
    case ProducerAppend(name, ms, contentType, p, close, streamSeq) =>
      if name !in s then Outcome(s, Failed(NotFound))
      else
        var (log, reply) := ProducerAppendTo(keep, maxStream, s[name], ms, contentType, p, close, streamSeq, now);
        Outcome(s[name := log], reply)
    case Read(name, from) =>
      Outcome(s, if name !in s then Failed(NotFound)
                 else if Expired(s[name].config, now) then Failed(StreamExpired)
                 else ReadLog(s[name], from))
    case Close(name) =>
      if name !in s then Outcome(s, Failed(NotFound))
      else if Expired(s[name].config, now) then Outcome(s, Failed(StreamExpired))
      else Outcome(s[name := s[name].(closed := true)], Done)
    case Delete(name) =>
      if name !in s then Outcome(s, Failed(NotFound)) else Outcome(s - {name}, Done)
  }

  // ------------------------------------------------------- the global byte cap

  function ByteSizes(s: Store): map<string, nat> {
    map n | n in s :: SumLen(s[n].messages)
  }

  ghost function Total(s: Store): nat {
    MapSum(ByteSizes(s))
  }

  lemma TotalUpdate(s: Store, name: string, log: StreamLog)
    ensures Total(s[name := log]) == Total(s - {name}) + SumLen(log.messages)
    ensures Total(s) == Total(s - {name}) + (if name in s then SumLen(s[name].messages) else 0)
  {
    MapSumUpdate(ByteSizes(s), name, SumLen(log.messages));
    assert ByteSizes(s[name := log]) == ByteSizes(s)[name := SumLen(log.messages)];
    assert ByteSizes(s - {name}) == ByteSizes(s) - {name};
  }

  function BatchOf(c: Call): seq<Bytes> {
    match c
    case CreateWithData(_, _, ms, _) => ms
    case Append(_, data, _) => [data]
    case BatchAppend(_, ms, _, _) => ms
    case ProducerAppend(_, ms, _, _, _, _) => ms
    case _ => []
  }

  /** The call passed every check that comes before the byte limits and carries data. */
  predicate ReachesLimits(c: Call, r: Reply) {
    && BatchOf(c) != []
    && (r.Appended? || r.Accepted? || (r.CreatedWith? && r.isNew) || r == Failed(StreamSizeLimitExceeded))
  }

  /** The store a call leaves when it is refused at the byte limits. */
  function Refused(keep: bool, s: Store, c: Call, now: int): Store {
    if !keep then s
    else if c.ProducerAppend? && c.name in s then s[c.name := Evicted(true, s[c.name], now)]
    else if c.CreateWithData? && c.name in s && Expired(s[c.name].config, now) then s - {c.name}
    else s
  }

  datatype Backend = Memory | File | Acid

  /** The bytes the cap is compared with: memory and file release an expired stream first. */
  ghost function Charged(b: Backend, s: Store, c: Call, now: int): nat {
    if b != Acid && c.CreateWithData? then Total(Refused(true, s, c, now)) else Total(s)
  }

  predicate HasLongRecord(ms: seq<Bytes>) {
    exists i :: 0 <= i < |ms| && |ms[i]| >= TWO32
  }

  /** The ACID backend stores no initial message when the whole batch is zero bytes long. */
  function Effective(b: Backend, c: Call): Call {
    if b == Acid && c.CreateWithData? && SumLen(c.messages) == 0
    then CreateWithData(c.name, c.config, [], c.close) else c
  }

  /** ACID reserves before it looks at the stream, except in create-with-data. */
  ghost predicate RefusedUpFront(b: Backend, lim: Limits, s: Store, c: Call) {
    b == Acid && !c.CreateWithData? && SumLen(BatchOf(c)) > 0 && Total(s) + SumLen(BatchOf(c)) > lim.maxTotal
  }

  /** The outcome of a call whose transaction alone would give `out`. */
  ghost function Capped(b: Backend, lim: Limits, s: Store, c: Call, now: int, out: Outcome): Outcome {
    if RefusedUpFront(b, lim, s, c) then Outcome(s, Failed(MemoryLimitExceeded))
    else if !ReachesLimits(Effective(b, c), out.reply) then out
    else if b == File && HasLongRecord(BatchOf(c)) then
      Outcome(Refused(b != Acid, s, c, now), Failed(RecordTooLarge))
    else if (b != Acid || SumLen(BatchOf(c)) > 0) && Charged(b, s, c, now) + SumLen(BatchOf(c)) > lim.maxTotal then
      Outcome(Refused(b != Acid, s, c, now), Failed(MemoryLimitExceeded))
    else out
  }

  /** A call on a backend, with the byte cap. */
  ghost function Apply(b: Backend, lim: Limits, s: Store, c: Call, now: int): Outcome {
    Capped(b, lim, s, c, now, Txn(b != Acid, lim.maxStream, s, Effective(b, c), now))
  }
}
