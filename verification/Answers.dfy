/**
  What a caller is answered, said from the fields of the stream and the request alone: which creations
  agree with an existing stream, what has expired, and what every append is told.
 */
module Answers {
  import opened Types
  import opened Validation
  import opened LogSpec
  import opened Runs
  import FileStorage

  // ---------------------------------------------------------------- expiry

  /** The stream has a time of expiry and it has come; how it got that time makes no difference. */
  predicate TimeUp(s: Store, name: string, now: int) {
    name in s && s[name].config.expiresAt.Some? && s[name].config.expiresAt.value <= now
  }

  ghost function Answer(b: Backend, lim: Limits, s: Store, c: Call, now: int): Reply {
    Apply(b, lim, s, c, now).reply
  }

  /** Reads and closes of an existing stream are refused as expired exactly when its time is up, and change nothing. */
  lemma ExpiredExactly(b: Backend, lim: Limits, s: Store, name: string, from: Offset, now: int)
    requires name in s
    ensures Answer(b, lim, s, Read(name, from), now) == Failed(StreamExpired) <==> TimeUp(s, name, now)
    ensures Answer(b, lim, s, Close(name), now) == Failed(StreamExpired) <==> TimeUp(s, name, now)
    ensures Apply(b, lim, s, Read(name, from), now).store == s
    ensures TimeUp(s, name, now) ==> Apply(b, lim, s, Close(name), now).store == s
    ensures !TimeUp(s, name, now) ==> Answer(b, lim, s, Close(name), now) == Done
  {}

  /** An append the byte cap does not turn away first is refused as expired exactly when the time is up. */
  lemma AppendExpiredExactly(b: Backend, lim: Limits, s: Store, c: Call, now: int)
    requires c.name in s && IsAppend(c) && (c.BatchAppend? ==> c.messages != [])
    ensures Answer(b, lim, s, c, now) == Failed(StreamExpired) <==>
            TimeUp(s, c.name, now) && !CapFirst(b, lim, s, c)
  {}

  /** The ACID backend compares the bytes of an append with the cap before it looks at the stream. */
  ghost predicate CapFirst(b: Backend, lim: Limits, s: Store, c: Call) {
    b == Acid && 0 < SumLen(BatchOf(c)) && lim.maxTotal < Total(s) + SumLen(BatchOf(c))
  }

  /** A creation makes a new stream of a taken name exactly when the time of the old one is up. */
  lemma ReplacedExactly(b: Backend, lim: Limits, s: Store, name: string, config: StreamConfig, now: int)
    requires name in s
    ensures var out := Apply(b, lim, s, Create(name, config), now);
            && (out.reply == Created <==> TimeUp(s, name, now))
            && (out.reply == Created ==> out.store == s[name := StreamLog(config, [], false, None, map[])])
  {}

  lemma ReplacedWithDataExactly(b: Backend, lim: Limits, s: Store, c: Call, now: int)
    requires c.CreateWithData? && c.name in s
    ensures var out := Apply(b, lim, s, c, now);
            && (out.reply.CreatedWith? && out.reply.isNew ==> TimeUp(s, c.name, now))
            && (out.reply == Failed(ConfigMismatch) || (out.reply.CreatedWith? && !out.reply.isNew) <==>
                  !TimeUp(s, c.name, now))
  {}

  /** A restart keeps a stream, unchanged, exactly when its time is not up. */
  lemma KeptExactly(s: Store, name: string, now: int)
    ensures name in Unexpired(s, now) <==> name in s && !TimeUp(s, name, now)
    ensures name in Unexpired(s, now) ==> Unexpired(s, now)[name] == s[name]
  {}

  /** And so does the file backend when it reads its directory back. */
  lemma RecoveredExactly(disk: map<string, FileStorage.OnDisk>, name: string, now: int)
    ensures name in FileStorage.Recovered(disk, now) <==>
            name in disk && (disk[name].meta.config.expiresAt.None? || now < disk[name].meta.config.expiresAt.value)
  {}

  // ---------------------------------------------------- creating what exists

  /**
    A creation of a name that is taken changes nothing, and succeeds exactly when the content type, the time
    to live and the closed mark are those of the stream and, where there is no time to live, the time of
    expiry is.
   */
  lemma CreateOnTaken(b: Backend, lim: Limits, s: Store, name: string, config: StreamConfig, now: int)
    requires name in s && !TimeUp(s, name, now)
    ensures var have := s[name].config;
            Apply(b, lim, s, Create(name, config), now) ==
            Outcome(s, if && have.contentType == config.contentType && have.ttlSeconds == config.ttlSeconds
                          && have.createdClosed == config.createdClosed
                          && (config.ttlSeconds == None ==> have.expiresAt == config.expiresAt)
                       then AlreadyExists else Failed(ConfigMismatch))
  {}

  lemma CreateWithDataOnTaken(b: Backend, lim: Limits, s: Store, c: Call, now: int)
    requires c.CreateWithData? && c.name in s && !TimeUp(s, c.name, now)
    ensures var log := s[c.name];
            Apply(b, lim, s, c, now) ==
            Outcome(s, if && log.config.contentType == c.config.contentType
                          && log.config.ttlSeconds == c.config.ttlSeconds
                          && log.config.createdClosed == c.config.createdClosed
                          && (c.config.ttlSeconds == None ==> log.config.expiresAt == c.config.expiresAt)
                       then CreatedWith(false, At(|log.messages|, SumLen(log.messages)), log.closed)
                       else Failed(ConfigMismatch))
  {}

  // --------------------------------------------------------------- appends

  /** The same letters in the same places, capitals or not. */
  predicate SameLetters(a: string, b: string) {
    |a| == |b| && forall i :: 0 <= i < |a| ==> SameLetter(a[i], b[i])
  }

  /** The new Stream-Seq does not come after the one in force. */
  ghost predicate OutOfOrder(last: Option<string>, new_: Option<string>) {
    last.Some? && new_.Some? && !ComesAfter(last.value, new_.value)
  }

  lemma OutOfOrderExactly(last: Option<string>, new_: Option<string>)
    ensures ValidateSeq(last, new_) ==
            if OutOfOrder(last, new_) then SeqRejected(SeqOrderingViolation(last.value, new_.value)) else SeqOk(new_)
  {
    if last.Some? && new_.Some? {
      LexLessExactly(last.value, new_.value);
      LexLessStrict(last.value, new_.value);
    }
  }

  /** What the byte limits say to a batch for a stream that holds `log`. */
  ghost function LimitAnswer(b: Backend, lim: Limits, s: Store, log: StreamLog, ms: seq<Bytes>): Option<Error> {
    if b == File && (exists i :: 0 <= i < |ms| && |ms[i]| >= 4_294_967_296) then Some(RecordTooLarge)
    else if b != Acid && Total(s) + SumLen(ms) > lim.maxTotal then Some(MemoryLimitExceeded)
    else if SumLen(log.messages) + SumLen(ms) > lim.maxStream then Some(StreamSizeLimitExceeded)
    else None
  }

  /** What an append to an existing stream is answered, in the order of precedence. */
  ghost function AppendAnswer(b: Backend, lim: Limits, s: Store, name: string, ms: seq<Bytes>, contentType: string,
                              streamSeq: Option<string>, now: int, done: Offset): Reply
    requires name in s
  {
    var log := s[name];
    if b == Acid && 0 < SumLen(ms) && lim.maxTotal < Total(s) + SumLen(ms) then Failed(MemoryLimitExceeded)
    else if TimeUp(s, name, now) then Failed(StreamExpired)
    else if log.closed then Failed(StreamClosed)
    else if !SameLetters(contentType, log.config.contentType) then
      Failed(ContentTypeMismatch(log.config.contentType, contentType))
    else if OutOfOrder(log.lastSeq, streamSeq) then
      Failed(SeqOrderingViolation(log.lastSeq.value, streamSeq.value))
    else
      var full := LimitAnswer(b, lim, s, log, ms);
      if full.Some? then Failed(full.value) else Appended(done)
  }

  /** A single append is answered with the offset of its message. */
  lemma AppendAnswered(b: Backend, lim: Limits, s: Store, name: string, data: Bytes, contentType: string, now: int)
    requires name in s
    ensures Answer(b, lim, s, Append(name, data, contentType), now) ==
            AppendAnswer(b, lim, s, name, [data], contentType, None, now, NextOffset(s[name].messages))
  {
    SameTypeExactly(contentType, s[name].config.contentType);
  }

  /** A batch is answered with the offset behind its last message. */
  lemma BatchAnswered(b: Backend, lim: Limits, s: Store, name: string, ms: seq<Bytes>, contentType: string,
                      streamSeq: Option<string>, now: int)
    requires name in s && ms != []
    ensures Answer(b, lim, s, BatchAppend(name, ms, contentType, streamSeq), now) ==
            AppendAnswer(b, lim, s, name, ms, contentType, streamSeq, now, NextOffset(s[name].messages + ms))
  {
    SameTypeExactly(contentType, s[name].config.contentType);
    OutOfOrderExactly(s[name].lastSeq, streamSeq);
  }

  // -------------------------------------------------------------- producers

  /** What the stream knows of a producer: its state, unless its last append is a week old. */
  function Remembered(log: StreamLog, id: string, now: int): Option<ProducerState> {
    if id in log.producers && now - log.producers[id].updatedAt < 604_800 * 1_000_000_000
    then Some(log.producers[id]) else None
  }

  /** What the producer's headers are answered on their own; None when they are in order. */
  function HeadersAnswer(log: StreamLog, p: ProducerHeaders, now: int): Option<Reply> {
    match Remembered(log, p.id, now)
    case None =>
      if log.closed then Some(Failed(StreamClosed))
      else if p.seqNo > 0 then Some(Failed(SequenceGap(0, p.seqNo)))
      else None
    case Some(st) =>
      if st.epoch > p.epoch then Some(Failed(EpochFenced(st.epoch, p.epoch)))
      else if st.epoch == p.epoch && st.lastSeq >= p.seqNo then
        Some(Duplicate(st.epoch, st.lastSeq, NextOffset(log.messages), log.closed))
      else if log.closed then Some(Failed(StreamClosed))
      else if st.epoch == p.epoch then
        if st.lastSeq + 1 == p.seqNo then None else Some(Failed(SequenceGap(st.lastSeq + 1, p.seqNo)))
      else if p.seqNo > 0 then Some(Failed(InvalidProducerState))
      else None
  }

  /** What a producer append is answered before its bytes are counted; None when nothing speaks against it. */
  ghost function StopAnswer(s: Store, c: Call, now: int): Option<Reply>
    requires c.ProducerAppend? && c.name in s
  {
    var log := s[c.name];
    var headers := HeadersAnswer(log, c.producer, now);
    if TimeUp(s, c.name, now) then Some(Failed(StreamExpired))
    else if c.messages != [] && !SameLetters(c.contentType, log.config.contentType) then
      Some(Failed(ContentTypeMismatch(log.config.contentType, c.contentType)))
    else if headers.Some? then headers
    else if OutOfOrder(log.lastSeq, c.streamSeq) then
      Some(Failed(SeqOrderingViolation(log.lastSeq.value, c.streamSeq.value)))
    else None
  }

  ghost function ProducerAnswer(b: Backend, lim: Limits, s: Store, c: Call, now: int): Reply
    requires c.ProducerAppend? && c.name in s
  {
    var log := s[c.name];
    if b == Acid && 0 < SumLen(c.messages) && lim.maxTotal < Total(s) + SumLen(c.messages) then
      Failed(MemoryLimitExceeded)
    else if StopAnswer(s, c, now).Some? then StopAnswer(s, c, now).value
    else if (c.messages != [] || b == Acid) && LimitAnswer(b, lim, s, log, c.messages).Some? then
      Failed(LimitAnswer(b, lim, s, log, c.messages).value)
    else
      Accepted(c.producer.epoch, c.producer.seqNo, NextOffset(log.messages + c.messages), log.closed || c.close)
  }

  lemma HeadersAnswered(log: StreamLog, p: ProducerHeaders, now: int)
    ensures var check := CheckProducer(Lookup(Live(log.producers, now), p.id), p, log.closed);
            HeadersAnswer(log, p, now) ==
            match check
            case Accept => None
            case Refuse(e) => Some(Failed(e))
            case Repeat(e, q) => Some(Duplicate(e, q, NextOffset(log.messages), log.closed))
  {
    RememberedExactly(log.producers, p.id, now);
  }

  lemma StopAnswered(s: Store, c: Call, now: int)
    requires c.ProducerAppend? && c.name in s
    ensures var log := s[c.name];
            ProducerStop(log.config, log.closed, log.lastSeq, Live(log.producers, now), NextOffset(log.messages),
                         c.messages, c.contentType, c.producer, c.streamSeq, now) == StopAnswer(s, c, now)
  {
    SameTypeExactly(c.contentType, s[c.name].config.contentType);
    HeadersAnswered(s[c.name], c.producer, now);
    OutOfOrderExactly(s[c.name].lastSeq, c.streamSeq);
  }

  /** Every producer append to an existing stream is answered like this, on every backend. */
  lemma ProducerAnswered(b: Backend, lim: Limits, s: Store, c: Call, now: int)
    requires c.ProducerAppend? && c.name in s
    ensures Answer(b, lim, s, c, now) == ProducerAnswer(b, lim, s, c, now)
  {
    StopAnswered(s, c, now);
  }

  /** A producer silent for seven days is forgotten: a first request of any epoch is in order again. */
  lemma ForgottenAfterAWeek(log: StreamLog, p: ProducerHeaders, now: int)
    requires p.id in log.producers && p.seqNo == 0 && !log.closed
    requires log.producers[p.id].epoch >= p.epoch
    ensures HeadersAnswer(log, p, now) == None <==>
            now - log.producers[p.id].updatedAt >= 7 * 24 * 3600 * 1_000_000_000
  {}
}
