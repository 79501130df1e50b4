/**
  What a call can do to one stream, said without the order of its checks. Everything
  proved about runs goes through these facts.
 */
module Effects {
  import opened Types
  import opened Validation
  import opened LogSpec

  /** The Stream-Seq a call carries. */
  function SeqOf(c: Call): Option<string> {
    match c
    case BatchAppend(_, _, _, q) => q
    case ProducerAppend(_, _, _, _, _, q) => q
    case _ => None
  }

  /** The reply says that a new stream took the name. */
  predicate Creates(r: Reply) {
    r.Created? || (r.CreatedWith? && r.isNew)
  }

  function Get(s: Store, name: string): Option<StreamLog> {
    if name in s then Some(s[name]) else None
  }

  /** An accepted append: the stream was open, the orderings held, and exactly the batch was added. */
  predicate Writes(log: StreamLog, c: Call, now: int, log': StreamLog) {
    && !log.closed
    && (log.lastSeq.Some? && SeqOf(c).Some? ==> LexLess(log.lastSeq.value, SeqOf(c).value))
    && log'.config == log.config
    && log'.messages == log.messages + BatchOf(c)
    && log'.lastSeq == CommitSeq(log.lastSeq, SeqOf(c))
    && if c.ProducerAppend? then
         var live := Live(log.producers, now);
         && CheckProducer(Lookup(live, c.producer.id), c.producer, false) == Accept
         && log'.producers == live[c.producer.id := ProducerState(c.producer.epoch, c.producer.seqNo, now)]
         && log'.closed == c.close
       else log'.producers == log.producers && !log'.closed
  }

  /** How a stream that keeps its identity may change under a call. */
  predicate Evolves(name: string, log: StreamLog, c: Call, now: int, r: Reply, log': StreamLog) {
    if c.name == name && (r.Appended? || r.Accepted?)
    then Writes(log, c, now, log') && (r.Accepted? <==> c.ProducerAppend?)
    else if c.name == name && c.Close? && r.Done? then log' == log.(closed := true)
    else log' == log || log' == Cleaned(log, now)
  }

  /** The stream a creation leaves. */
  function CreatedLog(c: Call): StreamLog
    requires c.Create? || c.CreateWithData?
  {
    if c.Create? then EmptyLog(c.config) else EmptyLog(c.config).(messages := c.messages, closed := c.close)
  }

  /** A stream is removed, is replaced by a new one, or evolves. */
  predicate Effect(name: string, log: Option<StreamLog>, c: Call, now: int, r: Reply, log': Option<StreamLog>) {
    || (log'.None? && (log.None? || (c.name == name && (c.Delete? || c.CreateWithData?))))
    || (c.name == name && Creates(r) && (c.Create? || c.CreateWithData?) && log' == Some(CreatedLog(c)))
    || (log.Some? && log'.Some? && Evolves(name, log.value, c, now, r, log'.value))
  }

  lemma AppendEffect(maxStream: nat, log: StreamLog, c: Call, now: int)
    requires c.Append? || c.BatchAppend?
    ensures var r := AppendTo(maxStream, log, BatchOf(c), c.contentType, SeqOf(c), now);
            r.Ok? ==> Writes(log, c, now, r.log)
  {
    if log.lastSeq.Some? && SeqOf(c).Some? {
      LexLessTotal(SeqOf(c).value, log.lastSeq.value);
    }
  }

  lemma ProducerEffect(keep: bool, maxStream: nat, log: StreamLog, c: Call, now: int)
    requires c.ProducerAppend?
    ensures var (log', r) := ProducerAppendTo(keep, maxStream, log, c.messages, c.contentType, c.producer, c.close,
                                              c.streamSeq, now);
            if r.Accepted? then Writes(log, c, now, log')
            else (r.Failed? || r.Duplicate?) && (log' == log || log' == Cleaned(log, now))
  {
    if log.lastSeq.Some? && SeqOf(c).Some? {
      LexLessTotal(SeqOf(c).value, log.lastSeq.value);
    }
  }

  lemma TxnFrame(keep: bool, maxStream: nat, name: string, s: Store, c: Call, now: int)
    requires name != c.name
    ensures var s' := Txn(keep, maxStream, s, c, now).store;
            Get(s', name) == Get(s, name)
  {}

  lemma TxnEffect(keep: bool, maxStream: nat, name: string, s: Store, c: Call, now: int)
    ensures var out := Txn(keep, maxStream, s, c, now);
       Effect(name, Get(s, name), c, now, out.reply, Get(out.store, name))
  {
    if name != c.name {
      TxnFrame(keep, maxStream, name, s, c, now);
    } else if name in s {
      match c {
        case Append(_, _, _) => AppendEffect(maxStream, s[name], c, now);
        case BatchAppend(_, _, _, _) => AppendEffect(maxStream, s[name], c, now);
        case ProducerAppend(_, _, _, _, _, _) => ProducerEffect(keep, maxStream, s[name], c, now);
        case _ =>
      }
    }
  }
}
