/**
  Whole runs of the abstract log. An event is a committed or failed transaction,
  a call refused at the byte cap, or a restart of a backend whose disk is transactional.
 */
module Runs {
  import opened Types
  import opened Validation
  import opened LogSpec
  import opened Effects

  datatype Event =
    | Commit(call: Call, now: int)
    | CapRefused(call: Call, now: int)
    | Restart(now: int)

  /** A restart drops the streams that have expired and nothing else. */
  function Unexpired(s: Store, now: int): Store {
    map n | n in s && !Expired(s[n].config, now) :: s[n]
  }

  function Next(keep: bool, maxStream: nat, s: Store, e: Event): Outcome {
    match e
    case Commit(c, now) => Txn(keep, maxStream, s, c, now)
    case CapRefused(c, now) => Outcome(Refused(keep, s, c, now), Failed(MemoryLimitExceeded))
    case Restart(now) => Outcome(Unexpired(s, now), Done)
  }

  function After(keep: bool, maxStream: nat, s: Store, es: seq<Event>): Store {
    if es == [] then s
    else Next(keep, maxStream, After(keep, maxStream, s, es[..|es| - 1]), es[|es| - 1]).store
  }

  /** The stream called `name` exists before and after the event and is the same one. */
  predicate Survives(name: string, s: Store, e: Event, out: Outcome) {
    && name in s
    && name in out.store
    && !(e.Commit? && e.call.name == name && Creates(out.reply))
  }

  predicate IsPrefix(a: seq<Bytes>, b: seq<Bytes>) {
    |a| <= |b| && b[..|a|] == a
  }

  /** What one event can do to a stream that survives it. */
  predicate EvolvesBy(name: string, log: StreamLog, e: Event, r: Reply, log': StreamLog) {
    match e
    case Commit(c, now) => Evolves(name, log, c, now, r, log')
    case CapRefused(c, now) => log' == log || log' == Cleaned(log, now)
    case Restart(_) => log' == log
  }

  lemma NextEvolves(keep: bool, maxStream: nat, name: string, s: Store, e: Event)
    requires Survives(name, s, e, Next(keep, maxStream, s, e))
    ensures var out := Next(keep, maxStream, s, e);
            EvolvesBy(name, s[name], e, out.reply, out.store[name])
  {
    if e.Commit? { TxnEffect(keep, maxStream, name, s, e.call, e.now); }
  }

  /** A surviving stream only grows, keeps its configuration and never reopens; once closed it is frozen. */
  lemma SurvivorGrows(name: string, log: StreamLog, e: Event, r: Reply, log': StreamLog)
    requires EvolvesBy(name, log, e, r, log')
    ensures && IsPrefix(log.messages, log'.messages)
            && log'.config == log.config
            && (log.closed ==> log'.closed && log'.messages == log.messages && log'.lastSeq == log.lastSeq)
  {}

  // ---------------------------------------------------------- all or nothing

  /** Equal stores, except that stale producers may be gone from `b`. */
  ghost predicate SameUpToStale(a: Store, b: Store, now: int) {
    && a.Keys == b.Keys
    && forall n :: n in a ==> b[n] == a[n] || b[n] == Cleaned(a[n], now)
  }

  predicate IsAppend(c: Call) {
    c.Append? || c.BatchAppend? || c.ProducerAppend?
  }

  lemma SameUpToStaleTotal(a: Store, b: Store, now: int)
    requires SameUpToStale(a, b, now)
    ensures Total(b) == Total(a)
  {
    assert ByteSizes(b) == ByteSizes(a);
  }

  lemma FailedTxn(keep: bool, maxStream: nat, s: Store, c: Call, now: int)
    requires IsAppend(c)
    requires var r := Txn(keep, maxStream, s, c, now).reply; !r.Appended? && !r.Accepted?
    ensures SameUpToStale(s, Txn(keep, maxStream, s, c, now).store, now)
  {
    var out := Txn(keep, maxStream, s, c, now);
    assert !Creates(out.reply);
    forall n: string ensures Get(out.store, n) == Get(s, n)
      || (n in s && Get(out.store, n) == Some(Cleaned(s[n], now)))
    {
      TxnEffect(keep, maxStream, n, s, c, now);
    }
    assert forall n :: n in s <==> Get(s, n).Some?;
    assert forall n :: n in out.store <==> Get(out.store, n).Some?;
  }

  /** What a backend adds to the transaction: it runs it, or refuses the call at the limits. */
  lemma ApplyCases(b: Backend, lim: Limits, s: Store, c: Call, now: int)
    ensures var out := Apply(b, lim, s, c, now);
            || out == Txn(b != Acid, lim.maxStream, s, Effective(b, c), now)
            || (out.reply.Failed? && (out.store == s || out.store == Refused(b != Acid, s, c, now)))
  {}

  lemma AppendRefused(keep: bool, s: Store, c: Call, now: int)
    requires IsAppend(c)
    ensures SameUpToStale(s, Refused(keep, s, c, now), now)
  {}

  /**
    On every backend, an append that fails or is a duplicate changes no log, offset,
    closed flag or Stream-Seq, and so leaves the byte total alone.
   */
  lemma AllOrNothing(b: Backend, lim: Limits, s: Store, c: Call, now: int)
    requires IsAppend(c)
    ensures var out := Apply(b, lim, s, c, now);
            !out.reply.Appended? && !out.reply.Accepted? ==>
              SameUpToStale(s, out.store, now) && Total(out.store) == Total(s)
  {
    var out := Apply(b, lim, s, c, now);
    ApplyCases(b, lim, s, c, now);
    AppendRefused(b != Acid, s, c, now);
    if !out.reply.Appended? && !out.reply.Accepted? {
      if out == Txn(b != Acid, lim.maxStream, s, c, now) {
        FailedTxn(b != Acid, lim.maxStream, s, c, now);
      }
      SameUpToStaleTotal(s, out.store, now);
    }
  }

  /** `s'` is `s` with the batch of `c` added at the end of its own stream and nowhere else. */
  ghost predicate AddsBatch(s: Store, c: Call, s': Store) {
    && s'.Keys == s.Keys && c.name in s
    && s'[c.name].messages == s[c.name].messages + BatchOf(c)
    && (forall n :: n in s && n != c.name ==> s'[n] == s[n])
  }

  lemma AddsBatchTotal(s: Store, c: Call, s': Store)
    requires AddsBatch(s, c, s')
    ensures Total(s') == Total(s) + SumLen(BatchOf(c))
    ensures SumLen(s'[c.name].messages) == SumLen(s[c.name].messages) + SumLen(BatchOf(c))
  {
    SumLenAppend(s[c.name].messages, BatchOf(c));
    TotalUpdate(s, c.name, s'[c.name]);
    assert s' == s[c.name := s'[c.name]];
  }

  lemma TxnAddsBatch(keep: bool, maxStream: nat, s: Store, c: Call, now: int)
    requires IsAppend(c)
    requires var r := Txn(keep, maxStream, s, c, now).reply; r.Appended? || r.Accepted?
    ensures AddsBatch(s, c, Txn(keep, maxStream, s, c, now).store)
    ensures SumLen(s[c.name].messages) + SumLen(BatchOf(c)) <= maxStream || BatchOf(c) == []
  {
    TxnEffect(keep, maxStream, c.name, s, c, now);
    forall n | n in s && n != c.name ensures Get(Txn(keep, maxStream, s, c, now).store, n) == Get(s, n) {
      TxnFrame(keep, maxStream, n, s, c, now);
    }
  }

  /** A successful append on any backend adds exactly its batch, and the byte total grows by its size. */
  lemma AppendsExactlyItsBatch(b: Backend, lim: Limits, s: Store, c: Call, now: int)
    requires IsAppend(c)
    requires Apply(b, lim, s, c, now).reply.Appended? || Apply(b, lim, s, c, now).reply.Accepted?
    ensures var s' := Apply(b, lim, s, c, now).store;
            AddsBatch(s, c, s') && Total(s') == Total(s) + SumLen(BatchOf(c))
  {
    ApplyCases(b, lim, s, c, now);
    TxnAddsBatch(b != Acid, lim.maxStream, s, c, now);
    AddsBatchTotal(s, c, Apply(b, lim, s, c, now).store);
  }

  // ------------------------------------------------------ Stream-Seq ordering

  /** The event is an accepted append to `name` that carries a Stream-Seq. */
  predicate AcceptsSeq(name: string, e: Event, r: Reply) {
    e.Commit? && e.call.name == name && SeqOf(e.call).Some? && (r.Appended? || r.Accepted?)
  }

  /** Stream-Seq values accepted so far by the current incarnation of `name`. */
  function SeqHistory(keep: bool, maxStream: nat, name: string, s: Store, es: seq<Event>): seq<string> {
    if es == [] then []
    else
      var init := es[..|es| - 1];
      var before := After(keep, maxStream, s, init);
      TrackSeq(SeqHistory(keep, maxStream, name, s, init), name, before, es[|es| - 1],
               Next(keep, maxStream, before, es[|es| - 1]))
  }

  function TrackSeq(h: seq<string>, name: string, s: Store, e: Event, out: Outcome): seq<string> {
    if !Survives(name, s, e, out) then []
    else if AcceptsSeq(name, e, out.reply) then h + [SeqOf(e.call).value]
    else h
  }

  predicate StrictlyIncreasing(h: seq<string>) {
    forall i, j :: 0 <= i < j < |h| ==> LexLess(h[i], h[j])
  }

  /** The last accepted value is the one in force; a new stream has none. */
  predicate SeqInForce(h: seq<string>, log: Option<StreamLog>) {
    match log
    case None => h == []
    case Some(l) => l.lastSeq == if h == [] then None else Some(h[|h| - 1])
  }

  lemma SeqStep(h: seq<string>, q: string)
    requires StrictlyIncreasing(h)
    requires h != [] ==> LexLess(h[|h| - 1], q)
    ensures StrictlyIncreasing(h + [q])
  {
    if h != [] {
      var last := h[|h| - 1];
      forall i | 0 <= i < |h| ensures LexLess(h[i], q) {
        if i < |h| - 1 { LexLessTransitive(h[i], last, q); }
      }
    }
  }

  /** A stream that does not survive an event is gone or was just created without a Stream-Seq. */
  lemma NotSurviving(keep: bool, maxStream: nat, name: string, s: Store, e: Event)
    requires !Survives(name, s, e, Next(keep, maxStream, s, e))
    ensures var s' := Next(keep, maxStream, s, e).store;
            name in s' ==> s'[name].lastSeq == None && s'[name].producers == map[]
  {
    if e.Commit? {
      TxnEffect(keep, maxStream, name, s, e.call, e.now);
    }
  }

  /** Over a whole run, accepted Stream-Seq values strictly increase and the last one is the one in force. */
  lemma {:induction false} SeqsStrictlyIncrease(keep: bool, maxStream: nat, name: string, s: Store, es: seq<Event>)
    requires name !in s
    ensures StrictlyIncreasing(SeqHistory(keep, maxStream, name, s, es))
    ensures SeqInForce(SeqHistory(keep, maxStream, name, s, es), Get(After(keep, maxStream, s, es), name))
  {
    if es != [] {
      var init, e := es[..|es| - 1], es[|es| - 1];
      SeqsStrictlyIncrease(keep, maxStream, name, s, init);
      var before := After(keep, maxStream, s, init);
      var h := SeqHistory(keep, maxStream, name, s, init);
      var out := Next(keep, maxStream, before, e);
      if Survives(name, before, e, out) {
        NextEvolves(keep, maxStream, name, before, e);
        TrackSeqKeeps(h, name, before, e, out);
      } else {
        NotSurviving(keep, maxStream, name, before, e);
      }
    }
  }

  lemma TrackSeqKeeps(h: seq<string>, name: string, s: Store, e: Event, out: Outcome)
    requires Survives(name, s, e, out) && EvolvesBy(name, s[name], e, out.reply, out.store[name])
    requires StrictlyIncreasing(h) && SeqInForce(h, Some(s[name]))
    ensures StrictlyIncreasing(TrackSeq(h, name, s, e, out))
    ensures SeqInForce(TrackSeq(h, name, s, e, out), Some(out.store[name]))
  {
    if AcceptsSeq(name, e, out.reply) { SeqStep(h, SeqOf(e.call).value); }
  }

  // ------------------------------------------------------------ closure

  predicate SurvivesAll(keep: bool, maxStream: nat, name: string, s: Store, es: seq<Event>) {
    forall k :: 0 <= k < |es| ==> SurvivesAt(keep, maxStream, name, s, es, k)
  }

  predicate SurvivesAt(keep: bool, maxStream: nat, name: string, s: Store, es: seq<Event>, k: nat)
    requires k < |es|
  {
    var before := After(keep, maxStream, s, es[..k]);
    Survives(name, before, es[k], Next(keep, maxStream, before, es[k]))
  }

  function ReplyAt(keep: bool, maxStream: nat, s: Store, es: seq<Event>, k: nat): Reply
    requires k < |es|
  {
    Next(keep, maxStream, After(keep, maxStream, s, es[..k]), es[k]).reply
  }

  /** Refused, or recognised as a duplicate whose answer says closed at this very tail. */
  predicate AnsweredAsClosed(r: Reply, ms: seq<Bytes>) {
    r.Failed? || (r.Duplicate? && r.closed && r.next == NextOffset(ms))
  }

  lemma ClosedAnswer(keep: bool, maxStream: nat, s: Store, c: Call, now: int)
    requires c.name in s && s[c.name].closed && IsAppend(c)
    ensures AnsweredAsClosed(Txn(keep, maxStream, s, c, now).reply, s[c.name].messages)
  {
    TxnEffect(keep, maxStream, c.name, s, c, now);
  }

  /**
    Closure is final: from a state in which `name` is closed, through any run that does not
    delete, expire or re-create it, its messages stay what they were, it stays closed, and
    every append of the run is refused or answered as a duplicate of an earlier one.
   */
  lemma ClosureIsFinal(keep: bool, maxStream: nat, name: string, s: Store, es: seq<Event>)
    requires name in s && s[name].closed
    requires SurvivesAll(keep, maxStream, name, s, es)
    ensures var s' := After(keep, maxStream, s, es);
            name in s' && s'[name].closed && s'[name].messages == s[name].messages
    ensures forall k :: 0 <= k < |es| && es[k].Commit? && es[k].call.name == name && IsAppend(es[k].call) ==>
              AnsweredAsClosed(ReplyAt(keep, maxStream, s, es, k), s[name].messages)
  {
    ClosedThroughout(keep, maxStream, name, s, es, |es|);
    assert es[..|es|] == es;
    forall k | 0 <= k < |es| && es[k].Commit? && es[k].call.name == name && IsAppend(es[k].call)
      ensures AnsweredAsClosed(ReplyAt(keep, maxStream, s, es, k), s[name].messages)
    {
      ClosedThroughout(keep, maxStream, name, s, es, k);
      ClosureStep(keep, maxStream, name, s[name].messages, After(keep, maxStream, s, es[..k]), es[k]);
    }
  }

  lemma {:induction false} ClosedThroughout(keep: bool, maxStream: nat, name: string, s: Store, es: seq<Event>, k: nat)
    requires name in s && s[name].closed
    requires SurvivesAll(keep, maxStream, name, s, es)
    requires k <= |es|
    ensures var s' := After(keep, maxStream, s, es[..k]);
            name in s' && s'[name].closed && s'[name].messages == s[name].messages
  {
    if k > 0 {
      ClosedThroughout(keep, maxStream, name, s, es, k - 1);
      assert es[..k][..k - 1] == es[..k - 1];
      assert SurvivesAt(keep, maxStream, name, s, es, k - 1);
      ClosureStep(keep, maxStream, name, s[name].messages, After(keep, maxStream, s, es[..k - 1]), es[k - 1]);
    }
  }

  lemma ClosureStep(keep: bool, maxStream: nat, name: string, ms: seq<Bytes>, s: Store, e: Event)
    requires name in s && s[name].closed && s[name].messages == ms
    ensures var out := Next(keep, maxStream, s, e);
            && (Survives(name, s, e, out) ==> out.store[name].closed && out.store[name].messages == ms)
            && (e.Commit? && e.call.name == name && IsAppend(e.call) ==> AnsweredAsClosed(out.reply, ms))
  {
    var out := Next(keep, maxStream, s, e);
    if Survives(name, s, e, out) {
      NextEvolves(keep, maxStream, name, s, e);
      SurvivorGrows(name, s[name], e, out.reply, out.store[name]);
    }
    if e.Commit? && e.call.name == name && IsAppend(e.call) {
      ClosedAnswer(keep, maxStream, s, e.call, e.now);
    }
  }

  // ----------------------------------------------------- exactly-once producers

  /** A batch accepted from a producer, and where it landed in the log. */
  datatype AcceptedBatch = AcceptedBatch(epoch: nat, seqNo: nat, start: nat, batch: seq<Bytes>)

  /** The event is an accepted append of producer `id` to `name`. */
  predicate AcceptsFrom(name: string, id: string, e: Event, r: Reply) {
    e.Commit? && e.call.ProducerAppend? && e.call.name == name && e.call.producer.id == id && r.Accepted?
  }

  /** The history after one more event; it starts afresh when the producer's state was evicted. */
  function Track(h: seq<AcceptedBatch>, name: string, id: string, s: Store, e: Event, out: Outcome)
    : seq<AcceptedBatch>
  {
    if !Survives(name, s, e, out) then []
    else if AcceptsFrom(name, id, e, out.reply) then
      (if id in Live(s[name].producers, e.now) then h else [])
      + [AcceptedBatch(e.call.producer.epoch, e.call.producer.seqNo, |s[name].messages|, e.call.messages)]
    else if id in out.store[name].producers then h
    else []
  }

  function Accepts(keep: bool, maxStream: nat, name: string, id: string, s: Store, es: seq<Event>): seq<AcceptedBatch> {
    if es == [] then []
    else
      var init := es[..|es| - 1];
      var before := After(keep, maxStream, s, init);
      Track(Accepts(keep, maxStream, name, id, s, init), name, id, before, es[|es| - 1],
            Next(keep, maxStream, before, es[|es| - 1]))
  }

  predicate Follows(a: AcceptedBatch, b: AcceptedBatch) {
    || (b.epoch == a.epoch && b.seqNo == a.seqNo + 1)
    || (b.epoch > a.epoch && b.seqNo == 0)
  }

  predicate Sits(a: AcceptedBatch, ms: seq<Bytes>) {
    a.start + |a.batch| <= |ms| && ms[a.start..a.start + |a.batch|] == a.batch
  }

  /** The inductive invariant: consecutive accepts follow one another and sit in the log in order. */
  ghost predicate Chained(h: seq<AcceptedBatch>, ms: seq<Bytes>) {
    && (h != [] ==> h[0].seqNo == 0)
    && (forall i :: 0 < i < |h| ==> Follows(h[i - 1], h[i]) && h[i - 1].start + |h[i - 1].batch| <= h[i].start)
    && (forall i :: 0 <= i < |h| ==> Sits(h[i], ms))
  }

  /** The producer is registered exactly when its history is non-empty, and its state is the last accept. */
  ghost predicate Matches(h: seq<AcceptedBatch>, id: string, log: Option<StreamLog>) {
    && (log.Some? && id in log.value.producers <==> h != [])
    && (h != [] ==>
          && Chained(h, log.value.messages)
          && h[|h| - 1].epoch == log.value.producers[id].epoch
          && h[|h| - 1].seqNo == log.value.producers[id].lastSeq)
  }

  lemma ChainedGrows(h: seq<AcceptedBatch>, ms: seq<Bytes>, ms': seq<Bytes>)
    requires Chained(h, ms) && IsPrefix(ms, ms')
    ensures Chained(h, ms')
  {
    forall i | 0 <= i < |h| ensures Sits(h[i], ms') {
      var lo, hi := h[i].start, h[i].start + |h[i].batch|;
      assert Sits(h[i], ms);
      assert ms[lo..hi] == ms'[..|ms|][lo..hi] == ms'[lo..hi];
    }
  }

  lemma ChainedExtends(h: seq<AcceptedBatch>, ms: seq<Bytes>, a: AcceptedBatch)
    requires Chained(h, ms) && a.start == |ms|
    requires if h == [] then a.seqNo == 0 else Follows(h[|h| - 1], a)
    ensures Chained(h + [a], ms + a.batch)
  {
    var ms' := ms + a.batch;
    ChainedGrows(h, ms, ms');
    assert Sits(a, ms');
    if h != [] { assert Sits(h[|h| - 1], ms); }
  }

  lemma TrackKeepsMatch(h: seq<AcceptedBatch>, name: string, id: string, s: Store, e: Event, out: Outcome)
    requires Survives(name, s, e, out) && EvolvesBy(name, s[name], e, out.reply, out.store[name])
    requires Matches(h, id, Some(s[name]))
    ensures Matches(Track(h, name, id, s, e, out), id, Some(out.store[name]))
  {
    var log, log' := s[name], out.store[name];
    SurvivorGrows(name, log, e, out.reply, log');
    if AcceptsFrom(name, id, e, out.reply) {
      var base := if id in Live(log.producers, e.now) then h else [];
      var p := e.call.producer;
      var a := AcceptedBatch(p.epoch, p.seqNo, |log.messages|, e.call.messages);
      AcceptedExactly(Lookup(Live(log.producers, e.now), id), p, false);
      ChainedExtends(base, log.messages, a);
    } else if h != [] {
      ChainedGrows(h, log.messages, log'.messages);
    }
  }

  lemma {:induction false} AcceptsMatch(keep: bool, maxStream: nat, name: string, id: string, s: Store, es: seq<Event>)
    requires name in s ==> id !in s[name].producers
    ensures Matches(Accepts(keep, maxStream, name, id, s, es), id, Get(After(keep, maxStream, s, es), name))
  {
    if es != [] {
      var init, e := es[..|es| - 1], es[|es| - 1];
      AcceptsMatch(keep, maxStream, name, id, s, init);
      var before := After(keep, maxStream, s, init);
      var out := Next(keep, maxStream, before, e);
      if Survives(name, before, e, out) {
        NextEvolves(keep, maxStream, name, before, e);
        TrackKeepsMatch(Accepts(keep, maxStream, name, id, s, init), name, id, before, e, out);
      } else {
        NotSurviving(keep, maxStream, name, before, e);
      }
    }
  }

  predicate PairBelow(a: AcceptedBatch, b: AcceptedBatch) {
    a.epoch < b.epoch || (a.epoch == b.epoch && a.seqNo < b.seqNo)
  }

  lemma {:induction false} ChainOrdered(h: seq<AcceptedBatch>, ms: seq<Bytes>, i: nat, j: nat)
    requires Chained(h, ms) && i < j < |h|
    ensures PairBelow(h[i], h[j]) && h[i].start + |h[i].batch| <= h[j].start
    decreases j
  {
    if i < j - 1 { ChainOrdered(h, ms, i, j - 1); }
  }

  predicate HasPair(h: seq<AcceptedBatch>, upTo: nat, epoch: nat, seqNo: nat) {
    exists j :: 0 <= j < upTo <= |h| && h[j].epoch == epoch && h[j].seqNo == seqNo
  }

  lemma {:induction false} ChainGapless(h: seq<AcceptedBatch>, ms: seq<Bytes>, i: nat, q: nat)
    requires Chained(h, ms) && i < |h| && q < h[i].seqNo
    ensures HasPair(h, i, h[i].epoch, q)
    decreases i
  {
    assert Follows(h[i - 1], h[i]);
    if q == h[i - 1].seqNo {
      assert h[i - 1].epoch == h[i].epoch && h[i - 1].seqNo == q;
    } else {
      ChainGapless(h, ms, i - 1, q);
      var j :| 0 <= j < i - 1 && h[j].epoch == h[i - 1].epoch && h[j].seqNo == q;
      assert h[j].epoch == h[i].epoch;
    }
  }

  /** The pairs of `h` increase, skip no sequence number, and their batches sit in `ms` one after another. */
  ghost predicate DeliveredOnce(h: seq<AcceptedBatch>, ms: seq<Bytes>) {
    && (forall i, j :: 0 <= i < j < |h| ==>
          PairBelow(h[i], h[j]) && h[i].start + |h[i].batch| <= h[j].start)
    && (forall i, q :: 0 <= i < |h| && 0 <= q < h[i].seqNo ==> HasPair(h, i, h[i].epoch, q))
    && (forall i :: 0 <= i < |h| ==> Sits(h[i], ms))
  }

  lemma ChainDelivers(h: seq<AcceptedBatch>, ms: seq<Bytes>)
    requires Chained(h, ms)
    ensures DeliveredOnce(h, ms)
  {
    forall i, j | 0 <= i < j < |h|
      ensures PairBelow(h[i], h[j]) && h[i].start + |h[i].batch| <= h[j].start
    {
      ChainOrdered(h, ms, i, j);
    }
    forall i, q | 0 <= i < |h| && 0 <= q < h[i].seqNo ensures HasPair(h, i, h[i].epoch, q) {
      ChainGapless(h, ms, i, q);
    }
  }

  /**
    Exactly-once producers over every run, with restarts: until its state is evicted, the pairs
    accepted from a producer strictly increase, no sequence number of an epoch is skipped, and
    each accepted batch sits in the log once, after all earlier ones and unchanged.
   */
  lemma ExactlyOnce(keep: bool, maxStream: nat, name: string, id: string, s: Store, es: seq<Event>)
    requires name in s ==> id !in s[name].producers
    ensures var h, s' := Accepts(keep, maxStream, name, id, s, es), After(keep, maxStream, s, es);
            h != [] ==> name in s' && DeliveredOnce(h, s'[name].messages)
  {
    AcceptsMatch(keep, maxStream, name, id, s, es);
    var h, s' := Accepts(keep, maxStream, name, id, s, es), After(keep, maxStream, s, es);
    if h != [] { ChainDelivers(h, s'[name].messages); }
  }

  /**
    A pair accepted earlier in the run is never accepted again while the producer is registered:
    sent again, whatever else the request carries, it leaves the log as it was.
   */
  lemma ResendNeverAccepted(keep: bool, maxStream: nat, name: string, id: string, s: Store, es: seq<Event>,
                            i: nat, c: Call, now: int)
    requires name in s ==> id !in s[name].producers
    requires i < |Accepts(keep, maxStream, name, id, s, es)|
    requires c.ProducerAppend? && c.name == name && c.producer.id == id
    requires c.producer.epoch == Accepts(keep, maxStream, name, id, s, es)[i].epoch
    requires c.producer.seqNo == Accepts(keep, maxStream, name, id, s, es)[i].seqNo
    requires var s' := After(keep, maxStream, s, es);
             name in s' && id in Live(s'[name].producers, now)
    ensures !Txn(keep, maxStream, After(keep, maxStream, s, es), c, now).reply.Accepted?
    ensures SameUpToStale(After(keep, maxStream, s, es),
                          Txn(keep, maxStream, After(keep, maxStream, s, es), c, now).store, now)
  {
    AcceptsMatch(keep, maxStream, name, id, s, es);
    ResendRefused(Accepts(keep, maxStream, name, id, s, es), keep, maxStream, After(keep, maxStream, s, es), i, c, now);
  }

  /** Call `c` resends pair `i` of history `h`, from a producer still registered, to a stream that can take it. */
  predicate Resends(h: seq<AcceptedBatch>, s: Store, i: nat, c: Call, now: int) {
    && c.ProducerAppend? && c.name in s && c.producer.id in Live(s[c.name].producers, now)
    && !Expired(s[c.name].config, now)
    && (c.messages == [] || EqIgnoreAsciiCase(c.contentType, s[c.name].config.contentType))
    && i < |h| && c.producer.epoch == h[i].epoch && c.producer.seqNo == h[i].seqNo
  }

  /** In the producer's current epoch a duplicate at the present tail, in an older one fenced off. */
  function ResendReply(h: seq<AcceptedBatch>, i: nat, log: StreamLog): Reply
    requires i < |h|
  {
    var last := h[|h| - 1];
    if h[i].epoch == last.epoch then Duplicate(last.epoch, last.seqNo, NextOffset(log.messages), log.closed)
    else Failed(EpochFenced(last.epoch, h[i].epoch))
  }

  /**
    How a pair accepted earlier in a run is answered when it is sent again, whether or not the stream is
    closed by then: as a duplicate, or fenced, exactly when the backend does not refuse the call at the
    byte cap before it looks at the producer.
   */
  lemma ResendAnswered(b: Backend, lim: Limits, name: string, id: string, s: Store, es: seq<Event>,
                       i: nat, c: Call, now: int)
    requires name in s ==> id !in s[name].producers
    requires Resends(Accepts(b != Acid, lim.maxStream, name, id, s, es), After(b != Acid, lim.maxStream, s, es), i, c,
                     now)
    requires c.name == name && c.producer.id == id
    ensures var s', h := After(b != Acid, lim.maxStream, s, es), Accepts(b != Acid, lim.maxStream, name, id, s, es);
            var r := Apply(b, lim, s', c, now).reply;
            && (r == ResendReply(h, i, s'[name]) <==> !RefusedUpFront(b, lim, s', c))
            && (RefusedUpFront(b, lim, s', c) ==> r == Failed(MemoryLimitExceeded))
  {
    AcceptsMatch(b != Acid, lim.maxStream, name, id, s, es);
    MatchedAnswered(Accepts(b != Acid, lim.maxStream, name, id, s, es), b != Acid, lim.maxStream,
                    After(b != Acid, lim.maxStream, s, es), i, c, now);
  }

  /** On ACID, filling the cap with a batch is enough to have its retry refused. */
  lemma ResendRefusedAtCap(m: Bytes, config: StreamConfig, now: int)
    returns (lim: Limits, es: seq<Event>, c: Call)
    requires m != [] && !Expired(config, now)
    ensures es == [Commit(Create(c.name, config), now), Commit(c, now)] && c.ProducerAppend? && c.messages == [m]
    ensures var h := Accepts(false, lim.maxStream, c.name, c.producer.id, map[], es);
            var s := After(false, lim.maxStream, map[], es);
            && Resends(h, s, 0, c, now) && Total(s) == lim.maxTotal
            && Apply(Acid, lim, s, c, now).reply == Failed(MemoryLimitExceeded)
  {
    lim := Limits(|m|, |m|);
    c := ProducerAppend("s", [m], config.contentType, ProducerHeaders("p", 0, 0), false, None);
    var e, e' := Commit(Create("s", config), now), Commit(c, now);
    es := [e, e'];
    TwoEvents(false, |m|, "s", "p", map[], e, e');
    FirstProduced(m, config, c, now);
    var s0, log := map["s" := EmptyLog(config)], ProducerCommit(EmptyLog(config), [m], c.producer, false, None, now);
    var s := map["s" := log];
    assert Next(false, |m|, map[], e) == Outcome(s0, Created);
    var h := Track([], "s", "p", s0, e', Next(false, |m|, s0, e'));
    assert |h| == 1 && h[0].epoch == 0 && h[0].seqNo == 0;
    OneStreamTotal(s, "s", m);
    FullRefuses(lim, s, c, now);
  }

  lemma OneStreamTotal(s: Store, name: string, m: Bytes)
    requires s.Keys == {name} && s[name].messages == [m]
    ensures Total(s) == |m|
  {
    TotalUpdate(s, name, s[name]);
    SumLenOne(m);
    assert s - {name} == map[] && ByteSizes(map[]) == map[];
  }

  lemma FullRefuses(lim: Limits, s: Store, c: Call, now: int)
    requires c.ProducerAppend? && Total(s) == lim.maxTotal && SumLen(c.messages) > 0
    ensures Apply(Acid, lim, s, c, now).reply == Failed(MemoryLimitExceeded)
  {}

  lemma TwoEvents(keep: bool, maxStream: nat, name: string, id: string, s: Store, e: Event, e': Event)
    ensures var out := Next(keep, maxStream, s, e);
            var out' := Next(keep, maxStream, out.store, e');
            && After(keep, maxStream, s, [e, e']) == out'.store
            && Accepts(keep, maxStream, name, id, s, [e, e']) ==
                  Track(Track([], name, id, s, e, out), name, id, out.store, e', out')
  {
    assert [e, e'][..1] == [e] && [e][..0] == [];
    assert After(keep, maxStream, s, [e]) == Next(keep, maxStream, s, e).store;
    assert Accepts(keep, maxStream, name, id, s, [e]) == Track([], name, id, s, e, Next(keep, maxStream, s, e));
  }

  /** The first batch of a producer on a new stream. */
  lemma FirstProduced(m: Bytes, config: StreamConfig, c: Call, now: int)
    requires !Expired(config, now)
    requires c == ProducerAppend("s", [m], config.contentType, ProducerHeaders("p", 0, 0), false, None)
    ensures var s := map["s" := EmptyLog(config)];
            var log := ProducerCommit(EmptyLog(config), [m], c.producer, false, None, now);
            && Txn(false, |m|, s, c, now) == Outcome(map["s" := log], Accepted(0, 0, NextOffset(log.messages), false))
            && log.messages == [m] && log.config == config && "p" in Live(log.producers, now) && SumLen([m]) == |m|
  {
    SumLenOne(m);
    var s := map["s" := EmptyLog(config)];
    assert Cleaned(s["s"], now) == s["s"] by { assert Live(map[], now) == map[]; }
    assert s["s" := ProducerCommit(EmptyLog(config), [m], c.producer, false, None, now)].Keys == {"s"};
  }

  lemma MatchedAnswered(h: seq<AcceptedBatch>, keep: bool, maxStream: nat, s: Store, i: nat, c: Call, now: int)
    requires Resends(h, s, i, c, now) && Matches(h, c.producer.id, Some(s[c.name]))
    ensures Txn(keep, maxStream, s, c, now).reply == ResendReply(h, i, s[c.name])
  {
    if i < |h| - 1 { ChainOrdered(h, s[c.name].messages, i, |h| - 1); }
    SeenPairAnswered(keep, maxStream, s, c, now);
  }

  lemma SeenPairAnswered(keep: bool, maxStream: nat, s: Store, c: Call, now: int)
    requires c.ProducerAppend? && c.name in s && c.producer.id in Live(s[c.name].producers, now)
    requires !Expired(s[c.name].config, now)
    requires c.messages == [] || EqIgnoreAsciiCase(c.contentType, s[c.name].config.contentType)
    requires var st := s[c.name].producers[c.producer.id];
             c.producer.epoch < st.epoch || (c.producer.epoch == st.epoch && c.producer.seqNo <= st.lastSeq)
    ensures var st := s[c.name].producers[c.producer.id];
            Txn(keep, maxStream, s, c, now).reply ==
              if c.producer.epoch == st.epoch
              then Duplicate(st.epoch, st.lastSeq, NextOffset(s[c.name].messages), s[c.name].closed)
              else Failed(EpochFenced(st.epoch, c.producer.epoch))
  {}

  lemma ResendRefused(h: seq<AcceptedBatch>, keep: bool, maxStream: nat, s: Store, i: nat, c: Call, now: int)
    requires c.ProducerAppend? && c.name in s && c.producer.id in Live(s[c.name].producers, now)
    requires Matches(h, c.producer.id, Some(s[c.name]))
    requires i < |h| && c.producer.epoch == h[i].epoch && c.producer.seqNo == h[i].seqNo
    ensures !Txn(keep, maxStream, s, c, now).reply.Accepted?
    ensures SameUpToStale(s, Txn(keep, maxStream, s, c, now).store, now)
  {
    if i < |h| - 1 { ChainOrdered(h, s[c.name].messages, i, |h| - 1); }
    SeenPairRefused(keep, maxStream, s, c, now);
  }

  lemma SeenPairRefused(keep: bool, maxStream: nat, s: Store, c: Call, now: int)
    requires c.ProducerAppend? && c.name in s && c.producer.id in Live(s[c.name].producers, now)
    requires var st := s[c.name].producers[c.producer.id];
             c.producer.epoch < st.epoch || (c.producer.epoch == st.epoch && c.producer.seqNo <= st.lastSeq)
    ensures var out := Txn(keep, maxStream, s, c, now);
            !out.reply.Accepted? && SameUpToStale(s, out.store, now)
  {
    TxnEffect(keep, maxStream, c.name, s, c, now);
    FailedTxn(keep, maxStream, s, c, now);
  }
}
