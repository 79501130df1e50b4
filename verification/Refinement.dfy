/**
  The three backends answer alike. Each is compared, over every run, with one ideal
  store that evicts nothing on failure and checks the byte cap last.
 */
module Refinement {
  import opened Types
  import opened Validation
  import opened LogSpec
  import opened Effects
  import opened Runs

  /** Equal logs once stale producers are ignored on both sides. */
  predicate LogsAgree(a: StreamLog, b: StreamLog, now: int) {
    Cleaned(a, now) == Cleaned(b, now)
  }

  ghost predicate Agree(a: Store, b: Store, now: int) {
    a.Keys == b.Keys && forall n :: n in a ==> LogsAgree(a[n], b[n], now)
  }

  /** Agreement survives the passing of time. */
  lemma AgreeLater(a: Store, b: Store, earlier: int, later: int)
    requires Agree(a, b, earlier) && earlier <= later
    ensures Agree(a, b, later)
  {
    forall n | n in a ensures LogsAgree(a[n], b[n], later) {
      LiveCompose(a[n].producers, earlier, later);
      LiveCompose(b[n].producers, earlier, later);
    }
  }

  lemma AgreeTotal(a: Store, b: Store, now: int)
    requires Agree(a, b, now)
    ensures Total(a) == Total(b)
  {
    assert ByteSizes(a) == ByteSizes(b);
  }

  /** Every stream is within the per-stream limit. */
  ghost predicate Bounded(maxStream: nat, s: Store) {
    forall n :: n in s ==> SumLen(s[n].messages) <= maxStream
  }

  lemma AgreeBounded(maxStream: nat, a: Store, b: Store, now: int)
    requires Agree(a, b, now) && Bounded(maxStream, b)
    ensures Bounded(maxStream, a)
  {
    forall n | n in a ensures SumLen(a[n].messages) <= maxStream { assert LogsAgree(a[n], b[n], now); }
  }

  lemma OwnBounded(maxStream: nat, s: Store, c: Call, now: int)
    requires Bounded(maxStream, s) && c.name in Txn(false, maxStream, s, c, now).store
    ensures SumLen(Txn(false, maxStream, s, c, now).store[c.name].messages) <= maxStream
  {
    if IsAppend(c) {
      AppendBounded(maxStream, s, c, now);
    } else if c.name in s {
      assert SumLen(s[c.name].messages) <= maxStream;
    }
  }

  lemma AppendBounded(maxStream: nat, s: Store, c: Call, now: int)
    requires Bounded(maxStream, s) && IsAppend(c) && c.name in Txn(false, maxStream, s, c, now).store
    ensures SumLen(Txn(false, maxStream, s, c, now).store[c.name].messages) <= maxStream
  {
    var out := Txn(false, maxStream, s, c, now);
    if out.reply.Appended? || out.reply.Accepted? {
      TxnAddsBatch(false, maxStream, s, c, now);
      AddsBatchTotal(s, c, out.store);
    } else {
      FailedTxn(false, maxStream, s, c, now);
    }
  }

  lemma TxnBounded(maxStream: nat, s: Store, c: Call, now: int)
    requires Bounded(maxStream, s)
    ensures Bounded(maxStream, Txn(false, maxStream, s, c, now).store)
  {
    var store := Txn(false, maxStream, s, c, now).store;
    forall n | n in store ensures SumLen(store[n].messages) <= maxStream {
      if n == c.name {
        OwnBounded(maxStream, s, c, now);
      } else {
        TxnFrame(false, maxStream, n, s, c, now);
        assert Get(store, n) == Get(s, n);
      }
    }
  }

  // ------------------------------------------------------ one transaction

  lemma AppendAgrees(maxStream: nat, a: StreamLog, b: StreamLog, ms: seq<Bytes>, ct: string, q: Option<string>,
                     now: int)
    requires LogsAgree(a, b, now)
    ensures var x, y := AppendTo(maxStream, a, ms, ct, q, now), AppendTo(maxStream, b, ms, ct, q, now);
            if x.Ok? then y.Ok? && LogsAgree(x.log, y.log, now) else y == x
  {}

  lemma ProducerAgrees(k: bool, k': bool, maxStream: nat, a: StreamLog, b: StreamLog, c: Call, now: int)
    requires LogsAgree(a, b, now) && c.ProducerAppend? && SumLen(a.messages) <= maxStream
    ensures var x := ProducerAppendTo(k, maxStream, a, c.messages, c.contentType, c.producer, c.close, c.streamSeq,
                                      now);
            var y := ProducerAppendTo(k', maxStream, b, c.messages, c.contentType, c.producer, c.close, c.streamSeq,
                                      now);
            x.1 == y.1 && LogsAgree(x.0, y.0, now)
  {
    LiveCompose(a.producers, now, now);
    LiveCompose(b.producers, now, now);
    if c.messages == [] { assert SumLen(c.messages) == 0; }
  }

  lemma PutAgrees(a: Store, b: Store, name: string, x: StreamLog, y: StreamLog, now: int)
    requires Agree(a, b, now) && LogsAgree(x, y, now)
    ensures Agree(a[name := x], b[name := y], now)
  {}

  /** Append transactions on agreeing stores reply the same and agree again, whatever they keep on failure. */
  lemma AppendTxnAgrees(k: bool, k': bool, maxStream: nat, a: Store, b: Store, c: Call, now: int)
    requires Agree(a, b, now) && Bounded(maxStream, a) && IsAppend(c)
    ensures Txn(k, maxStream, a, c, now).reply == Txn(k', maxStream, b, c, now).reply
    ensures Agree(Txn(k, maxStream, a, c, now).store, Txn(k', maxStream, b, c, now).store, now)
  {
    if c.name in a {
      var l, m := a[c.name], b[c.name];
      assert LogsAgree(l, m, now);
      if c.ProducerAppend? {
        ProducerAgrees(k, k', maxStream, l, m, c, now);
      } else {
        AppendAgrees(maxStream, l, m, BatchOf(c), c.contentType, SeqOf(c), now);
      }
    }
  }

  lemma OtherTxnAgrees(k: bool, k': bool, maxStream: nat, a: Store, b: Store, c: Call, now: int)
    requires Agree(a, b, now) && !IsAppend(c) && !c.CreateWithData?
    ensures Txn(k, maxStream, a, c, now).reply == Txn(k', maxStream, b, c, now).reply
    ensures Agree(Txn(k, maxStream, a, c, now).store, Txn(k', maxStream, b, c, now).store, now)
  {
    if c.name in a {
      var l, m := a[c.name], b[c.name];
      assert LogsAgree(l, m, now);
      if c.Close? { PutAgrees(a, b, c.name, l.(closed := true), m.(closed := true), now); }
    }
    if c.Create? { PutAgrees(a, b, c.name, EmptyLog(c.config), EmptyLog(c.config), now); }
  }

  // ------------------------------------------------------- the ideal store

  ghost function CappedLast(lim: Limits, s: Store, c: Call, out: Outcome): Outcome {
    if ReachesLimits(c, out.reply) && Total(s) + SumLen(BatchOf(c)) > lim.maxTotal
    then Outcome(s, Failed(MemoryLimitExceeded))
    else out
  }

  /** The call as every backend is meant to answer it. */
  ghost function Ideal(lim: Limits, s: Store, c: Call, now: int): Outcome {
    CappedLast(lim, s, c, Txn(false, lim.maxStream, s, c, now))
  }

  /** A create with data on a free name whose messages are all empty: ACID drops them. */
  predicate EmptiedCreate(s: Store, c: Call, now: int) {
    c.CreateWithData? && c.messages != [] && SumLen(c.messages) == 0 && !Occupied(s, c.name, now)
  }

  /** A create with data on an expired name that does not fit beside it: memory and file remove the old stream first. */
  ghost predicate CrowdedCreate(lim: Limits, s: Store, c: Call, now: int) {
    && c.CreateWithData? && c.messages != [] && c.name in s && Expired(s[c.name].config, now)
    && (SumLen(c.messages) > lim.maxStream || Total(s) + SumLen(c.messages) > lim.maxTotal)
  }

  /** A message the record format of the file backend cannot hold, in a call that gets as far as the limits. */
  predicate LongRecord(maxStream: nat, s: Store, c: Call, now: int) {
    HasLongRecord(BatchOf(c)) && ReachesLimits(c, Txn(false, maxStream, s, c, now).reply)
  }

  /** The backend treats the call as the others do. */
  ghost predicate Uniform(b: Backend, lim: Limits, s: Store, c: Call, now: int) {
    match b
    case Memory => !CrowdedCreate(lim, s, c, now)
    case File => !CrowdedCreate(lim, s, c, now) && !LongRecord(lim.maxStream, s, c, now)
    case Acid => !EmptiedCreate(s, c, now)
  }

  /** ACID reports the byte cap where a check that comes first elsewhere would have failed. */
  ghost predicate CapFirst(b: Backend, lim: Limits, s: Store, c: Call, now: int) {
    RefusedUpFront(b, lim, s, c) && !ReachesLimits(c, Txn(false, lim.maxStream, s, c, now).reply)
  }

  /** The reply is the ideal one exactly when the cap does not come first; when it does, it is the cap. */
  ghost predicate ReplyAsIdeal(b: Backend, lim: Limits, s: Store, c: Call, now: int, r: Reply, ideal: Reply) {
    && (r == ideal <==> !CapFirst(b, lim, s, c, now))
    && (CapFirst(b, lim, s, c, now) ==> r == Failed(MemoryLimitExceeded))
  }

  lemma RefusedAgrees(k: bool, a: Store, b: Store, c: Call, now: int)
    requires Agree(a, b, now) && IsAppend(c)
    ensures Agree(Refused(k, a, c, now), b, now)
  {
    if c.name in a { LiveCompose(a[c.name].producers, now, now); }
  }

  lemma TxnNeverCapped(k: bool, maxStream: nat, s: Store, c: Call, now: int)
    ensures Txn(k, maxStream, s, c, now).reply != Failed(MemoryLimitExceeded)
    ensures Txn(k, maxStream, s, c, now).reply != Failed(RecordTooLarge)
  {}

  /** An append that does not reach the limits leaves nothing behind. */
  lemma ShortOfLimits(maxStream: nat, s: Store, c: Call, now: int)
    requires IsAppend(c) && BatchOf(c) != [] && !ReachesLimits(c, Txn(false, maxStream, s, c, now).reply)
    ensures Txn(false, maxStream, s, c, now).store == s
  {}

  /** The cap on an append, when backend and ideal store are within it and count the same bytes. */
  lemma CapCases(b: Backend, lim: Limits, a: Store, s: Store, c: Call, now: int, x: Outcome, y: Outcome)
    requires IsAppend(c) && Total(a) == Total(s) <= lim.maxTotal && x.reply == y.reply
    requires BatchOf(c) != [] && !ReachesLimits(c, y.reply) ==> y.store == s
    ensures var over, reach := Total(s) + SumLen(BatchOf(c)) > lim.maxTotal, ReachesLimits(c, y.reply);
            var out, ideal := Capped(b, lim, a, c, now, x), CappedLast(lim, s, c, y);
            && (RefusedUpFront(b, lim, s, c) <==> b == Acid && over)
            && if b == Acid && over then
                 && out == Outcome(a, Failed(MemoryLimitExceeded))
                 && ideal == Outcome(s, if reach then Failed(MemoryLimitExceeded) else y.reply)
               else if reach && b == File && HasLongRecord(BatchOf(c)) then
                 out.reply == Failed(RecordTooLarge) && ideal.reply in {y.reply, Failed(MemoryLimitExceeded)}
               else if reach && over then
                 && out == Outcome(Refused(b != Acid, a, c, now), Failed(MemoryLimitExceeded))
                 && ideal == Outcome(s, Failed(MemoryLimitExceeded))
               else out == x && ideal == y
  {
    if BatchOf(c) == [] { assert SumLen(BatchOf(c)) == 0; }
  }

  /** The cap on an append whose transaction gives `x` on the backend and `y` on the ideal store. */
  lemma CapsAgree(b: Backend, lim: Limits, a: Store, s: Store, c: Call, now: int, x: Outcome, y: Outcome)
    requires IsAppend(c) && Total(a) == Total(s) <= lim.maxTotal && Agree(a, s, now)
             && Agree(Refused(true, a, c, now), s, now)
    requires x.reply == y.reply && Agree(x.store, y.store, now)
    requires y.reply != Failed(MemoryLimitExceeded) && y.reply != Failed(RecordTooLarge)
    requires BatchOf(c) != [] && !ReachesLimits(c, y.reply) ==> y.store == s
    ensures AppendVerdict(b, lim, s, c, now, y.reply, Capped(b, lim, a, c, now, x), CappedLast(lim, s, c, y))
  {
    CapCases(b, lim, a, s, c, now, x, y);
  }

  /** The append parts ways with the ideal on a message the file cannot hold, or only in reporting the cap first. */
  ghost predicate AppendVerdict(b: Backend, lim: Limits, s: Store, c: Call, now: int, r: Reply, out: Outcome,
                                ideal: Outcome) {
    if b == File && HasLongRecord(BatchOf(c)) && ReachesLimits(c, r) then out.reply != ideal.reply
    else
      && Agree(out.store, ideal.store, now)
      && (if RefusedUpFront(b, lim, s, c) && !ReachesLimits(c, r)
          then out.reply == Failed(MemoryLimitExceeded) != ideal.reply
          else out.reply == ideal.reply)
  }

  lemma AppendJudged(b: Backend, lim: Limits, a: Store, s: Store, c: Call, now: int)
    requires Agree(a, s, now) && Bounded(lim.maxStream, a) && IsAppend(c) && Total(s) <= lim.maxTotal
    ensures AppendVerdict(b, lim, s, c, now, Txn(false, lim.maxStream, s, c, now).reply,
                          Apply(b, lim, a, c, now), Ideal(lim, s, c, now))
  {
    var x, y := Txn(b != Acid, lim.maxStream, a, c, now), Txn(false, lim.maxStream, s, c, now);
    AgreeTotal(a, s, now);
    AppendTxnAgrees(b != Acid, false, lim.maxStream, a, s, c, now);
    RefusedAgrees(true, a, s, c, now);
    TxnNeverCapped(false, lim.maxStream, s, c, now);
    if BatchOf(c) != [] && !ReachesLimits(c, y.reply) { ShortOfLimits(lim.maxStream, s, c, now); }
    CapsAgree(b, lim, a, s, c, now, x, y);
  }

  lemma AppendStepAgrees(b: Backend, lim: Limits, a: Store, s: Store, c: Call, now: int)
    requires Agree(a, s, now) && Bounded(lim.maxStream, a) && IsAppend(c) && Total(s) <= lim.maxTotal
    ensures var x, y := Apply(b, lim, a, c, now), Ideal(lim, s, c, now);
            Uniform(b, lim, s, c, now) <==>
              Agree(x.store, y.store, now) && ReplyAsIdeal(b, lim, s, c, now, x.reply, y.reply)
  {
    AppendJudged(b, lim, a, s, c, now);
  }

  lemma OtherStepAgrees(b: Backend, lim: Limits, a: Store, s: Store, c: Call, now: int)
    requires Agree(a, s, now) && !IsAppend(c) && !c.CreateWithData?
    ensures var x, y := Apply(b, lim, a, c, now), Ideal(lim, s, c, now);
            && Uniform(b, lim, s, c, now)
            && Agree(x.store, y.store, now) && ReplyAsIdeal(b, lim, s, c, now, x.reply, y.reply)
  {
    OtherTxnAgrees(b != Acid, false, lim.maxStream, a, s, c, now);
  }

  // ------------------------------------------------------ create with data

  /** On a name that is taken, nothing is written and all answer alike. */
  lemma TakenCreateAgrees(b: Backend, lim: Limits, a: Store, s: Store, c: Call, now: int)
    requires Agree(a, s, now) && c.CreateWithData? && Occupied(s, c.name, now)
    ensures var x, y := Apply(b, lim, a, c, now), Ideal(lim, s, c, now);
            && Uniform(b, lim, s, c, now)
            && Agree(x.store, y.store, now) && ReplyAsIdeal(b, lim, s, c, now, x.reply, y.reply)
  {
    assert LogsAgree(a[c.name], s[c.name], now);
    TakenCreateIs(b, lim, a, c, now);
    TakenCreateIs(b, lim, s, c, now);
  }

  lemma TakenCreateIs(b: Backend, lim: Limits, s: Store, c: Call, now: int)
    requires c.CreateWithData? && Occupied(s, c.name, now)
    ensures var r := if SameConfig(s[c.name].config, c.config)
                     then CreatedWith(false, NextOffset(s[c.name].messages), s[c.name].closed)
                     else Failed(ConfigMismatch);
            Apply(b, lim, s, c, now) == Outcome(s, r) && Ideal(lim, s, c, now) == Outcome(s, r)
    ensures Uniform(b, lim, s, c, now) && !CapFirst(b, lim, s, c, now)
  {}

  /** Taking a name that is free, or whose stream has expired, where `kept` stays if it fails. */
  ghost function Taking(lim: Limits, s: Store, kept: Store, c: Call, stored: seq<Bytes>): Outcome
    requires c.CreateWithData?
  {
    if stored != [] && Total(kept) + SumLen(stored) > lim.maxTotal then Outcome(kept, Failed(MemoryLimitExceeded))
    else if stored != [] && SumLen(stored) > lim.maxStream then Outcome(kept, Failed(StreamSizeLimitExceeded))
    else Outcome(s[c.name := EmptyLog(c.config).(messages := stored, closed := c.close)],
                 CreatedWith(true, NextOffset(stored), c.close))
  }

  lemma FreshCreateIs(b: Backend, lim: Limits, a: Store, c: Call, now: int)
    requires c.CreateWithData? && !Occupied(a, c.name, now)
    ensures var kept := if b == Acid then a else a - {c.name};
            Apply(b, lim, a, c, now) ==
              if b == File && HasLongRecord(c.messages) then Outcome(kept, Failed(RecordTooLarge))
              else Taking(lim, a, kept, c, Effective(b, c).messages)
  {
    if c.name !in a { assert a - {c.name} == a; }
    if c.messages == [] { assert SumLen(c.messages) == 0; }
  }

  lemma FreshIdealIs(lim: Limits, s: Store, c: Call, now: int)
    requires c.CreateWithData? && !Occupied(s, c.name, now)
    ensures Ideal(lim, s, c, now) == Taking(lim, s, s, c, c.messages)
    ensures LongRecord(lim.maxStream, s, c, now) <==> HasLongRecord(c.messages)
    ensures !CapFirst(Acid, lim, s, c, now)
  {}

  lemma TakingAgrees(lim: Limits, a: Store, s: Store, c: Call, now: int)
    requires c.CreateWithData? && Agree(a, s, now) && Total(a) == Total(s)
    ensures var x, y := Taking(lim, a, a, c, c.messages), Taking(lim, s, s, c, c.messages);
            x.reply == y.reply && Agree(x.store, y.store, now)
  {
    var log := EmptyLog(c.config).(messages := c.messages, closed := c.close);
    PutAgrees(a, s, c.name, log, log, now);
  }

  /** After the old stream is removed, the same becomes of a create exactly when there is room beside it. */
  lemma RetakingAgrees(lim: Limits, a: Store, s: Store, c: Call, now: int)
    requires c.CreateWithData? && Agree(a, s, now) && Total(a) == Total(s) && c.name in a
    ensures var x, y := Taking(lim, a, a - {c.name}, c, c.messages), Taking(lim, s, s, c, c.messages);
            x.reply == y.reply && Agree(x.store, y.store, now) <==>
              c.messages == [] || (SumLen(c.messages) <= lim.maxStream && Total(s) + SumLen(c.messages) <= lim.maxTotal)
  {
    var log := EmptyLog(c.config).(messages := c.messages, closed := c.close);
    PutAgrees(a, s, c.name, log, log, now);
    TotalUpdate(a, c.name, log);
    assert c.name !in a - {c.name} && c.name in s;
  }

  lemma TakingEffective(lim: Limits, a: Store, s: Store, c: Call, now: int)
    requires c.CreateWithData? && Agree(a, s, now) && Total(a) == Total(s) <= lim.maxTotal && !Occupied(s, c.name, now)
    ensures var x, y := Taking(lim, a, a, c, Effective(Acid, c).messages), Taking(lim, s, s, c, c.messages);
            x.reply == y.reply && Agree(x.store, y.store, now) <==> !EmptiedCreate(s, c, now)
  {
    TakingAgrees(lim, a, s, c, now);
    if c.messages == [] { assert SumLen(c.messages) == 0; }
    if EmptiedCreate(s, c, now) {
      assert Effective(Acid, c).messages == [];
    } else {
      assert Effective(Acid, c).messages == c.messages;
    }
  }

  lemma TakingAfterRemoval(lim: Limits, a: Store, s: Store, c: Call, now: int)
    requires c.CreateWithData? && Agree(a, s, now) && Total(a) == Total(s) && !Occupied(s, c.name, now)
    ensures var x, y := Taking(lim, a, a - {c.name}, c, c.messages), Taking(lim, s, s, c, c.messages);
            x.reply == y.reply && Agree(x.store, y.store, now) <==> !CrowdedCreate(lim, s, c, now)
  {
    if c.name in a {
      RetakingAgrees(lim, a, s, c, now);
    } else {
      TakingAgrees(lim, a, s, c, now);
      assert a - {c.name} == a;
    }
  }

  lemma FreshCreateAgrees(b: Backend, lim: Limits, a: Store, s: Store, c: Call, now: int)
    requires Agree(a, s, now) && c.CreateWithData? && !Occupied(s, c.name, now) && Total(s) <= lim.maxTotal
    ensures var x, y := Apply(b, lim, a, c, now), Ideal(lim, s, c, now);
            Uniform(b, lim, s, c, now) <==>
              Agree(x.store, y.store, now) && ReplyAsIdeal(b, lim, s, c, now, x.reply, y.reply)
  {
    if c.name in a { assert LogsAgree(a[c.name], s[c.name], now); }
    AgreeTotal(a, s, now);
    FreshCreateIs(b, lim, a, c, now);
    FreshIdealIs(lim, s, c, now);
    TakingEffective(lim, a, s, c, now);
    TakingAfterRemoval(lim, a, s, c, now);
  }

  /**
    One call, on stores that agree: the backend stays with the ideal store, and answers as it does but
    for a cap that comes first, exactly when it treats the call as the others do.
   */
  lemma StepAgreesExactly(b: Backend, lim: Limits, a: Store, s: Store, c: Call, now: int)
    requires Agree(a, s, now) && Bounded(lim.maxStream, s) && Total(s) <= lim.maxTotal
    ensures var x, y := Apply(b, lim, a, c, now), Ideal(lim, s, c, now);
            Uniform(b, lim, s, c, now) <==>
              Agree(x.store, y.store, now) && ReplyAsIdeal(b, lim, s, c, now, x.reply, y.reply)
  {
    AgreeBounded(lim.maxStream, a, s, now);
    if IsAppend(c) {
      AppendStepAgrees(b, lim, a, s, c, now);
    } else if !c.CreateWithData? {
      OtherStepAgrees(b, lim, a, s, c, now);
    } else if Occupied(s, c.name, now) {
      TakenCreateAgrees(b, lim, a, s, c, now);
    } else {
      FreshCreateAgrees(b, lim, a, s, c, now);
    }
  }

  lemma IdealKeepsBytes(lim: Limits, s: Store, c: Call, now: int)
    requires Total(s) <= lim.maxTotal
    ensures Total(Ideal(lim, s, c, now).store) <= lim.maxTotal
  {
    var out := Txn(false, lim.maxStream, s, c, now);
    if IsAppend(c) {
      AppendCallBytes(lim.maxStream, s, c, now);
    } else {
      OtherCallBytes(lim.maxStream, s, c, now);
    }
    CapBoundsBytes(lim, s, c, out);
  }

  lemma IdealKeepsBounded(lim: Limits, s: Store, c: Call, now: int)
    requires Bounded(lim.maxStream, s)
    ensures Bounded(lim.maxStream, Ideal(lim, s, c, now).store)
  {
    TxnBounded(lim.maxStream, s, c, now);
  }

  /** A call adds at most its batch, and that only past every check before the limits. */
  ghost predicate AddsAtMost(s: Store, c: Call, out: Outcome) {
    Total(out.store) <= Total(s) + if ReachesLimits(c, out.reply) then SumLen(BatchOf(c)) else 0
  }

  lemma CapBoundsBytes(lim: Limits, s: Store, c: Call, out: Outcome)
    requires Total(s) <= lim.maxTotal && AddsAtMost(s, c, out)
    ensures Total(CappedLast(lim, s, c, out).store) <= lim.maxTotal
  {}

  lemma AppendCallBytes(maxStream: nat, s: Store, c: Call, now: int)
    requires IsAppend(c)
    ensures AddsAtMost(s, c, Txn(false, maxStream, s, c, now))
  {
    var out := Txn(false, maxStream, s, c, now);
    if out.reply.Appended? || out.reply.Accepted? {
      TxnAddsBatch(false, maxStream, s, c, now);
      AddsBatchTotal(s, c, out.store);
      if BatchOf(c) == [] { assert SumLen(BatchOf(c)) == 0; }
    } else {
      FailedTxn(false, maxStream, s, c, now);
      SameUpToStaleTotal(s, out.store, now);
    }
  }

  lemma OtherCallBytes(maxStream: nat, s: Store, c: Call, now: int)
    requires !IsAppend(c)
    ensures AddsAtMost(s, c, Txn(false, maxStream, s, c, now))
  {
    match c {
      case Create(n, cfg) => TotalUpdate(s, n, EmptyLog(cfg));
      case CreateWithData(n, cfg, ms, close) => TotalUpdate(s, n, EmptyLog(cfg).(messages := ms, closed := close));
      case Close(n) => if n in s { TotalUpdate(s, n, s[n].(closed := true)); }
      case Delete(n) => if n in s { TotalUpdate(s, n, s[n]); }
      case Read(_, _) =>
    }
  }

  // ------------------------------------------------------------ whole runs

  datatype Timed = Timed(call: Call, now: int)

  ghost predicate Monotone(cs: seq<Timed>) {
    forall i :: 0 < i < |cs| ==> cs[i - 1].now <= cs[i].now
  }

  ghost function StoreAfter(b: Backend, lim: Limits, cs: seq<Timed>): Store {
    if cs == [] then map[]
    else Apply(b, lim, StoreAfter(b, lim, cs[..|cs| - 1]), cs[|cs| - 1].call, cs[|cs| - 1].now).store
  }

  ghost function IdealAfter(lim: Limits, cs: seq<Timed>): Store {
    if cs == [] then map[]
    else Ideal(lim, IdealAfter(lim, cs[..|cs| - 1]), cs[|cs| - 1].call, cs[|cs| - 1].now).store
  }

  ghost function ReplyOf(b: Backend, lim: Limits, cs: seq<Timed>): Reply
    requires cs != []
  {
    Apply(b, lim, StoreAfter(b, lim, cs[..|cs| - 1]), cs[|cs| - 1].call, cs[|cs| - 1].now).reply
  }

  ghost function IdealReply(lim: Limits, cs: seq<Timed>): Reply
    requires cs != []
  {
    Ideal(lim, IdealAfter(lim, cs[..|cs| - 1]), cs[|cs| - 1].call, cs[|cs| - 1].now).reply
  }

  /** Every call of the run is one the backend treats as the others do. */
  ghost predicate UniformRun(b: Backend, lim: Limits, cs: seq<Timed>) {
    forall i :: 0 <= i < |cs| ==> UniformAt(b, lim, cs, i)
  }

  ghost predicate UniformAt(b: Backend, lim: Limits, cs: seq<Timed>, i: nat)
    requires i < |cs|
  {
    Uniform(b, lim, IdealAfter(lim, cs[..i]), cs[i].call, cs[i].now)
  }

  lemma UniformPrefix(b: Backend, lim: Limits, cs: seq<Timed>, k: nat)
    requires UniformRun(b, lim, cs) && k <= |cs|
    ensures UniformRun(b, lim, cs[..k])
  {
    forall i | 0 <= i < k ensures UniformAt(b, lim, cs[..k], i) {
      assert UniformAt(b, lim, cs, i);
      assert cs[..k][..i] == cs[..i];
    }
  }

  lemma {:induction false} IdealInLimits(lim: Limits, cs: seq<Timed>)
    ensures Total(IdealAfter(lim, cs)) <= lim.maxTotal && Bounded(lim.maxStream, IdealAfter(lim, cs))
  {
    if cs == [] {
      assert ByteSizes(map[]) == map[];
    } else {
      var init, last := cs[..|cs| - 1], cs[|cs| - 1];
      IdealInLimits(lim, init);
      IdealKeepsBytes(lim, IdealAfter(lim, init), last.call, last.now);
      IdealKeepsBounded(lim, IdealAfter(lim, init), last.call, last.now);
    }
  }

  lemma {:induction false} RunAgrees(b: Backend, lim: Limits, cs: seq<Timed>)
    requires Monotone(cs) && UniformRun(b, lim, cs)
    ensures cs == [] ==> StoreAfter(b, lim, cs) == IdealAfter(lim, cs)
    ensures cs != [] ==> Agree(StoreAfter(b, lim, cs), IdealAfter(lim, cs), cs[|cs| - 1].now)
    decreases |cs|, 1
  {
    if cs != [] {
      UniformPrefix(b, lim, cs, |cs| - 1);
      assert UniformAt(b, lim, cs, |cs| - 1);
      LastAgreesExactly(b, lim, cs);
    }
  }

  lemma {:induction false} LastAgreesExactly(b: Backend, lim: Limits, cs: seq<Timed>)
    requires cs != [] && Monotone(cs) && UniformRun(b, lim, cs[..|cs| - 1])
    ensures var s, last := IdealAfter(lim, cs[..|cs| - 1]), cs[|cs| - 1];
            Uniform(b, lim, s, last.call, last.now) <==>
              && Agree(StoreAfter(b, lim, cs), IdealAfter(lim, cs), last.now)
              && ReplyAsIdeal(b, lim, s, last.call, last.now, ReplyOf(b, lim, cs), IdealReply(lim, cs))
    decreases |cs|, 0
  {
    var init, last := cs[..|cs| - 1], cs[|cs| - 1];
    RunAgrees(b, lim, init);
    IdealInLimits(lim, init);
    var a, s := StoreAfter(b, lim, init), IdealAfter(lim, init);
    if init != [] { AgreeLater(a, s, init[|init| - 1].now, last.now); }
    StepAgreesExactly(b, lim, a, s, last.call, last.now);
  }

  /**
    Backend refinement over every run of atomic calls on a monotone clock. As long as the calls before
    were treated alike, the backend's store equals the ideal one up to stale producers and its reply is
    the ideal one, but for the byte cap reported first by ACID, exactly when this call is treated alike.
   */
  lemma BackendRefinesIdeal(b: Backend, lim: Limits, cs: seq<Timed>)
    requires cs != [] && Monotone(cs) && UniformRun(b, lim, cs[..|cs| - 1])
    ensures Total(IdealAfter(lim, cs)) <= lim.maxTotal
    ensures var s, last := IdealAfter(lim, cs[..|cs| - 1]), cs[|cs| - 1];
            Uniform(b, lim, s, last.call, last.now) <==>
              && Agree(StoreAfter(b, lim, cs), IdealAfter(lim, cs), last.now)
              && ReplyAsIdeal(b, lim, s, last.call, last.now, ReplyOf(b, lim, cs), IdealReply(lim, cs))
  {
    IdealInLimits(lim, cs);
    LastAgreesExactly(b, lim, cs);
  }

  lemma AgreeSymmetric(a: Store, b: Store, now: int)
    requires Agree(a, b, now)
    ensures Agree(b, a, now)
  {}

  lemma AgreeTransitive(a: Store, b: Store, c: Store, now: int)
    requires Agree(a, b, now) && Agree(b, c, now)
    ensures Agree(a, c, now)
  {
    forall n | n in a ensures LogsAgree(a[n], c[n], now) {
      assert LogsAgree(a[n], b[n], now) && LogsAgree(b[n], c[n], now);
    }
  }

  /**
    Two backends that treat every call of a run alike hold equal stores up to stale producers, and
    reply alike exactly when neither reports the byte cap first.
   */
  lemma BackendsAgree(b: Backend, b': Backend, lim: Limits, cs: seq<Timed>)
    requires cs != [] && Monotone(cs) && UniformRun(b, lim, cs) && UniformRun(b', lim, cs) && b != b'
    ensures Agree(StoreAfter(b, lim, cs), StoreAfter(b', lim, cs), cs[|cs| - 1].now)
    ensures var s, last := IdealAfter(lim, cs[..|cs| - 1]), cs[|cs| - 1];
            ReplyOf(b, lim, cs) == ReplyOf(b', lim, cs) <==>
              !CapFirst(b, lim, s, last.call, last.now) && !CapFirst(b', lim, s, last.call, last.now)
  {
    var s, last := IdealAfter(lim, cs[..|cs| - 1]), cs[|cs| - 1];
    UniformPrefix(b, lim, cs, |cs| - 1);
    UniformPrefix(b', lim, cs, |cs| - 1);
    assert UniformAt(b, lim, cs, |cs| - 1) && UniformAt(b', lim, cs, |cs| - 1);
    LastAgreesExactly(b, lim, cs);
    LastAgreesExactly(b', lim, cs);
    AgreeSymmetric(StoreAfter(b', lim, cs), IdealAfter(lim, cs), last.now);
    AgreeTransitive(StoreAfter(b, lim, cs), IdealAfter(lim, cs), StoreAfter(b', lim, cs), last.now);
  }

  // ------------------------------------------------- where the backends differ

  /** An append to a missing stream: memory says so, ACID exactly when the batch fits the cap. */
  lemma CapHidesMissing(lim: Limits, s: Store, c: Call, now: int)
    requires IsAppend(c) && c.name !in s && BatchOf(c) != []
    ensures Apply(Memory, lim, s, c, now).reply == Failed(NotFound)
    ensures Apply(Acid, lim, s, c, now).reply == Failed(NotFound) <==>
              SumLen(BatchOf(c)) == 0 || Total(s) + SumLen(BatchOf(c)) <= lim.maxTotal
  {}

  /**
    On a free name with room, a create with data leaves the same store in memory and in ACID unless all its
    bytes are none.
   */
  lemma EmptyInitialBatchDiffers(lim: Limits, s: Store, c: Call, now: int)
    requires c.CreateWithData? && c.name !in s && Total(s) + SumLen(c.messages) <= lim.maxTotal
             && SumLen(c.messages) <= lim.maxStream
    ensures Apply(Memory, lim, s, c, now).store == Apply(Acid, lim, s, c, now).store
            <==> c.messages == [] || SumLen(c.messages) > 0
  {
    var m, a := Apply(Memory, lim, s, c, now).store, Apply(Acid, lim, s, c, now).store;
    assert Refused(true, s, c, now) == s;
    assert m[c.name].messages == c.messages;
    assert a[c.name].messages == Effective(Acid, c).messages;
  }

  /** A create with data that fails on an expired name loses the old stream in memory and file, and only there. */
  lemma ExpiredLostExactly(b: Backend, lim: Limits, s: Store, c: Call, now: int)
    requires c.CreateWithData? && c.name in s && Apply(b, lim, s, c, now).reply.Failed?
    ensures c.name in Apply(b, lim, s, c, now).store <==> b == Acid || !Expired(s[c.name].config, now)
  {
    ApplyCases(b, lim, s, c, now);
  }

  /**
    A create with data on an expired name, within the stream limit: memory takes it and ACID refuses it
    exactly when it fits the cap without the old stream but not beside it.
   */
  lemma ExpiredAtCapDiffers(lim: Limits, s: Store, c: Call, now: int)
    requires c.CreateWithData? && c.name in s && Expired(s[c.name].config, now)
    requires 0 < SumLen(c.messages) <= lim.maxStream
    ensures Apply(Memory, lim, s, c, now).reply.CreatedWith?
            && Apply(Acid, lim, s, c, now).reply == Failed(MemoryLimitExceeded)
            <==> Total(s) - SumLen(s[c.name].messages) + SumLen(c.messages) <= lim.maxTotal
                 && lim.maxTotal < Total(s) + SumLen(c.messages)
  {
    TotalUpdate(s, c.name, s[c.name]);
    FreshCreateIs(Memory, lim, s, c, now);
    FreshCreateIs(Acid, lim, s, c, now);
  }
}
