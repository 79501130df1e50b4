/**
  Retries against the file backend: when a batch that is sent again is stored twice, when it is
  recognised, and in which runs every batch is stored once.
 */
module FileRetries {
  import opened Types
  import opened Validation
  import opened FileLog
  import opened FileCrash

  // ------------------------------------------------------- stored a second time

  /** The pair is the next one for the recorded state, and the Stream-Seq, if any, is above the recorded one. */
  predicate NotYetRecorded(m: Meta, op: Op)
    requires op.producer.Some?
  {
    && !m.closed
    && (match Lookup(m.producers, op.producer.value.id)
        case None => op.producer.value.seqNo == 0
        case Some(st) =>
          || (op.producer.value.epoch > st.epoch && op.producer.value.seqNo == 0)
          || (op.producer.value.epoch == st.epoch && op.producer.value.seqNo == st.lastSeq + 1))
    && (m.lastSeq.Some? && op.streamSeq.Some? ==> LexLess(m.lastSeq.value, op.streamSeq.value))
  }

  lemma PassesExactly(env: Env, m: Meta, op: Op)
    requires op.producer.Some? && TypeFits(env.config, op)
    ensures Passes(env, m, op) <==> NotYetRecorded(m, op)
  {
    AcceptedExactly(Lookup(m.producers, op.producer.value.id), op.producer.value, m.closed);
    if m.lastSeq.Some? && op.streamSeq.Some? { LexLessStrict(m.lastSeq.value, op.streamSeq.value); }
  }

  /** Two copies of the batch lie in the log, one after the other. */
  ghost predicate StoredTwice(ms: seq<Bytes>, a: Acked, b: Acked) {
    a.op.batch == b.op.batch && Stored(ms, a) && Stored(ms, b) && a.start + |a.op.batch| <= b.start
  }

  /**
    A crash that leaves `kept` bytes of log and this version lets the append in again: the version lets pair and
    Stream-Seq follow, the stream has not expired, and the batch fits beside what is recovered.
   */
  predicate Repeats(s: State, kept: nat, version: nat, op: Op, others: nat)
    requires kept <= |s.file| && version < |s.versions| && op.producer.Some?
  {
    && NotYetRecorded(Evicted(s.versions[version], op.now), op) && !Expired(s.env.config, op.now)
    && HasRoom(s.env.limits, SumLen(RecoveredAt(s, kept)), others, op.batch)
  }

  /**
    The retry of an acknowledged producer append after a crash, in every run: it is acknowledged again, with
    its batch in the log a second time, exactly when the crash lets it in again; otherwise it changes
    nothing in the log.
   */
  lemma RetryRepeatsExactly(env: Env, steps: seq<Step>, kept: nat, version: nat, i: nat, now: int, others: nat)
    requires Run(env, steps).Some? && Enabled(Run(env, steps).value, Crash(kept, version))
    requires i < |Run(env, steps).value.acked|
    requires var a := Run(env, steps).value.acked[i]; a.op.producer.Some? && a.op.batch != []
    ensures var s := Run(env, steps).value;
            var op := s.acked[i].op.(now := now);
            var s' := Run(env, Calling(env, steps + [Crash(kept, version)], op, others));
            s'.Some? && RetryEnds(s, kept, version, i, op, others, s'.value)
  {
    var s := Run(env, steps).value;
    var op := s.acked[i].op.(now := now);
    RunKeepsInv(env, steps);
    assert TypeFits(env.config, s.acked[i].op);
    RunMore(env, steps, Crash(kept, version));
    CallingExactly(env, steps + [Crash(kept, version)], op, others);
    AckedSurvives(env, steps, kept);
    LetInExactly(s, kept, version, op, others);
    RetryFrom(s, Perform(s, Crash(kept, version)), kept, version, i, op, others,
              Run(env, Calling(env, steps + [Crash(kept, version)], op, others)).value);
  }

  ghost predicate RetryEnds(s: State, kept: nat, version: nat, i: nat, op: Op, others: nat, s': State)
  {
    && kept <= |s.file| && version < |s.versions| && op.producer.Some? && i < |s.acked|
    && if Repeats(s, kept, version, op, others) then AckedAgain(s, i, op, s')
       else s'.acked == s.acked && Parse(s'.file) == RecoveredAt(s, kept)
  }

  /** The state a crash leaves takes the append exactly when the crash lets it in again. */
  lemma LetInExactly(s: State, kept: nat, version: nat, op: Op, others: nat)
    requires Enabled(s, Crash(kept, version)) && op.producer.Some? && op.batch != [] && TypeFits(s.env.config, op)
    ensures Takes(Perform(s, Crash(kept, version)), op, others) <==> Repeats(s, kept, version, op, others)
  {
    PassesExactly(s.env, Evicted(s.versions[version], op.now), op);
  }

  lemma RetryFrom(s: State, s0: State, kept: nat, version: nat, i: nat, op: Op, others: nat, s': State)
    requires Enabled(s, Crash(kept, version)) && s0 == Perform(s, Crash(kept, version)) && i < |s.acked|
    requires op.producer.Some? && op.batch == s.acked[i].op.batch && op.batch != []
    requires Takes(s0, op, others) <==> Repeats(s, kept, version, op, others)
    requires if Takes(s0, op, others) then TookIn(s0, op, s') else s'.acked == s0.acked && s'.file == s0.file
    requires CleanStored(RecoveredAt(s, kept), s.acked)
    ensures RetryEnds(s, kept, version, i, op, others, s')
  {
    RecoveryIdempotent(s.file[..kept]);
    if Takes(s0, op, others) {
      assert Stored(Parse(s0.file), s.acked[i]) || !s.acked[i].clean;
      CopyAdded(s0.file, op.batch);
      if s.acked[i].clean { SecondCopy(s0.file, s.acked[i], s0, op); }
    }
  }

  lemma CopyAdded(file: seq<byte>, batch: seq<Bytes>)
    requires Whole(file) && AllShort(batch)
    ensures Sits(Parse(file + Encode(batch)), |Parse(file)|, batch)
  {
    WrittenSits(file, batch);
  }

  /** One more acknowledgement, and two copies of the batch unless the first was written behind torn bytes. */
  ghost predicate AckedAgain(s: State, i: nat, op: Op, s': State)
    requires i < |s.acked|
  {
    && |s'.acked| == |s.acked| + 1 && s'.acked[..|s.acked|] == s.acked && s'.acked[|s.acked|].op == op
    && Stored(Parse(s'.file), s'.acked[|s.acked|])
    && (s.acked[i].clean ==> StoredTwice(Parse(s'.file), s.acked[i], s'.acked[|s.acked|]))
  }

  lemma SecondCopy(file: seq<byte>, a: Acked, s0: State, op: Op)
    requires Whole(file) && AllShort(op.batch) && op.batch == a.op.batch && Stored(Parse(file), a)
    ensures StoredTwice(Parse(file + Encode(op.batch)), a, Acked(op, |Parse(file)|, true, s0.life, |s0.versions|))
  {
    var ms := Parse(file);
    WrittenBatch(file, op.batch);
    SitsGrows(ms, ms + op.batch, a.start, a.op.batch);
    SitsAtEnd(ms, op.batch);
  }

  /** When the crash falls between the sync and the metadata write, the retry is accepted and stored again. */
  lemma RetryMayRepeat(m: Bytes) returns (env: Env, steps: seq<Step>)
    requires Short(m)
    ensures Run(env, steps).Some?
    ensures var s := Run(env, steps).value;
            && |s.acked| == 2 && s.acked[0].op == s.acked[1].op && StoredTwice(Parse(s.file), s.acked[0], s.acked[1])
  {
    env := Env(StreamConfig("text/plain", None, None, false), Limits(2 * |m|, 2 * |m|));
    var op := Op(Some(ProducerHeaders("p", 0, 0)), None, [m], "text/plain", false, 0);
    SumLenOne(m);
    FirstRuns(env, op);
    steps := Acking(env, [], op, 0);
    var s := Run(env, steps).value;
    RetryRepeatsExactly(env, steps, |s.file|, 0, 0, 0, 0);
    steps := Calling(env, steps + [Crash(|s.file|, 0)], op, 0);
    assert Run(env, steps).value.acked[..1][0] == s.acked[0];
  }

  lemma FirstTaken(env: Env, op: Op)
    requires op.producer.Some? && op.producer.value.seqNo == 0 && op.streamSeq.None? && op.batch != []
    requires env.config.expiresAt.None? && TypeFits(env.config, op) && HasRoom(env.limits, 0, 0, op.batch)
    ensures Takes(Initial(env), op, 0) && NotYetRecorded(Evicted(Initial(env).entry, op.now), op)
    ensures Parse([]) == [] && Whole([])
  {
    assert Parse([]) == [] && Encode([]) == [] && Live(map[], op.now) == map[];
  }

  lemma FirstRuns(env: Env, op: Op)
    requires op.producer.Some? && op.producer.value.seqNo == 0 && op.streamSeq.None? && op.now == 0 && op.batch != []
    requires env.config.expiresAt.None? && TypeFits(env.config, op)
             && HasRoom(env.limits, SumLen(op.batch), 0, op.batch)
    ensures Run(env, Acking(env, [], op, 0)).Some?
    ensures var s := Run(env, Acking(env, [], op, 0)).value;
            && s.acked == [Acked(op, 0, true, 0, 1)] && s.synced == |s.file| && |s.versions| == 1
            && s.acked[0].op.(now := 0) == op && Repeats(s, |s.file|, 0, op, 0)
  {
    FirstTaken(env, op);
    AckingExactly(env, [], op, 0);
    var s := Run(env, Acking(env, [], op, 0)).value;
    assert [] + [Acked(op, 0, true, 0, 1)] == [Acked(op, 0, true, 0, 1)];
    WrittenBatch([], op.batch);
    assert s.file[..|s.file|] == s.file && [] + op.batch == op.batch;
  }

  // ------------------------------------------------ repeats without a crash

  /** In a log of whole records, a call adds its batch exactly when the stream takes it. */
  lemma CallAdds(env: Env, steps: seq<Step>, op: Op, others: nat)
    requires Run(env, steps).Some? && Run(env, steps).value.phase.Idle? && Whole(Run(env, steps).value.file)
    ensures var s, s' := Run(env, steps).value, Run(env, Calling(env, steps, op, others));
            && s'.Some? && Parse(s'.value.file) == Parse(s.file) + (if Takes(s, op, others) then op.batch else [])
            && |s'.value.acked| == |s.acked| + if Takes(s, op, others) then 1 else 0
  {
    var s := Run(env, steps).value;
    CallingExactly(env, steps, op, others);
    if Takes(s, op, others) { WrittenBatch(s.file, op.batch); } else { assert Parse(s.file) + [] == Parse(s.file); }
  }

  /**
    A sync that fails after a batch was written behind whole records: sent again at once, the batch is
    acknowledged with two copies at the end of the log exactly when it still fits the limits.
   */
  lemma FailedSyncRepeats(env: Env, steps: seq<Step>, others: nat)
    requires Run(env, steps).Some? && Run(env, steps).value.phase.Written?
    requires Run(env, steps).value.phase.clean && Run(env, steps).value.phase.op.batch != []
    ensures var s := Run(env, steps).value;
            var op, s' := s.phase.op, Run(env, Calling(env, steps + [SyncFails], s.phase.op, others));
            var fits := HasRoom(s.env.limits, s.bytes, others, op.batch);
            && s.phase.start <= |Parse(s.file)| && Parse(s.file)[s.phase.start..] == op.batch && s'.Some?
            && Parse(s'.value.file) == Parse(s.file) + (if fits then op.batch else [])
            && (|s'.value.acked| > |s.acked| <==> fits)
  {
    var s := Run(env, steps).value;
    RunKeepsInv(env, steps);
    RunMore(env, steps, SyncFails);
    assert Underway(s, s.phase.op);
    CallAdds(env, steps + [SyncFails], s.phase.op, others);
    SitsToEnd(Parse(s.file), s.phase.start, s.phase.op.batch);
  }

  lemma SitsToEnd(ms: seq<Bytes>, start: nat, batch: seq<Bytes>)
    requires |ms| == start + |batch| && Sits(ms, start, batch)
    ensures ms[start..] == batch
  {}

  /**
    A write that fails at the end of a record, in a log of whole records: sent again at once, the batch is
    acknowledged behind the messages the first attempt left exactly when it still fits the limits, so that
    those are there twice.
   */
  lemma FailedWriteRepeats(env: Env, steps: seq<Step>, n: nat, others: nat, others': nat)
    requires Run(env, steps).Some? && Enabled(Run(env, steps).value, WriteFails(n, others))
    requires Whole(Run(env, steps).value.file)
    requires var batch := Run(env, steps).value.phase.op.batch; n == |Encode(batch[..WholeRecords(batch, n)])|
    ensures var s := Run(env, steps).value;
            var batch := s.phase.op.batch;
            var s' := Run(env, Calling(env, steps + [WriteFails(n, others)], s.phase.op, others'));
            var fits, left := HasRoom(s.env.limits, s.bytes, others', batch), batch[..WholeRecords(batch, n)];
            && s'.Some? && Parse(s'.value.file) == Parse(s.file) + left + (if fits then batch else [])
            && (|s'.value.acked| > |s.acked| <==> fits) && (left == [] <==> n < HEADER + |batch[0]|)
  {
    var s := Run(env, steps).value;
    RunKeepsInv(env, steps);
    assert Underway(s, s.phase.op);
    FailedWriteExactly(env, steps, n, others);
    RunMore(env, steps, WriteFails(n, others));
    TornWriteWholeExactly(s.file, s.phase.op.batch, n);
    CutEnds(s.phase.op.batch, n);
    CallAdds(env, steps + [WriteFails(n, others)], s.phase.op, others');
  }

  // --------------------------------------- which versions recognise a retry

  /** The recorded state answers the pair as a duplicate or as fenced. */
  predicate Covers(st: Option<ProducerState>, p: ProducerHeaders) {
    st.Some? && (st.value.epoch > p.epoch || (st.value.epoch == p.epoch && st.value.lastSeq >= p.seqNo))
  }

  lemma CoversExactly(st: Option<ProducerState>, p: ProducerHeaders, closed: bool)
    ensures Covers(st, p) <==>
              var c := CheckProducer(st, p, closed); c.Repeat? || (c.Refuse? && c.error.EpochFenced?)
  {}

  predicate AtMost(a: Option<ProducerState>, b: Option<ProducerState>) {
    a.Some? ==> Covers(b, ProducerHeaders("", a.value.epoch, a.value.lastSeq))
  }

  /** No check of the run evicts the producer. */
  ghost predicate NeverStale(env: Env, steps: seq<Step>, id: string) {
    forall i :: 0 <= i < |steps| ==> FreshAt(env, steps, i, id)
  }

  ghost predicate FreshAt(env: Env, steps: seq<Step>, i: nat, id: string)
    requires i < |steps|
  {
    steps[i].Check? && Run(env, steps[..i]).Some? ==> Fresh(Run(env, steps[..i]).value.entry, id, steps[i].op.now)
  }

  predicate Fresh(m: Meta, id: string, now: int) {
    id in m.producers ==> !Stale(m.producers[id], now)
  }

  lemma FreshPrefix(env: Env, steps: seq<Step>, id: string)
    requires steps != [] && NeverStale(env, steps, id)
    ensures NeverStale(env, steps[..|steps| - 1], id) && FreshAt(env, steps, |steps| - 1, id)
  {
    var init := steps[..|steps| - 1];
    forall i | 0 <= i < |init| ensures FreshAt(env, init, i, id) {
      assert init[..i] == steps[..i];
      assert FreshAt(env, steps, i, id);
    }
  }

  predicate From(a: Acked, id: string) {
    a.op.producer.Some? && a.op.producer.value.id == id
  }

  /** The versions of this life that record the pair are those written after it was acknowledged. */
  ghost predicate Stamped(s: State, a: Acked, id: string) {
    From(a, id) && a.life == s.life ==>
      && a.stamp <= |s.versions| && Covers(Lookup(s.entry.producers, id), a.op.producer.value)
      && forall v :: 0 <= v < |s.versions| ==>
           (Covers(Lookup(s.versions[v].producers, id), a.op.producer.value) <==> a.stamp <= v)
  }

  ghost predicate StampInv(s: State, id: string) {
    && (forall i :: 0 <= i < |s.acked| ==> s.acked[i].life <= s.life && Stamped(s, s.acked[i], id))
    && (forall v :: 0 <= v < |s.versions| ==>
          AtMost(Lookup(s.versions[v].producers, id), Lookup(s.entry.producers, id)))
  }

  /** The append was acknowledged in this life before version `v` was written, and left this state of the producer. */
  predicate Left(s: State, j: nat, st: Option<ProducerState>, v: nat, id: string)
    requires j < |s.acked|
  {
    && From(s.acked[j], id) && s.acked[j].life == s.life && s.acked[j].stamp <= v && st.Some?
    && st.value.epoch == s.acked[j].op.producer.value.epoch && st.value.lastSeq == s.acked[j].op.producer.value.seqNo
  }

  /** The state of the producer was found at the last restart, or an append of this life left it. */
  ghost predicate Sourced(s: State, st: Option<ProducerState>, v: nat, id: string)
    requires |s.versions| > 0
  {
    st == Lookup(s.versions[0].producers, id) || exists j :: 0 <= j < |s.acked| && Left(s, j, st, v, id)
  }

  ghost predicate SourceInv(s: State, id: string) {
    && |s.versions| > 0 && Sourced(s, Lookup(s.entry.producers, id), |s.versions|, id)
    && AtMost(Lookup(s.versions[0].producers, id), Lookup(s.entry.producers, id))
    && forall v :: 0 <= v < |s.versions| ==>
         && Sourced(s, Lookup(s.versions[v].producers, id), v, id)
         && AtMost(Lookup(s.versions[0].producers, id), Lookup(s.versions[v].producers, id))
  }

  /** A state that has a source keeps it. */
  lemma SourceKept(s: State, s': State, st: Option<ProducerState>, v: nat, v': nat, id: string)
    requires |s.versions| > 0 && |s'.versions| > 0 && s'.versions[0] == s.versions[0] && s'.life == s.life && v <= v'
    requires |s.acked| <= |s'.acked| && s'.acked[..|s.acked|] == s.acked && Sourced(s, st, v, id)
    ensures Sourced(s', st, v', id)
  {
    if st != Lookup(s.versions[0].producers, id) {
      var j :| 0 <= j < |s.acked| && Left(s, j, st, v, id);
      assert s'.acked[j] == s'.acked[..|s.acked|][j] == s.acked[j];
      assert Left(s', j, st, v', id);
    }
  }

  lemma ApplyKeepsSources(s: State, id: string)
    requires SourceInv(s, id) && MetaInv(s) && Enabled(s, Apply)
    ensures SourceInv(Perform(s, Apply), id)
  {
    var s', op := Perform(s, Apply), s.phase.op;
    assert s'.acked[..|s.acked|] == s.acked;
    forall v | 0 <= v < |s.versions| ensures Sourced(s', Lookup(s'.versions[v].producers, id), v, id) {
      SourceKept(s, s', Lookup(s.versions[v].producers, id), v, v, id);
    }
    if op.producer.Some? && op.producer.value.id == id {
      AcceptedAbove(Lookup(s.entry.producers, id), Lookup(s.versions[0].producers, id), op.producer.value,
                    s.entry.closed);
      assert Left(s', |s.acked|, Lookup(s'.entry.producers, id), |s'.versions|, id);
    } else {
      SourceKept(s, s', Lookup(s.entry.producers, id), |s.versions|, |s'.versions|, id);
    }
  }

  lemma OtherKeepsSources(s: State, s': State, id: string)
    requires SourceInv(s, id) && s'.acked == s.acked && s'.life == s.life
    requires Lookup(s'.entry.producers, id) == Lookup(s.entry.producers, id)
    requires s'.versions == s.versions || s'.versions == s.versions + [s'.entry]
    ensures SourceInv(s', id)
  {
    SourceKept(s, s', Lookup(s.entry.producers, id), |s.versions|, |s'.versions|, id);
    SourceKept(s, s', Lookup(s.entry.producers, id), |s.versions|, |s.versions|, id);
    forall v | 0 <= v < |s.versions| ensures Sourced(s', Lookup(s'.versions[v].producers, id), v, id) {
      SourceKept(s, s', Lookup(s.versions[v].producers, id), v, v, id);
    }
  }

  lemma StepKeepsSources(s: State, st: Step, id: string)
    requires SourceInv(s, id) && MetaInv(s) && Enabled(s, st) && (st.Check? ==> Fresh(s.entry, id, st.op.now))
    ensures SourceInv(Perform(s, st), id)
  {
    if st.Apply? {
      ApplyKeepsSources(s, id);
    } else if !st.Crash? {
      OtherKeepsSources(s, Perform(s, st), id);
    }
  }

  /** A pair that is accepted is above the recorded state and everything below it. */
  lemma AcceptedAbove(st: Option<ProducerState>, st': Option<ProducerState>, p: ProducerHeaders, closed: bool)
    requires CheckProducer(st, p, closed) == Accept && AtMost(st', st)
    ensures !Covers(st', p) && AtMost(st', Some(ProducerState(p.epoch, p.seqNo, 0)))
  {
    AcceptedExactly(st, p, closed);
  }

  lemma ApplyKeepsStamps(s: State, id: string)
    requires StampInv(s, id) && MetaInv(s) && Enabled(s, Apply)
    ensures StampInv(Perform(s, Apply), id)
  {
    var s', op := Perform(s, Apply), s.phase.op;
    var st := Lookup(s.entry.producers, id);
    forall i | 0 <= i < |s'.acked| ensures s'.acked[i].life <= s'.life && Stamped(s', s'.acked[i], id) {
      if i < |s.acked| {
        assert s'.acked[i] == s.acked[i] && Stamped(s, s.acked[i], id);
        if From(s.acked[i], id) && op.producer.Some? && op.producer.value.id == id {
          AcceptedAbove(st, st, op.producer.value, s.entry.closed);
        }
      } else if From(s'.acked[i], id) {
        forall v | 0 <= v < |s.versions| ensures !Covers(Lookup(s.versions[v].producers, id), op.producer.value) {
          AcceptedAbove(st, Lookup(s.versions[v].producers, id), op.producer.value, s.entry.closed);
        }
      }
    }
    forall v | 0 <= v < |s.versions|
      ensures AtMost(Lookup(s'.versions[v].producers, id), Lookup(s'.entry.producers, id))
    {
      if op.producer.Some? && op.producer.value.id == id {
        AcceptedAbove(st, Lookup(s.versions[v].producers, id), op.producer.value, s.entry.closed);
      }
    }
  }

  /** A step that acknowledges nothing and keeps the producer's state, with or without writing it down. */
  lemma OtherKeepsStamps(s: State, s': State, id: string)
    requires StampInv(s, id) && s'.acked == s.acked && s'.life == s.life
    requires Lookup(s'.entry.producers, id) == Lookup(s.entry.producers, id)
    requires s'.versions == s.versions || s'.versions == s.versions + [s'.entry]
    ensures StampInv(s', id)
  {
    forall i | 0 <= i < |s'.acked| ensures s'.acked[i].life <= s'.life && Stamped(s', s'.acked[i], id) {
      assert Stamped(s, s.acked[i], id);
    }
  }

  lemma CrashKeepsStamps(s: State, s': State, id: string)
    requires StampInv(s, id) && s'.acked == s.acked && s'.life == s.life + 1 && s'.versions == [s'.entry]
    ensures StampInv(s', id)
  {
    forall i | 0 <= i < |s'.acked| ensures s'.acked[i].life <= s'.life && Stamped(s', s'.acked[i], id) {
      assert s.acked[i].life <= s.life;
    }
  }

  lemma StepKeepsStamps(s: State, st: Step, id: string)
    requires StampInv(s, id) && MetaInv(s) && Enabled(s, st) && (st.Check? ==> Fresh(s.entry, id, st.op.now))
    ensures StampInv(Perform(s, st), id)
  {
    if st.Apply? {
      ApplyKeepsStamps(s, id);
    } else if st.Crash? {
      CrashKeepsStamps(s, Perform(s, st), id);
    } else {
      OtherKeepsStamps(s, Perform(s, st), id);
    }
  }

  lemma {:induction false} RunKeepsStamps(env: Env, steps: seq<Step>, id: string)
    requires Run(env, steps).Some? && NeverStale(env, steps, id)
    ensures StampInv(Run(env, steps).value, id) && SourceInv(Run(env, steps).value, id)
  {
    if steps != [] {
      var init := steps[..|steps| - 1];
      FreshPrefix(env, steps, id);
      RunKeepsStamps(env, init, id);
      RunKeepsInv(env, init);
      StepKeepsStamps(Run(env, init).value, steps[|steps| - 1], id);
      StepKeepsSources(Run(env, init).value, steps[|steps| - 1], id);
    }
  }

  /** The surviving version answers the pair as a duplicate or as fenced. */
  predicate Recognised(m: Meta, p: ProducerHeaders) {
    var c := CheckProducer(Lookup(m.producers, p.id), p, m.closed);
    c.Repeat? || (c.Refuse? && c.error.EpochFenced?)
  }

  /** In this life, before version `v` was written, a pair at or above this one was acknowledged. */
  ghost predicate ReachedBefore(s: State, p: ProducerHeaders, v: nat) {
    exists j :: 0 <= j < |s.acked| && From(s.acked[j], p.id) && s.acked[j].life == s.life && s.acked[j].stamp <= v
                && !PairBelow(s.acked[j].op.producer.value, p)
  }

  /**
    Any pair, of whichever life, sent after a crash: it is recognised exactly when the version found at the
    last restart covers it, or a pair at or above it was acknowledged since and before the version that
    survived was written.
   */
  lemma RecognisedExactly(env: Env, steps: seq<Step>, kept: nat, version: nat, p: ProducerHeaders, now: int)
    requires Run(env, steps).Some? && Enabled(Run(env, steps).value, Crash(kept, version))
    requires NeverStale(env, steps, p.id) && Fresh(Run(env, steps).value.versions[version], p.id, now)
    ensures var s := Run(env, steps).value;
            Recognised(Evicted(s.versions[version], now), p) <==>
              Covers(Lookup(s.versions[0].producers, p.id), p) || ReachedBefore(s, p, version)
  {
    var s := Run(env, steps).value;
    var m := s.versions[version];
    RunKeepsStamps(env, steps, p.id);
    assert Lookup(Evicted(m, now).producers, p.id) == Lookup(m.producers, p.id);
    CoversExactly(Lookup(m.producers, p.id), p, m.closed);
    CoveredExactly(s, version, p);
  }

  lemma CoveredExactly(s: State, v: nat, p: ProducerHeaders)
    requires StampInv(s, p.id) && SourceInv(s, p.id) && v < |s.versions|
    ensures Covers(Lookup(s.versions[v].producers, p.id), p) <==>
              Covers(Lookup(s.versions[0].producers, p.id), p) || ReachedBefore(s, p, v)
  {
    var st := Lookup(s.versions[v].producers, p.id);
    if Covers(st, p) && st != Lookup(s.versions[0].producers, p.id) {
      var j :| 0 <= j < |s.acked| && Left(s, j, st, v, p.id);
      assert !PairBelow(s.acked[j].op.producer.value, p);
    }
    if ReachedBefore(s, p, v) {
      var j :| 0 <= j < |s.acked| && From(s.acked[j], p.id) && s.acked[j].life == s.life && s.acked[j].stamp <= v
               && !PairBelow(s.acked[j].op.producer.value, p);
      assert Stamped(s, s.acked[j], p.id);
    }
  }

  /** A pair acknowledged since the last restart is recognised exactly by the versions written after it. */
  lemma RetryRecognisedExactly(env: Env, steps: seq<Step>, kept: nat, version: nat, i: nat, now: int)
    requires Run(env, steps).Some? && Enabled(Run(env, steps).value, Crash(kept, version))
    requires i < |Run(env, steps).value.acked|
    requires var s := Run(env, steps).value;
             && s.acked[i].op.producer.Some? && s.acked[i].life == s.life
             && NeverStale(env, steps, s.acked[i].op.producer.value.id)
             && Fresh(s.versions[version], s.acked[i].op.producer.value.id, now)
    ensures var s := Run(env, steps).value;
            Recognised(Evicted(s.versions[version], now), s.acked[i].op.producer.value) <==> s.acked[i].stamp <= version
  {
    var s := Run(env, steps).value;
    var p, m := s.acked[i].op.producer.value, s.versions[version];
    RunKeepsStamps(env, steps, p.id);
    assert Stamped(s, s.acked[i], p.id);
    assert Lookup(Evicted(m, now).producers, p.id) == Lookup(m.producers, p.id);
    CoversExactly(Lookup(m.producers, p.id), p, m.closed);
  }

  // ------------------------------------------------------------ at most once

  /**
    No write, sync or metadata write fails, and a crash finds no call between its write and its
    metadata and leaves the newest metadata.
   */
  predicate Orderly(s: State, st: Step) {
    match st
    case WriteFails(_, _) => false
    case SyncFails => false
    case MetaFails => false
    case CloseFails => false
    case Crash(_, version) => (s.phase.Idle? || s.phase.Checked?) && version == |s.versions| - 1
    case _ => true
  }

  ghost predicate OrderlyAt(env: Env, steps: seq<Step>, i: nat)
    requires i < |steps|
  {
    Run(env, steps[..i]).Some? ==> Orderly(Run(env, steps[..i]).value, steps[i])
  }

  ghost predicate OrderlyRun(env: Env, steps: seq<Step>) {
    forall i :: 0 <= i < |steps| ==> OrderlyAt(env, steps, i)
  }

  lemma OrderlyPrefix(env: Env, steps: seq<Step>)
    requires steps != [] && OrderlyRun(env, steps)
    ensures OrderlyRun(env, steps[..|steps| - 1]) && OrderlyAt(env, steps, |steps| - 1)
  {
    var init := steps[..|steps| - 1];
    forall i | 0 <= i < |init| ensures OrderlyAt(env, init, i) {
      assert init[..i] == steps[..i];
      assert OrderlyAt(env, steps, i);
    }
  }

  /** The batches one after another. */
  function AllBatches(acked: seq<Acked>): seq<Bytes> {
    if acked == [] then [] else AllBatches(acked[..|acked| - 1]) + acked[|acked| - 1].op.batch
  }

  function InFlight(phase: Phase): seq<Bytes> {
    if phase.Written? || phase.Synced? then phase.op.batch else []
  }

  predicate PairBelow(a: ProducerHeaders, b: ProducerHeaders) {
    a.epoch < b.epoch || (a.epoch == b.epoch && a.seqNo < b.seqNo)
  }

  /** The pairs acknowledged from the producer strictly increase. */
  ghost predicate PairsIncrease(acked: seq<Acked>, id: string) {
    forall i, j :: 0 <= i < j < |acked| && From(acked[i], id) && From(acked[j], id) ==>
      PairBelow(acked[i].op.producer.value, acked[j].op.producer.value)
  }

  ghost predicate LogExact(s: State) {
    && Whole(s.file) && Parse(s.file) == AllBatches(s.acked) + InFlight(s.phase)
    && s.synced <= |s.file| && (!(s.phase.Written? && s.phase.op.batch != []) ==> s.synced == |s.file|)
  }

  lemma BatchesPush(acked: seq<Acked>, a: Acked)
    ensures AllBatches(acked + [a]) == AllBatches(acked) + a.op.batch
  {
    assert (acked + [a])[..|acked|] == acked;
  }

  lemma OrderlyKeepsLog(s: State, st: Step)
    requires LogExact(s) && Enabled(s, st) && Orderly(s, st)
    ensures LogExact(Perform(s, st))
  {
    match st
    case Write(others) => OrderlyWrite(s, others);
    case Apply => OrderlyApply(s);
    case Crash(kept, _) => assert s.file[..kept] == s.file;
    case _ =>
  }

  lemma OrderlyWrite(s: State, others: nat)
    requires LogExact(s) && s.phase.Checked?
    ensures LogExact(Writing(s, others))
  {
    if HasRoom(s.env.limits, s.bytes, others, s.phase.op.batch) { WrittenBatch(s.file, s.phase.op.batch); }
    assert AllBatches(s.acked) + [] == AllBatches(s.acked);
  }

  lemma OrderlyApply(s: State)
    requires LogExact(s) && Enabled(s, Apply)
    ensures LogExact(Perform(s, Apply))
  {
    var a := Perform(s, Apply).acked[|s.acked|];
    BatchesPush(s.acked, a);
    assert AllBatches(s.acked + [a]) + [] == AllBatches(s.acked) + s.phase.op.batch;
  }

  /** The recorded state of the producer is above or at every pair acknowledged, and the newest metadata has it. */
  ghost predicate PairsRecorded(s: State, id: string) {
    && PairsIncrease(s.acked, id) && |s.versions| > 0
    && (forall i :: 0 <= i < |s.acked| && From(s.acked[i], id) ==>
        Covers(Lookup(s.entry.producers, id), s.acked[i].op.producer.value))
    && (!(s.phase.Applied? && WritesMeta(s.phase.op)) ==>
          Lookup(s.versions[|s.versions| - 1].producers, id) == Lookup(s.entry.producers, id))
  }

  lemma PairsPush(acked: seq<Acked>, id: string, st: Option<ProducerState>, a: Acked, closed: bool)
    requires PairsIncrease(acked, id) && From(a, id) && CheckProducer(st, a.op.producer.value, closed) == Accept
    requires forall i :: 0 <= i < |acked| && From(acked[i], id) ==> Covers(st, acked[i].op.producer.value)
    ensures PairsIncrease(acked + [a], id)
  {
    AcceptedExactly(st, a.op.producer.value, closed);
  }

  lemma OrderlyKeepsPairs(s: State, st: Step, id: string)
    requires PairsRecorded(s, id) && MetaInv(s) && Enabled(s, st) && Orderly(s, st)
    requires st.Check? ==> Fresh(s.entry, id, st.op.now)
    ensures PairsRecorded(Perform(s, st), id)
  {
    if st.Apply? {
      var s', op := Perform(s, st), s.phase.op;
      var a := s'.acked[|s.acked|];
      if From(a, id) {
        PairsPush(s.acked, id, Lookup(s.entry.producers, id), a, s.entry.closed);
        AcceptedExactly(Lookup(s.entry.producers, id), op.producer.value, s.entry.closed);
      }
    }
  }

  lemma {:induction false} OrderlyRunKeeps(env: Env, steps: seq<Step>, id: string)
    requires Run(env, steps).Some? && OrderlyRun(env, steps) && NeverStale(env, steps, id)
    ensures LogExact(Run(env, steps).value) && PairsRecorded(Run(env, steps).value, id)
  {
    if steps == [] {
      assert Parse([]) == [] && Encode([]) == [];
    } else {
      var init, st := steps[..|steps| - 1], steps[|steps| - 1];
      OrderlyPrefix(env, steps);
      FreshPrefix(env, steps, id);
      OrderlyRunKeeps(env, init, id);
      RunKeepsInv(env, init);
      OrderlyKeepsLog(Run(env, init).value, st);
      OrderlyKeepsPairs(Run(env, init).value, st, id);
    }
  }

  /**
    Exactly once across crashes: when no write, sync or metadata write fails and every crash falls outside
    the time between a write and its metadata and finds the newest metadata, the log is at every point
    the acknowledged batches one after another, with at most the one in flight behind them, and the pairs
    acknowledged from a producer strictly increase, so that none is stored twice.
   */
  lemma AtMostOnce(env: Env, steps: seq<Step>, id: string)
    requires Run(env, steps).Some? && OrderlyRun(env, steps) && NeverStale(env, steps, id)
    ensures var s := Run(env, steps).value;
            Parse(s.file) == AllBatches(s.acked) + InFlight(s.phase) && PairsIncrease(s.acked, id)
  {
    OrderlyRunKeeps(env, steps, id);
  }
}
