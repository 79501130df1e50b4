/**
  The file backend step by step is the file backend call by call: an append that nothing interrupts takes
  the stream from one state of the abstract log to the next (src/storage/file.rs).
 */
module FileSteps {
  import opened Types
  import opened Validation
  import opened FileLog
  import L = LogSpec
  import C = FileCrash

  /** The stream as the abstract log has it. */
  function View(s: C.State): L.StreamLog {
    L.StreamLog(s.env.config, Parse(s.file), s.entry.closed, s.entry.lastSeq, s.entry.producers)
  }

  function CallOf(name: string, op: C.Op): Call {
    if op.producer.Some?
    then ProducerAppend(name, op.batch, op.contentType, op.producer.value, op.close, op.streamSeq)
    else BatchAppend(name, op.batch, op.contentType, op.streamSeq)
  }

  /** The call from its checks to its answer, without a failure in between. */
  function Through(s: C.State, op: C.Op, others: nat): C.State
    requires s.phase.Idle?
  {
    var checked := C.Perform(s, C.Check(op));
    if !checked.phase.Checked? then checked else FromWrite(checked, others)
  }

  function FromWrite(s: C.State, others: nat): C.State
    requires s.phase.Checked?
  {
    var written := C.Perform(s, C.Write(others));
    if !written.phase.Written? then written
    else C.Perform(C.Perform(C.Perform(written, C.Sync), C.Apply), C.PersistMeta)
  }

  /** The stream stands alone in a store with `others` bytes beside it, its log whole and counted. */
  ghost predicate Shows(s: C.State, store: L.Store, name: string, others: nat) {
    && s.phase.Idle? && Whole(s.file) && s.bytes == SumLen(Parse(s.file))
    && name in store && store[name] == View(s) && L.Total(store) == others + s.bytes
  }

  predicate Taken(r: Reply) {
    r.Appended? || r.Accepted?
  }

  /** The append passes the checks of the abstract log that come before the limits. */
  predicate Clear(log: L.StreamLog, op: C.Op) {
    if op.producer.Some? then
      L.ProducerStop(log.config, log.closed, log.lastSeq, Live(log.producers, op.now), NextOffset(log.messages),
                     op.batch, op.contentType, op.producer.value, op.streamSeq, op.now).None?
    else
      && op.batch != []
      && L.AppendRefusal(log.config, log.closed, log.lastSeq, op.contentType, op.streamSeq, op.now).None?
  }

  lemma CheckIsClear(s: C.State, op: C.Op)
    requires s.phase.Idle?
    ensures var checked := C.Perform(s, C.Check(op));
            && (checked.phase.Checked? <==> Clear(View(s), op))
            && (checked.phase.Checked? ==> checked.phase.op == op)
            && View(checked) == (if op.producer.Some? then L.Evicted(true, View(s), op.now) else View(s))
            && checked == s.(entry := checked.entry, phase := checked.phase)
            && (!checked.phase.Checked? ==> checked.phase.Idle?)
  {}

  /** The batch fits the record format and both limits. */
  ghost predicate Fits(limits: Limits, store: L.Store, log: L.StreamLog, batch: seq<Bytes>) {
    && !L.HasLongRecord(batch) && L.Total(store) + SumLen(batch) <= limits.maxTotal
    && SumLen(log.messages) + SumLen(batch) <= limits.maxStream
  }

  lemma RoomIsFits(s: C.State, store: L.Store, name: string, others: nat, batch: seq<Bytes>)
    requires Shows(s, store, name, others)
    ensures C.HasRoom(s.env.limits, s.bytes, others, batch) <==> Fits(s.env.limits, store, View(s), batch)
  {
    assert AllShort(batch) <==> !L.HasLongRecord(batch);
  }

  /** The log after the append. */
  function Grown(log: L.StreamLog, op: C.Op): L.StreamLog {
    var live := if op.producer.Some? then Live(log.producers, op.now) else log.producers;
    log.(messages := log.messages + op.batch,
         closed := log.closed || (op.producer.Some? && op.close),
         lastSeq := if op.streamSeq.Some? then op.streamSeq else log.lastSeq,
         producers := if op.producer.Some?
                      then live[op.producer.value.id :=
                             ProducerState(op.producer.value.epoch, op.producer.value.seqNo, op.now)]
                      else live)
  }

  /** The call takes the append exactly when it is clear and fits, and grows the log by it. */
  ghost predicate GrowsBy(limits: Limits, store: L.Store, name: string, op: C.Op, out: L.Outcome)
    requires name in store
  {
    var takes := Clear(store[name], op) && (op.batch == [] || Fits(limits, store, store[name], op.batch));
    && (Taken(out.reply) <==> takes) && name in out.store
    && out.store[name] == if takes then Grown(store[name], op)
                          else if op.producer.Some? then L.Evicted(true, store[name], op.now)
                          else store[name]
  }

  lemma BatchGrows(limits: Limits, store: L.Store, name: string, op: C.Op)
    requires name in store && op.producer.None?
    ensures GrowsBy(limits, store, name, op, L.Apply(L.File, limits, store, CallOf(name, op), op.now))
  {}

  lemma ProducerGrows(limits: Limits, store: L.Store, name: string, op: C.Op)
    requires name in store && op.producer.Some?
    ensures GrowsBy(limits, store, name, op, L.Apply(L.File, limits, store, CallOf(name, op), op.now))
  {
    assert op.batch == [] ==> store[name].messages + op.batch == store[name].messages;
  }

  /** What is recorded of an acknowledged append. */
  function Entry(s: C.State, op: C.Op): C.Acked {
    C.Acked(op, if op.batch == [] then 0 else |Parse(s.file)|, true, s.life, |s.versions|)
  }

  lemma WriteGrows(s: C.State, others: nat)
    requires s.phase.Checked? && Whole(s.file) && s.bytes == SumLen(Parse(s.file))
    ensures var s', op := FromWrite(s, others), s.phase.op;
            var takes := op.batch == [] || C.HasRoom(s.env.limits, s.bytes, others, op.batch);
            && Parse(s'.file) == (if takes then Parse(s.file) + op.batch else Parse(s.file))
            && s'.entry == (if takes then C.Accepted(s.entry, op) else s.entry) && s'.env == s.env
            && s'.phase.Idle? && Whole(s'.file) && s'.bytes == SumLen(Parse(s'.file))
            && s'.acked == (if takes then s.acked + [Entry(s, op)] else s.acked)
  {
    var op := s.phase.op;
    SumLenAppend(Parse(s.file), op.batch);
    if AllShort(op.batch) { WrittenBatch(s.file, op.batch); }
    assert op.batch == [] ==> Parse(s.file) + op.batch == Parse(s.file);
  }

  /** And so do the steps. */
  lemma StepsGrow(s: C.State, op: C.Op, others: nat)
    requires s.phase.Idle? && Whole(s.file) && s.bytes == SumLen(Parse(s.file))
    ensures var s' := Through(s, op, others);
            var takes := Clear(View(s), op) && (op.batch == [] || C.HasRoom(s.env.limits, s.bytes, others, op.batch));
            && View(s') == (if takes then Grown(View(s), op)
                            else if op.producer.Some? then L.Evicted(true, View(s), op.now) else View(s))
            && s'.phase.Idle? && Whole(s'.file) && s'.bytes == SumLen(Parse(s'.file))
            && s'.acked == (if takes then s.acked + [Entry(s, op)] else s.acked)
  {
    CheckIsClear(s, op);
    var checked := C.Perform(s, C.Check(op));
    if checked.phase.Checked? { WriteGrows(checked, others); }
  }

  /**
    Whatever the request: the steps leave the stream as the call does, and the append is recorded as
    acknowledged exactly when the call succeeds.
   */
  lemma ThroughIsApply(s: C.State, op: C.Op, others: nat, store: L.Store, name: string)
    requires Shows(s, store, name, others)
    ensures var s', out := Through(s, op, others), L.Apply(L.File, s.env.limits, store, CallOf(name, op), op.now);
            && name in out.store && View(s') == out.store[name]
            && s'.phase.Idle? && Whole(s'.file) && s'.bytes == SumLen(Parse(s'.file))
            && s'.acked == if Taken(out.reply) then s.acked + [Entry(s, op)] else s.acked
  {
    StepsGrow(s, op, others);
    if op.producer.Some? {
      ProducerGrows(s.env.limits, store, name, op);
    } else {
      BatchGrows(s.env.limits, store, name, op);
    }
    RoomIsFits(s, store, name, others, op.batch);
  }

  // ------------------------------------------------------------- closing

  /** A close of an unexpired stream is the abstract one, whether or not its metadata is written. */
  lemma CloseIsApply(s: C.State, store: L.Store, name: string, now: int)
    requires s.phase.Idle? && name in store && store[name] == View(s) && !Expired(s.env.config, now)
    ensures var out := L.Apply(L.File, s.env.limits, store, Close(name), now);
            && out.reply.Done? && View(C.Perform(s, C.Close)) == out.store[name]
            && View(C.Perform(s, C.CloseFails)) == out.store[name]
  {}

  /** Whether the metadata write behind an append fails makes no difference until a restart. */
  lemma MetaFailureHidden(s: C.State)
    requires s.phase.Applied? && (s.phase.op.producer.Some? || s.phase.op.streamSeq.Some?)
    ensures C.Enabled(s, C.MetaFails) && C.Enabled(s, C.PersistMeta)
    ensures var failed, kept := C.Perform(s, C.MetaFails), C.Perform(s, C.PersistMeta);
            && kept == failed.(versions := kept.versions) && kept.phase.Idle? && View(kept) == View(s)
            && kept.acked == s.acked && failed.versions == s.versions
  {}

  // ------------------------------------------------- what the metadata says

  /** The newest metadata file has the closed flag, the Stream-Seq and every producer of the entry. */
  ghost predicate Current(s: C.State) {
    && |s.versions| > 0
    && var m := s.versions[|s.versions| - 1];
       && m.closed == s.entry.closed && m.lastSeq == s.entry.lastSeq
       && forall id :: id in s.entry.producers ==> id in m.producers && m.producers[id] == s.entry.producers[id]
  }

  /** Current, or about to be. */
  ghost predicate Recorded(s: C.State) {
    (s.phase.Applied? && C.WritesMeta(s.phase.op) && |s.versions| > 0) || Current(s)
  }

  /** A version is written by a close and behind an append with a producer or a Stream-Seq, and is the entry then. */
  lemma VersionsGrow(s: C.State, st: C.Step)
    requires C.Enabled(s, st) && !st.Crash?
    ensures var s' := C.Perform(s, st);
            var writes := st.Close? || (st.PersistMeta? && (s.phase.op.producer.Some? || s.phase.op.streamSeq.Some?));
            s'.versions == s.versions + if writes then [s'.entry] else []
  {}

  predicate MetaWritten(st: C.Step) {
    !st.MetaFails? && !st.CloseFails?
  }

  lemma StepKeepsRecorded(s: C.State, st: C.Step)
    requires Recorded(s) && C.Enabled(s, st) && MetaWritten(st)
    ensures Recorded(C.Perform(s, st))
  {}

  /**
    In a run whose metadata writes succeed, the metadata on disk is current between any two calls, so that a
    crash there that finds it forgets no close, no Stream-Seq and no producer.
   */
  lemma {:induction false} MetadataCurrent(env: C.Env, steps: seq<C.Step>)
    requires C.Run(env, steps).Some? && forall i :: 0 <= i < |steps| ==> MetaWritten(steps[i])
    ensures Recorded(C.Run(env, steps).value)
    ensures C.Run(env, steps).value.phase.Idle? ==> Current(C.Run(env, steps).value)
  {
    if steps != [] {
      MetadataCurrent(env, steps[..|steps| - 1]);
      StepKeepsRecorded(C.Run(env, steps[..|steps| - 1]).value, steps[|steps| - 1]);
    }
  }

  /** A close whose metadata write fails holds until the restart: then the stream is open again. */
  lemma FailedCloseReopens(env: C.Env, steps: seq<C.Step>, kept: nat)
    requires C.Run(env, steps).Some? && forall i :: 0 <= i < |steps| ==> MetaWritten(steps[i])
    requires var s := C.Run(env, steps).value; s.phase.Idle? && !s.entry.closed && s.synced <= kept <= |s.file|
    ensures var s := C.Run(env, steps).value;
            Reopens(s, kept)
  {
    MetadataCurrent(env, steps);
    StillOpen(C.Run(env, steps).value, kept);
  }

  /** Closed for everyone until a crash that finds the newest metadata, and open after it. */
  predicate Reopens(s: C.State, kept: nat)
    requires s.phase.Idle?
  {
    && |s.versions| > 0
    && var failed, crash := C.Perform(s, C.CloseFails), C.Crash(kept, |s.versions| - 1);
       View(failed).closed && C.Enabled(failed, crash) && !View(C.Perform(failed, crash)).closed
  }

  lemma StillOpen(s: C.State, kept: nat)
    requires s.phase.Idle? && Current(s) && !s.entry.closed && s.synced <= kept <= |s.file|
    ensures Reopens(s, kept)
  {}
}
