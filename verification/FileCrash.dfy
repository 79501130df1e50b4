/**
  One stream of the file backend with synced appends, step by step, with writes, syncs and metadata
  writes that may fail and crashes between any two steps: what survives, and how retries are answered.
 */
module FileCrash {
  import opened Types
  import opened Validation
  import opened FileLog

  /** The stream's configuration and the byte limits. */
  datatype Env = Env(config: StreamConfig, limits: Limits)

  /** The fields of `meta.json` the append path reads and writes. */
  datatype Meta = Meta(closed: bool, lastSeq: Option<string>, producers: Producers)

  /** An append with or without producer headers. */
  datatype Op = Op(
    producer: Option<ProducerHeaders>, streamSeq: Option<string>, batch: seq<Bytes>, contentType: string,
    close: bool, now: int)

  /** Where a call holding the stream lock stands; `start` and `clean` are as for an acknowledged append. */
  datatype Phase =
    | Idle
    | Checked(op: Op)
    | Written(op: Op, start: nat, clean: bool)
    | Synced(op: Op, start: nat, clean: bool)
    | Applied(op: Op)

  /**
    An append the server went on to acknowledge. `start` is where its batch lies in the log, `clean`
    says that the log held whole records only when it was written. `life` counts the restarts before
    it, `stamp` the metadata versions written in that life before it.
   */
  datatype Acked = Acked(op: Op, start: nat, clean: bool, life: nat, stamp: nat)

  /**
    `synced` bytes of `file` are known to be on disk. `versions` are the metadata files written
    since the last restart, the one then found first: a crash may leave any of them. `bytes` are the
    payload bytes counted for the stream.
   */
  datatype State = State(
    env: Env, file: seq<byte>, synced: nat, bytes: nat, entry: Meta, versions: seq<Meta>, phase: Phase,
    acked: seq<Acked>, life: nat)

  datatype Step =
    | Check(op: Op)
    /** The limits are applied, with `others` bytes counted for other streams, and the batch is written. */
    | Write(others: nat)
    /** The write fails once `n` bytes have reached the file. */
    | WriteFails(n: nat, others: nat)
    | Sync
    | SyncFails
    | Apply
    | PersistMeta
    | MetaFails
    | Close
    /** A close whose metadata cannot be written. */
    | CloseFails
    /** The machine stops with `kept` bytes of log and metadata version `version`, and the server restarts. */
    | Crash(kept: nat, version: nat)

  function Evicted(m: Meta, now: int): Meta {
    m.(producers := Live(m.producers, now))
  }

  predicate TypeFits(config: StreamConfig, op: Op) {
    (op.producer.Some? && op.batch == []) || EqIgnoreAsciiCase(op.contentType, config.contentType)
  }

  /** Whether the checks between expiry and the limits let the append through. */
  predicate Passes(env: Env, m: Meta, op: Op) {
    && TypeFits(env.config, op)
    && (if op.producer.Some?
        then CheckProducer(Lookup(m.producers, op.producer.value.id), op.producer.value, m.closed) == Accept
        else op.batch != [] && !m.closed)
    && ValidateSeq(m.lastSeq, op.streamSeq).SeqOk?
  }

  /** The batch fits the record format and both limits. */
  predicate HasRoom(limits: Limits, bytes: nat, others: nat, batch: seq<Bytes>) {
    && AllShort(batch)
    && others + bytes + SumLen(batch) <= limits.maxTotal && bytes + SumLen(batch) <= limits.maxStream
  }

  /** Plain appends without a Stream-Seq leave the metadata file alone. */
  predicate WritesMeta(op: Op) {
    op.producer.Some? || op.streamSeq.Some?
  }

  function Accepted(m: Meta, op: Op): Meta {
    Meta(m.closed || (op.producer.Some? && op.close),
         CommitSeq(m.lastSeq, op.streamSeq),
         if op.producer.Some?
         then m.producers[op.producer.value.id := 
                ProducerState(op.producer.value.epoch, op.producer.value.seqNo, op.now)]
         else m.producers)
  }

  predicate Enabled(s: State, st: Step) {
    match st
    case Check(op) => s.phase.Idle?
    case Write(_) => s.phase.Checked?
    case WriteFails(n, others) =>
      && s.phase.Checked? && s.phase.op.batch != [] && HasRoom(s.env.limits, s.bytes, others, s.phase.op.batch)
      && n <= |Encode(s.phase.op.batch)|
    case Sync => s.phase.Written?
    case SyncFails => s.phase.Written? && s.phase.op.batch != []
    case Apply => s.phase.Synced?
    case PersistMeta => s.phase.Applied?
    case MetaFails => s.phase.Applied? && WritesMeta(s.phase.op)
    case Close => s.phase.Idle?
    case CloseFails => s.phase.Idle?
    case Crash(kept, version) => s.synced <= kept <= |s.file| && version < |s.versions|
  }

  /** The entry an append is checked against. */
  function Seen(m: Meta, op: Op): Meta {
    if op.producer.Some? then Evicted(m, op.now) else m
  }

  function Checking(s: State, op: Op): State {
    if Expired(s.env.config, op.now) then s
    else s.(entry := Seen(s.entry, op), phase := if Passes(s.env, Seen(s.entry, op), op) then Checked(op) else Idle)
  }

  function Writing(s: State, others: nat): State
    requires s.phase.Checked?
  {
    var op := s.phase.op;
    if op.batch == [] then s.(phase := Written(op, 0, true))
    else if !HasRoom(s.env.limits, s.bytes, others, op.batch) then s.(phase := Idle)
    else s.(file := s.file + Encode(op.batch), phase := Written(op, |Parse(s.file)|, Whole(s.file)))
  }

  function Perform(s: State, st: Step): State
    requires Enabled(s, st)
  {
    match st
    case Check(op) => Checking(s, op)
    case Write(others) => Writing(s, others)
    case WriteFails(n, _) => s.(file := s.file + Encode(s.phase.op.batch)[..n], phase := Idle)
    case Sync =>
      s.(synced := if s.phase.op.batch == [] then s.synced else |s.file|,
         phase := Synced(s.phase.op, s.phase.start, s.phase.clean))
    case SyncFails => s.(phase := Idle)
    case Apply =>
      s.(entry := Accepted(s.entry, s.phase.op), phase := Applied(s.phase.op),
         bytes := s.bytes + SumLen(s.phase.op.batch),
         acked := s.acked + [Acked(s.phase.op, s.phase.start, s.phase.clean, s.life, |s.versions|)])
    case PersistMeta =>
      s.(versions := if WritesMeta(s.phase.op) then s.versions + [s.entry] else s.versions, phase := Idle)
    case MetaFails => s.(phase := Idle)
    case Close =>
      var m := s.entry.(closed := true);
      s.(entry := m, versions := s.versions + [m])
    case CloseFails => s.(entry := s.entry.(closed := true))
    case Crash(kept, version) =>
      var ms := Parse(s.file[..kept]);
      State(s.env, Encode(ms), |Encode(ms)|, SumLen(ms), s.versions[version], [s.versions[version]], Idle,
            s.acked, s.life + 1)
  }

  /** A stream just created, its metadata written. */
  function Initial(env: Env): State {
    State(env, [], 0, 0, Meta(false, None, map[]), [Meta(false, None, map[])], Idle, [], 0)
  }

  function Run(env: Env, steps: seq<Step>): Option<State> {
    if steps == [] then Some(Initial(env))
    else
      var before := Run(env, steps[..|steps| - 1]);
      if before.Some? && Enabled(before.value, steps[|steps| - 1])
      then Some(Perform(before.value, steps[|steps| - 1]))
      else None
  }

  // ------------------------------------------------------------ the log

  /** The batch lies in the log `ms` from `start` on. */
  ghost predicate Sits(ms: seq<Bytes>, start: nat, batch: seq<Bytes>) {
    start + |batch| <= |ms| && ms[start..start + |batch|] == batch
  }

  ghost predicate Stored(ms: seq<Bytes>, a: Acked) {
    Sits(ms, a.start, a.op.batch)
  }

  /** Every acknowledged batch that was written behind whole records is in `ms` where it was put. */
  ghost predicate CleanStored(ms: seq<Bytes>, acked: seq<Acked>) {
    forall i :: 0 <= i < |acked| && acked[i].clean ==> Stored(ms, acked[i])
  }

  function Durable(s: State): seq<Bytes>
    requires s.synced <= |s.file|
  {
    Parse(s.file[..s.synced])
  }

  ghost predicate LogInv(s: State) {
    && s.synced <= |s.file| && CleanStored(Durable(s), s.acked)
    && (forall i :: 0 <= i < |s.acked| ==> AllShort(s.acked[i].op.batch))
    && (s.phase.Written? || s.phase.Synced? ==> AllShort(s.phase.op.batch))
    && (s.phase.Written? && s.phase.clean && s.phase.op.batch != [] ==>
          Whole(s.file) && |Parse(s.file)| == s.phase.start + |s.phase.op.batch|)
    && ((s.phase.Written? || s.phase.Synced?) && s.phase.op.batch == [] ==> s.phase.start == 0)
    && ((s.phase.Written? || s.phase.Synced?) && s.phase.clean ==> Sits(Parse(s.file), s.phase.start, s.phase.op.batch))
    && (s.phase.Synced? && s.phase.op.batch != [] ==> s.synced == |s.file|)
  }

  /** The log as a crash that keeps `k` bytes of file would have it recovered. */
  function RecoveredAt(s: State, k: nat): seq<Bytes>
    requires k <= |s.file|
  {
    Parse(s.file[..k])
  }

  lemma SitsGrows(ms: seq<Bytes>, ms': seq<Bytes>, start: nat, batch: seq<Bytes>)
    requires Begins(ms, ms') && Sits(ms, start, batch)
    ensures Sits(ms', start, batch)
  {
    var a, b := start, start + |batch|;
    assert ms'[..|ms|][a..b] == ms'[a..b];
  }

  lemma StoredGrows(ms: seq<Bytes>, ms': seq<Bytes>, acked: seq<Acked>)
    requires Begins(ms, ms') && CleanStored(ms, acked)
    ensures CleanStored(ms', acked)
  {
    forall i | 0 <= i < |acked| && acked[i].clean ensures Stored(ms', acked[i]) {
      assert Stored(ms, acked[i]);
      SitsGrows(ms, ms', acked[i].start, acked[i].op.batch);
    }
  }

  /** Nothing durable is lost, whatever the crash leaves beyond it. */
  lemma DurableKept(s: State, k: nat)
    requires s.synced <= k <= |s.file| && CleanStored(Durable(s), s.acked)
    ensures CleanStored(RecoveredAt(s, k), s.acked)
  {
    PrefixKept(s.file, s.synced, k);
    StoredGrows(Durable(s), RecoveredAt(s, k), s.acked);
  }

  lemma CrashKeepsLog(s: State, kept: nat, version: nat)
    requires LogInv(s) && Enabled(s, Crash(kept, version))
    ensures LogInv(Perform(s, Crash(kept, version)))
  {
    var s' := Perform(s, Crash(kept, version));
    RecoveryIdempotent(s.file[..kept]);
    assert s'.file[..s'.synced] == s'.file;
    DurableKept(s, kept);
  }

  lemma MoreBytes(file: seq<byte>, more: seq<byte>, n: nat)
    requires n <= |file|
    ensures (file + more)[..n] == file[..n]
  {}

  lemma WriteKeepsLog(s: State, others: nat)
    requires LogInv(s) && s.phase.Checked?
    ensures LogInv(Writing(s, others))
  {
    var ms, batch := Parse(s.file), s.phase.op.batch;
    if batch != [] && HasRoom(s.env.limits, s.bytes, others, batch) {
      MoreBytes(s.file, Encode(batch), s.synced);
      if Whole(s.file) { WrittenSits(s.file, batch); }
    } else {
      assert ms[0..0] == [];
    }
  }

  lemma WrittenSits(file: seq<byte>, batch: seq<Bytes>)
    requires Whole(file) && AllShort(batch)
    ensures var ms := Parse(file + Encode(batch));
            Whole(file + Encode(batch)) && |ms| == |Parse(file)| + |batch| && Sits(ms, |Parse(file)|, batch)
  {
    WrittenBatch(file, batch);
    SitsAtEnd(Parse(file), batch);
  }

  lemma SitsAtEnd(ms: seq<Bytes>, batch: seq<Bytes>)
    ensures Sits(ms + batch, |ms|, batch)
  {}

  lemma WriteFailsKeepsLog(s: State, st: Step)
    requires LogInv(s) && st.WriteFails? && Enabled(s, st)
    ensures LogInv(Perform(s, st))
  {
    MoreBytes(s.file, Encode(s.phase.op.batch)[..st.n], s.synced);
  }

  lemma SyncKeepsLog(s: State)
    requires LogInv(s) && Enabled(s, Sync)
    ensures LogInv(Perform(s, Sync))
  {
    assert s.file[..|s.file|] == s.file;
    DurableKept(s, |s.file|);
  }

  lemma ApplyKeepsLog(s: State)
    requires LogInv(s) && Enabled(s, Apply)
    ensures LogInv(Perform(s, Apply))
  {
    var a := Acked(s.phase.op, s.phase.start, s.phase.clean, s.life, |s.versions|);
    assert s.file[..|s.file|] == s.file;
    if a.op.batch == [] { assert Durable(s)[0..0] == []; }
    CleanPush(Durable(s), s.acked, a);
  }

  lemma CleanPush(ms: seq<Bytes>, acked: seq<Acked>, a: Acked)
    requires CleanStored(ms, acked) && (a.clean ==> Stored(ms, a))
    ensures CleanStored(ms, acked + [a])
  {}

  lemma StepKeepsLog(s: State, st: Step)
    requires LogInv(s) && Enabled(s, st)
    ensures LogInv(Perform(s, st))
  {
    match st
    case Write(others) => WriteKeepsLog(s, others);
    case WriteFails(_, _) => WriteFailsKeepsLog(s, st);
    case Sync => SyncKeepsLog(s);
    case Apply => ApplyKeepsLog(s);
    case Crash(kept, version) => CrashKeepsLog(s, kept, version);
    case _ =>
  }

  // ------------------------------------------------------------ the metadata

  predicate IsRequest(a: Acked, id: string, epoch: nat, seqNo: nat) {
    a.op.producer == Some(ProducerHeaders(id, epoch, seqNo))
  }

  ghost predicate HasRequest(acked: seq<Acked>, id: string, epoch: nat, seqNo: nat) {
    exists i :: 0 <= i < |acked| && IsRequest(acked[i], id, epoch, seqNo)
  }

  ghost predicate HasSeq(acked: seq<Acked>, v: string) {
    exists i :: 0 <= i < |acked| && acked[i].op.streamSeq == Some(v)
  }

  /** Every sequence number of the epoch up to the last was acknowledged. */
  ghost predicate EpochBacked(acked: seq<Acked>, id: string, st: ProducerState) {
    forall n :: 0 <= n <= st.lastSeq ==> HasRequest(acked, id, st.epoch, n)
  }

  /** Everything the metadata records stems from acknowledged appends. */
  ghost predicate Backed(m: Meta, acked: seq<Acked>) {
    && (forall id :: id in m.producers ==> EpochBacked(acked, id, m.producers[id]))
    && (m.lastSeq.Some? ==> HasSeq(acked, m.lastSeq.value))
  }

  ghost predicate MetaInv(s: State) {
    && |s.versions| > 0
    && Backed(s.entry, s.acked)
    && (forall v :: 0 <= v < |s.versions| ==> Backed(s.versions[v], s.acked))
    && (forall i :: 0 <= i < |s.acked| ==> TypeFits(s.env.config, s.acked[i].op))
    && (!s.phase.Idle? && !s.phase.Applied? ==> Underway(s, s.phase.op))
  }

  /** The append has passed the checks, and would pass them again at once. */
  predicate Underway(s: State, op: Op) {
    !Expired(s.env.config, op.now) && Passes(s.env, s.entry, op) && Seen(s.entry, op) == s.entry
  }

  lemma HasRequestGrows(acked: seq<Acked>, a: Acked, id: string, epoch: nat, n: nat)
    requires HasRequest(acked, id, epoch, n)
    ensures HasRequest(acked + [a], id, epoch, n)
  {
    var i :| 0 <= i < |acked| && IsRequest(acked[i], id, epoch, n);
    assert (acked + [a])[i] == acked[i];
  }

  lemma EpochGrows(acked: seq<Acked>, a: Acked, id: string, st: ProducerState)
    requires EpochBacked(acked, id, st)
    ensures EpochBacked(acked + [a], id, st)
  {
    forall n | 0 <= n <= st.lastSeq ensures HasRequest(acked + [a], id, st.epoch, n) {
      HasRequestGrows(acked, a, id, st.epoch, n);
    }
  }

  lemma BackedGrows(m: Meta, acked: seq<Acked>, a: Acked)
    requires Backed(m, acked)
    ensures Backed(m, acked + [a])
  {
    forall id | id in m.producers ensures EpochBacked(acked + [a], id, m.producers[id]) {
      EpochGrows(acked, a, id, m.producers[id]);
    }
    if m.lastSeq.Some? {
      var i :| 0 <= i < |acked| && acked[i].op.streamSeq == Some(m.lastSeq.value);
      assert (acked + [a])[i] == acked[i];
    }
  }

  /** An accepted request extends its epoch without a gap. */
  lemma AcceptedBacked(env: Env, m: Meta, acked: seq<Acked>, op: Op, a: Acked)
    requires Backed(m, acked) && Passes(env, m, op) && a.op == op
    ensures Backed(Accepted(m, op), acked + [a])
  {
    var acked' := acked + [a];
    BackedGrows(m, acked, a);
    assert acked'[|acked|] == a;
    if op.producer.Some? {
      var p := op.producer.value;
      var st := ProducerState(p.epoch, p.seqNo, op.now);
      AcceptedExactly(Lookup(m.producers, p.id), p, m.closed);
      forall n | 0 <= n <= st.lastSeq ensures HasRequest(acked', p.id, st.epoch, n) {
        if n == p.seqNo {
          assert IsRequest(acked'[|acked|], p.id, p.epoch, n);
        } else {
          assert EpochBacked(acked', p.id, m.producers[p.id]);
        }
      }
      assert EpochBacked(acked', p.id, st);
    }
  }

  lemma StepKeepsMeta(s: State, st: Step)
    requires MetaInv(s) && Enabled(s, st)
    ensures MetaInv(Perform(s, st))
  {
    var s' := Perform(s, st);
    match st
    case Apply =>
      var a := s'.acked[|s.acked|];
      AcceptedBacked(s.env, s.entry, s.acked, s.phase.op, a);
      forall v | 0 <= v < |s.versions| ensures Backed(s.versions[v], s'.acked) {
        BackedGrows(s.versions[v], s.acked, a);
      }
    case Check(op) => LiveCompose(s.entry.producers, op.now, op.now);
    case _ =>
  }

  lemma {:induction false} RunKeepsInv(env: Env, steps: seq<Step>)
    requires Run(env, steps).Some?
    ensures LogInv(Run(env, steps).value) && MetaInv(Run(env, steps).value) && Run(env, steps).value.env == env
  {
    if steps != [] {
      var before, last := steps[..|steps| - 1], steps[|steps| - 1];
      RunKeepsInv(env, before);
      StepKeepsLog(Run(env, before).value, last);
      StepKeepsMeta(Run(env, before).value, last);
    }
  }

  // --------------------------------------------------------- what survives

  /**
    Whatever a crash leaves, every acknowledged batch that was written behind whole records is in the
    recovered log where it was put.
   */
  lemma AckedSurvives(env: Env, steps: seq<Step>, kept: nat)
    requires Run(env, steps).Some? && Run(env, steps).value.synced <= kept <= |Run(env, steps).value.file|
    ensures CleanStored(RecoveredAt(Run(env, steps).value, kept), Run(env, steps).value.acked)
  {
    RunKeepsInv(env, steps);
    DurableKept(Run(env, steps).value, kept);
  }

  /** The step is not a write that fails in the middle of a record. */
  ghost predicate WholeAt(env: Env, steps: seq<Step>, i: nat)
    requires i < |steps|
  {
    steps[i].WriteFails? && Run(env, steps[..i]).Some? && Enabled(Run(env, steps[..i]).value, steps[i]) ==>
      var batch := Run(env, steps[..i]).value.phase.op.batch;
      steps[i].n == |Encode(batch[..WholeRecords(batch, steps[i].n)])|
  }

  ghost predicate WritesWhole(env: Env, steps: seq<Step>) {
    forall i :: 0 <= i < |steps| ==> WholeAt(env, steps, i)
  }

  ghost predicate AllClean(s: State) {
    && Whole(s.file) && (s.phase.Written? || s.phase.Synced? ==> s.phase.clean)
    && (forall i :: 0 <= i < |s.acked| ==> s.acked[i].clean)
  }

  lemma StepKeepsClean(s: State, st: Step)
    requires AllClean(s) && Enabled(s, st)
    requires st.WriteFails? ==> st.n == |Encode(s.phase.op.batch[..WholeRecords(s.phase.op.batch, st.n)])|
    ensures AllClean(Perform(s, st))
  {
    match st
    case Write(others) =>
      if HasRoom(s.env.limits, s.bytes, others, s.phase.op.batch) { WrittenBatch(s.file, s.phase.op.batch); }
    case WriteFails(n, _) => TornWriteWholeExactly(s.file, s.phase.op.batch, n);
    case Crash(kept, _) => RecoveryIdempotent(s.file[..kept]);
    case _ =>
  }

  lemma WholePrefix(env: Env, steps: seq<Step>)
    requires steps != [] && WritesWhole(env, steps)
    ensures WritesWhole(env, steps[..|steps| - 1]) && WholeAt(env, steps, |steps| - 1)
  {
    var init := steps[..|steps| - 1];
    forall i | 0 <= i < |init| ensures WholeAt(env, init, i) {
      assert init[..i] == steps[..i];
      assert WholeAt(env, steps, i);
    }
  }

  /** In a run whose failed writes, if any, stop between two records, every acknowledged batch is in the log. */
  lemma {:induction false} WholeRunsKeepAll(env: Env, steps: seq<Step>)
    requires Run(env, steps).Some? && WritesWhole(env, steps)
    ensures AllClean(Run(env, steps).value)
  {
    if steps == [] {
      assert Parse([]) == [] && Encode([]) == [];
    } else {
      WholePrefix(env, steps);
      WholeRunsKeepAll(env, steps[..|steps| - 1]);
      StepKeepsClean(Run(env, steps[..|steps| - 1]).value, steps[|steps| - 1]);
    }
  }

  /** The request was acknowledged with its batch in the log. */
  ghost predicate RequestStored(ms: seq<Bytes>, acked: seq<Acked>, id: string, epoch: nat, n: nat) {
    exists i :: 0 <= i < |acked| && IsRequest(acked[i], id, epoch, n) && Stored(ms, acked[i])
  }

  ghost predicate SeqStored(ms: seq<Bytes>, acked: seq<Acked>, v: string) {
    exists i :: 0 <= i < |acked| && acked[i].op.streamSeq == Some(v) && Stored(ms, acked[i])
  }

  /** The request was acknowledged, with its batch in the log unless it was written behind torn bytes. */
  ghost predicate RequestKept(ms: seq<Bytes>, acked: seq<Acked>, id: string, epoch: nat, n: nat) {
    exists i :: 0 <= i < |acked| && IsRequest(acked[i], id, epoch, n) && (acked[i].clean ==> Stored(ms, acked[i]))
  }

  ghost predicate SeqKept(ms: seq<Bytes>, acked: seq<Acked>, v: string) {
    exists i :: 0 <= i < |acked| && acked[i].op.streamSeq == Some(v) && (acked[i].clean ==> Stored(ms, acked[i]))
  }

  lemma KeptIsStored(ms: seq<Bytes>, acked: seq<Acked>, id: string, epoch: nat, n: nat)
    requires forall i :: 0 <= i < |acked| ==> acked[i].clean
    ensures RequestKept(ms, acked, id, epoch, n) ==> RequestStored(ms, acked, id, epoch, n)
    ensures forall v :: SeqKept(ms, acked, v) ==> SeqStored(ms, acked, v)
  {}

  /**
    At every point of every run, whatever log and metadata version a crash there leaves: each producer
    pair up to the recorded one, and the recorded Stream-Seq, were acknowledged, and their batches are in
    the recovered log unless they were written behind torn bytes. When failed writes stop between two
    records they are in the log without exception.
   */
  lemma MetadataNeverAhead(env: Env, steps: seq<Step>, kept: nat, version: nat, id: string, n: nat)
    requires Run(env, steps).Some? && Enabled(Run(env, steps).value, Crash(kept, version))
    ensures var s := Run(env, steps).value;
            var ms, m := RecoveredAt(s, kept), s.versions[version];
            && (id in m.producers && n <= m.producers[id].lastSeq ==>
                  && RequestKept(ms, s.acked, id, m.producers[id].epoch, n)
                  && (WritesWhole(env, steps) ==> RequestStored(ms, s.acked, id, m.producers[id].epoch, n)))
            && (m.lastSeq.Some? ==>
                  && SeqKept(ms, s.acked, m.lastSeq.value)
                  && (WritesWhole(env, steps) ==> SeqStored(ms, s.acked, m.lastSeq.value)))
  {
    var s := Run(env, steps).value;
    var ms, m := RecoveredAt(s, kept), s.versions[version];
    RunKeepsInv(env, steps);
    AckedSurvives(env, steps, kept);
    if id in m.producers && n <= m.producers[id].lastSeq {
      assert EpochBacked(s.acked, id, m.producers[id]);
      assert HasRequest(s.acked, id, m.producers[id].epoch, n);
    }
    if WritesWhole(env, steps) {
      WholeRunsKeepAll(env, steps);
      KeptIsStored(ms, s.acked, id, if id in m.producers then m.producers[id].epoch else 0, n);
    }
  }

  /**
    A request answered as a duplicate, also after crashes, was acknowledged, and its batch is in the log
    whatever crash comes next unless it was written behind torn bytes; without exception when failed
    writes stop between two records.
   */
  lemma DuplicateIsStored(env: Env, steps: seq<Step>, p: ProducerHeaders, now: int, kept: nat)
    requires Run(env, steps).Some? && Run(env, steps).value.synced <= kept <= |Run(env, steps).value.file|
    requires var m := Evicted(Run(env, steps).value.entry, now);
             CheckProducer(Lookup(m.producers, p.id), p, m.closed).Repeat?
    ensures var s := Run(env, steps).value;
            && RequestKept(RecoveredAt(s, kept), s.acked, p.id, p.epoch, p.seqNo)
            && (WritesWhole(env, steps) ==> RequestStored(RecoveredAt(s, kept), s.acked, p.id, p.epoch, p.seqNo))
  {
    var s := Run(env, steps).value;
    RunKeepsInv(env, steps);
    AckedSurvives(env, steps, kept);
    assert EpochBacked(s.acked, p.id, s.entry.producers[p.id]);
    assert HasRequest(s.acked, p.id, p.epoch, p.seqNo);
    if WritesWhole(env, steps) {
      WholeRunsKeepAll(env, steps);
      KeptIsStored(RecoveredAt(s, kept), s.acked, p.id, p.epoch, p.seqNo);
    }
  }

  // ---------------------------------------------------- calls run to the end

  lemma RunMore(env: Env, steps: seq<Step>, st: Step)
    requires Run(env, steps).Some? && Enabled(Run(env, steps).value, st)
    ensures Run(env, steps + [st]) == Some(Perform(Run(env, steps).value, st))
  {
    assert (steps + [st])[..|steps|] == steps;
  }

  /** The stream takes the append, with `others` bytes counted elsewhere. */
  predicate Takes(s: State, op: Op, others: nat) {
    && !Expired(s.env.config, op.now) && Passes(s.env, Seen(s.entry, op), op)
    && (op.batch == [] || HasRoom(s.env.limits, s.bytes, others, op.batch))
  }

  /** The steps of a call in which nothing fails, up to its acknowledgement. */
  function Acking(env: Env, steps: seq<Step>, op: Op, others: nat): seq<Step> {
    var checked := steps + [Check(op)];
    if !(Run(env, checked).Some? && Run(env, checked).value.phase.Checked?) then checked
    else
      var written := checked + [Write(others)];
      if !(Run(env, written).Some? && Run(env, written).value.phase.Written?) then written
      else written + [Sync] + [Apply]
  }

  /** The same to its end. */
  function Calling(env: Env, steps: seq<Step>, op: Op, others: nat): seq<Step> {
    var acking := Acking(env, steps, op, others);
    if Run(env, acking).Some? && Run(env, acking).value.phase.Applied? then acking + [PersistMeta] else acking
  }

  /** What an acknowledged append leaves behind. */
  ghost predicate TookIn(s: State, op: Op, s': State) {
    && s'.acked == s.acked + [Acked(op, if op.batch == [] then 0 else |Parse(s.file)|, op.batch == [] || Whole(s.file),
                                    s.life, |s.versions|)]
    && AllShort(op.batch) && s'.file == s.file + Encode(op.batch) && (op.batch != [] ==> s'.synced == |s'.file|)
    && s'.entry == Accepted(Seen(s.entry, op), op) && s'.env == s.env
  }

  /** From any idle state, a call in which nothing fails is acknowledged exactly when the stream takes it. */
  lemma AckingExactly(env: Env, steps: seq<Step>, op: Op, others: nat)
    requires Run(env, steps).Some? && Run(env, steps).value.phase.Idle?
    ensures var s, s' := Run(env, steps).value, Run(env, Acking(env, steps, op, others));
            && s'.Some?
            && s'.value.versions == s.versions
            && (if Takes(s, op, others) then s'.value.phase == Applied(op) && TookIn(s, op, s'.value)
                else s'.value.phase.Idle? && s'.value.acked == s.acked && s'.value.file == s.file)
  {
    RunMore(env, steps, Check(op));
    var checked := steps + [Check(op)];
    if Run(env, checked).value.phase.Checked? {
      RunMore(env, checked, Write(others));
      var written := checked + [Write(others)];
      if Run(env, written).value.phase.Written? {
        RunMore(env, written, Sync);
        RunMore(env, written + [Sync], Apply);
        EmptyWrites(Run(env, steps).value, op);
      }
    }
  }

  lemma EmptyWrites(s: State, op: Op)
    ensures op.batch == [] ==> AllShort(op.batch) && s.file + Encode(op.batch) == s.file
  {}

  lemma CallingExactly(env: Env, steps: seq<Step>, op: Op, others: nat)
    requires Run(env, steps).Some? && Run(env, steps).value.phase.Idle?
    ensures var s, s' := Run(env, steps).value, Run(env, Calling(env, steps, op, others));
            && s'.Some? && s'.value.phase.Idle?
            && (if Takes(s, op, others)
                then
                  && TookIn(s, op, s'.value)
                  && s'.value.versions == (if WritesMeta(op) then s.versions + [s'.value.entry] else s.versions)
                else s'.value.acked == s.acked && s'.value.file == s.file && s'.value.versions == s.versions)
  {
    AckingExactly(env, steps, op, others);
    var acking := Acking(env, steps, op, others);
    if Run(env, acking).value.phase.Applied? { RunMore(env, acking, PersistMeta); }
  }

  // ------------------------------------------- appends behind failed writes

  function With(op: Op, m: Bytes): Op {
    op.(batch := [m])
  }

  /** Called next, the append is acknowledged and its batch is in the log that any crash leaves. */
  ghost predicate CalledForGood(env: Env, steps: seq<Step>, op: Op, others: nat) {
    var s' := Run(env, Calling(env, steps, op, others));
    && s'.Some? && s'.value.synced == |s'.value.file| && |s'.value.acked| > 0
    && s'.value.acked[|s'.value.acked| - 1].op == op
    && Stored(Parse(s'.value.file), s'.value.acked[|s'.value.acked| - 1])
  }

  /** An idle state that lets an append with these headers through to the limits. */
  predicate Ready(s: State, op: Op) {
    s.phase.Idle? && !Expired(s.env.config, op.now) && Passes(s.env, Seen(s.entry, op), With(op, ZERO))
  }

  lemma ReadyTakes(s: State, op: Op, m: Bytes, others: nat)
    requires Ready(s, op)
    ensures Takes(s, With(op, m), others) <==> HasRoom(s.env.limits, s.bytes, others, [m])
  {}

  /**
    In every reachable state that lets an append through, with or without producer headers and Stream-Seq,
    after any failed writes and crashes: every non-empty message that is called next and fits the limits
    survives exactly when the log holds whole records only or not even a message of one byte fits; in a
    log of whole records empty messages survive too.
   */
  lemma NextAppendSurvivesExactly(env: Env, steps: seq<Step>, op: Op, others: nat)
    requires Run(env, steps).Some? && Ready(Run(env, steps).value, op)
    ensures var s := Run(env, steps).value;
            (forall m :: m != [] && HasRoom(s.env.limits, s.bytes, others, [m]) ==>
               CalledForGood(env, steps, With(op, m), others))
            <==> Whole(s.file) || !HasRoom(s.env.limits, s.bytes, others, [ZERO])
    ensures var s := Run(env, steps).value;
            Whole(s.file) ==>
              forall m :: HasRoom(s.env.limits, s.bytes, others, [m]) ==> CalledForGood(env, steps, With(op, m), others)
  {
    var s := Run(env, steps).value;
    if Whole(s.file) {
      forall m | HasRoom(s.env.limits, s.bytes, others, [m])
        ensures CalledForGood(env, steps, With(op, m), others)
      {
        WholeKeepsNext(env, steps, op, m, others);
      }
    } else if HasRoom(s.env.limits, s.bytes, others, [ZERO]) {
      TornLosesNext(env, steps, op, others);
    } else {
      forall m | m != [] ensures !HasRoom(s.env.limits, s.bytes, others, [m]) {
        SumLenOne(m);
        SumLenOne(ZERO);
        assert Short(ZERO);
      }
    }
  }

  lemma WholeKeepsNext(env: Env, steps: seq<Step>, op: Op, m: Bytes, others: nat)
    requires Run(env, steps).Some? && Ready(Run(env, steps).value, op) && Whole(Run(env, steps).value.file)
    requires HasRoom(Run(env, steps).value.env.limits, Run(env, steps).value.bytes, others, [m])
    ensures CalledForGood(env, steps, With(op, m), others)
  {
    var s := Run(env, steps).value;
    ReadyTakes(s, op, m, others);
    CallingExactly(env, steps, With(op, m), others);
    WrittenSits(s.file, [m]);
  }

  /** Behind torn bytes, a message of one zero byte is acknowledged and recorded, and not in the log. */
  lemma TornLosesNext(env: Env, steps: seq<Step>, op: Op, others: nat)
    requires Run(env, steps).Some? && Ready(Run(env, steps).value, op) && !Whole(Run(env, steps).value.file)
    requires HasRoom(Run(env, steps).value.env.limits, Run(env, steps).value.bytes, others, [ZERO])
    ensures !CalledForGood(env, steps, With(op, ZERO), others)
    ensures var s, s' := Run(env, steps).value, Run(env, Calling(env, steps, With(op, ZERO), others));
            && s'.Some? && Lost(s, op, s'.value)
  {
    var s := Run(env, steps).value;
    var torn := TornRest(s.file);
    ReadyTakes(s, op, ZERO, others);
    CallingExactly(env, steps, With(op, ZERO), others);
    LostAfter(s.file, torn);
    NotThere(Parse(s.file + Encode([ZERO])), |Parse(s.file)|, ZERO);
  }

  /** The append was acknowledged and its headers are in the newest metadata, but any crash loses its message. */
  ghost predicate Lost(s: State, op: Op, s': State) {
    && s'.phase.Idle? && s'.synced == |s'.file| && |s'.acked| == |s.acked| + 1
    && s'.acked[|s.acked|].op == With(op, ZERO) && !Stored(Parse(s'.file), s'.acked[|s.acked|])
    && s'.entry == Accepted(Seen(s.entry, op), With(op, ZERO))
    && (WritesMeta(op) ==> s'.versions == s.versions + [s'.entry])
  }

  lemma NotThere(ms: seq<Bytes>, i: nat, m: Bytes)
    requires i <= |ms| && (i == |ms| || ms[i] != m)
    ensures !Sits(ms, i, [m])
  {
    if i < |ms| { assert ms[i..i + 1] == [ms[i]]; }
  }

  /**
    A producer append behind torn bytes: it is acknowledged, the newest metadata records its pair, and from
    then on the pair is answered as a duplicate, although no crash leaves its batch where it was put.
   */
  lemma DuplicateOfLost(env: Env, steps: seq<Step>, op: Op, others: nat, now: int)
    requires Run(env, steps).Some? && Ready(Run(env, steps).value, op) && !Whole(Run(env, steps).value.file)
    requires HasRoom(Run(env, steps).value.env.limits, Run(env, steps).value.bytes, others, [ZERO])
    requires op.producer.Some? && now < op.now + PRODUCER_STATE_TTL
    ensures var s, s' := Run(env, steps).value, Run(env, Calling(env, steps, With(op, ZERO), others));
            && s'.Some? && Lost(s, op, s'.value)
            && var p, m := op.producer.value, Evicted(s'.value.versions[|s.versions|], now);
               CheckProducer(Lookup(m.producers, p.id), p, m.closed).Repeat?
  {
    TornLosesNext(env, steps, op, others);
  }

  const ROOMY := Env(StreamConfig("text/plain", None, None, false), Limits(1, 1))

  /** One byte of the first record reaches the file. */
  lemma OneByteRuns(op: Op) returns (steps: seq<Step>)
    requires op == Op(None, None, [ZERO], "text/plain", false, 0)
    ensures Run(ROOMY, steps).Some?
    ensures var s := Run(ROOMY, steps).value;
            && s.phase.Idle? && s.entry == Meta(false, None, map[]) && s.acked == [] && !Whole(s.file) && s.bytes == 0
            && s.env == ROOMY && |s.versions| == 1
  {
    EncodeOne(ZERO);
    SumLenOne(ZERO);
    assert Short(ZERO);
    RunMore(ROOMY, [], Check(op));
    RunMore(ROOMY, [] + [Check(op)], WriteFails(1, 0));
    steps := [] + [Check(op)] + [WriteFails(1, 0)];
    var s := Run(ROOMY, steps).value;
    assert |s.file| == 1;
    assert Parse(s.file) == [] && Encode([]) == [];
  }

  /**
    A run from the start: a write stops in the middle of a record, then a producer append is acknowledged,
    recorded and not recovered, and its retry is answered as a duplicate.
   */
  lemma TornWriteLosesAcked() returns (steps: seq<Step>, p: ProducerHeaders)
    ensures Run(ROOMY, steps).Some?
    ensures var s := Run(ROOMY, steps).value;
            && |s.acked| == 1 && s.acked[0].op.producer == Some(p) && s.synced == |s.file| && |s.versions| == 2
            && !Stored(Parse(s.file), s.acked[0])
            && var m := Evicted(s.versions[1], 0); CheckProducer(Lookup(m.producers, p.id), p, m.closed).Repeat?
  {
    p := ProducerHeaders("p", 0, 0);
    var op := Op(Some(p), None, [ZERO], "text/plain", false, 0);
    steps := OneByteRuns(op.(producer := None));
    var s := Run(ROOMY, steps).value;
    SumLenOne(ZERO);
    assert Short(ZERO) && Live(map[], 0) == map[];
    DuplicateOfLost(ROOMY, steps, op, 0, 0);
    steps := Calling(ROOMY, steps, With(op, ZERO), 0);
  }

  // --------------------------------------------------- batches cut in two

  /** How many messages of a batch written at `base` lie in the first `kept` bytes of the file. */
  function Survivors(batch: seq<Bytes>, base: nat, kept: nat): nat
    requires AllShort(batch)
  {
    if kept < base then 0 else WholeRecords(batch, kept - base)
  }

  predicate AllOrNone(batch: seq<Bytes>, base: nat, kept: nat)
    requires AllShort(batch)
  {
    Survivors(batch, base, kept) == 0 || Survivors(batch, base, kept) == |batch|
  }

  /** The file ends before the first record of the batch does, or behind the last. */
  predicate EndsOutside(batch: seq<Bytes>, base: nat, kept: nat)
    requires AllShort(batch) && batch != []
  {
    kept < base + HEADER + |batch[0]| || kept == base + |Encode(batch)|
  }

  lemma AllOrNoneExactly(batch: seq<Bytes>, base: nat, kept: nat)
    requires AllShort(batch) && batch != [] && kept <= base + |Encode(batch)|
    ensures AllOrNone(batch, base, kept) <==> EndsOutside(batch, base, kept)
  {
    if kept >= base { CutEnds(batch, kept - base); }
  }

  lemma CutEnds(batch: seq<Bytes>, n: nat)
    requires AllShort(batch) && batch != [] && n <= |Encode(batch)|
    ensures var j := WholeRecords(batch, n);
            (j == 0 <==> n < HEADER + |batch[0]|) && (j == |batch| <==> n == |Encode(batch)|)
  {
    var j := WholeRecords(batch, n);
    TornPrefix(batch, n);
    EncodeOne(batch[0]);
    assert batch[..1] == [batch[0]] && batch[..|batch|] == batch;
    if j > 0 {
      EncodeAppend(batch[..1], batch[1..j]);
      assert batch[..j] == batch[..1] + batch[1..j];
    }
  }

  /**
    What is left of `start` messages and a batch written behind them at `base`, when the file ends after
    `kept` bytes.
   */
  ghost predicate CutTo(cut: seq<byte>, base: nat, start: nat, batch: seq<Bytes>, kept: nat)
    requires AllShort(batch)
  {
    if kept < base then |Parse(cut)| <= start else |Parse(cut)| == start + Survivors(batch, base, kept)
  }

  ghost predicate CutExactly(file: seq<byte>, start: nat, batch: seq<Bytes>, kept: nat)
    requires batch != [] && kept <= |file|
  {
    && AllShort(batch) && |Encode(batch)| <= |file|
    && var base := |file| - |Encode(batch)|;
       && CutTo(file[..kept], base, start, batch, kept)
       && (AllOrNone(batch, base, kept) <==> EndsOutside(batch, base, kept))
  }

  /**
    A crash before the sync, in every run: of a batch written behind whole records, recovery serves the
    messages whose records lie wholly in what is left of the file. That is all of them or none exactly when
    the file then ends before the first record of the batch does, or behind the last.
   */
  lemma UnsyncedBatchExactly(env: Env, steps: seq<Step>, kept: nat)
    requires Run(env, steps).Some? && Run(env, steps).value.phase.Written? && Run(env, steps).value.phase.clean
    requires Run(env, steps).value.phase.op.batch != []
    requires Run(env, steps).value.synced <= kept <= |Run(env, steps).value.file|
    ensures var s := Run(env, steps).value; CutExactly(s.file, s.phase.start, s.phase.op.batch, kept)
  {
    RunKeepsInv(env, steps);
    var s := Run(env, steps).value;
    CutLog(s.file, s.phase.start, s.phase.op.batch, kept);
  }

  lemma CutLog(file: seq<byte>, start: nat, batch: seq<Bytes>, kept: nat)
    requires Whole(file) && AllShort(batch) && |Parse(file)| == start + |batch| && Sits(Parse(file), start, batch)
    requires batch != [] && kept <= |file|
    ensures CutExactly(file, start, batch, kept)
  {
    SplitLog(file, start, batch);
    CutJoined(Parse(file)[..start], batch, kept);
    AllOrNoneExactly(batch, |file| - |Encode(batch)|, kept);
  }

  lemma CutJoined(head: seq<Bytes>, batch: seq<Bytes>, kept: nat)
    requires AllShort(head) && AllShort(batch) && kept <= |Encode(head) + Encode(batch)|
    ensures CutTo((Encode(head) + Encode(batch))[..kept], |Encode(head)|, |head|, batch, kept)
  {
    if kept < |Encode(head)| {
      CutBefore(head, kept);
      CutLeft(Encode(head), Encode(batch), kept, Parse(Encode(head)[..kept]));
    } else {
      var n := kept - |Encode(head)|;
      CutBehind(head, batch, n);
      CutRight(Encode(head), Encode(batch), kept, head + batch[..WholeRecords(batch, n)]);
    }
  }

  lemma CutLeft(a: seq<byte>, b: seq<byte>, kept: nat, ms: seq<Bytes>)
    requires kept <= |a| && Parse(a[..kept]) == ms
    ensures Parse((a + b)[..kept]) == ms
  {
    TakeLeft(a, b, kept);
  }

  lemma CutRight(a: seq<byte>, b: seq<byte>, kept: nat, ms: seq<Bytes>)
    requires |a| <= kept <= |a + b| && Parse(a + b[..kept - |a|]) == ms
    ensures Parse((a + b)[..kept]) == ms
  {
    TakeBoth(a, b, kept);
  }

  /** A whole log that ends with the batch is what came before it and the batch. */
  lemma SplitLog(file: seq<byte>, start: nat, batch: seq<Bytes>)
    requires Whole(file) && AllShort(batch) && |Parse(file)| == start + |batch| && Sits(Parse(file), start, batch)
    ensures AllShort(Parse(file)[..start]) && file == Encode(Parse(file)[..start]) + Encode(batch)
  {
    var ms := Parse(file);
    assert ms == ms[..start] + batch;
    EncodeAppend(ms[..start], batch);
  }

  lemma CutBefore(head: seq<Bytes>, kept: nat)
    requires AllShort(head) && kept < |Encode(head)|
    ensures |Parse(Encode(head)[..kept])| <= |head|
  {
    TornPrefix(head, kept);
  }

  lemma CutBehind(head: seq<Bytes>, batch: seq<Bytes>, n: nat)
    requires AllShort(head) && AllShort(batch) && n <= |Encode(batch)|
    ensures Parse(Encode(head) + Encode(batch)[..n]) == head + batch[..WholeRecords(batch, n)]
  {
    TornPrefix(batch, n);
    ParseEncoded(head, Encode(batch)[..n]);
  }

  lemma TakeBoth(a: seq<byte>, b: seq<byte>, k: nat)
    requires |a| <= k <= |a| + |b|
    ensures (a + b)[..k] == a + b[..k - |a|]
  {}

  /**
    A write that fails after `n` bytes: a restart serves the messages whose records it completed, all of the
    batch or nothing of it exactly when it stopped within the first record or behind the last.
   */
  lemma FailedWriteExactly(env: Env, steps: seq<Step>, n: nat, others: nat)
    requires Run(env, steps).Some? && Enabled(Run(env, steps).value, WriteFails(n, others))
    requires Whole(Run(env, steps).value.file)
    ensures var s, s' := Run(env, steps).value, Run(env, steps + [WriteFails(n, others)]);
            var batch := s.phase.op.batch;
            && s'.Some? && Parse(s'.value.file) == Parse(s.file) + batch[..WholeRecords(batch, n)]
            && (AllOrNone(batch, 0, n) <==> EndsOutside(batch, 0, n))
  {
    var s := Run(env, steps).value;
    RunMore(env, steps, WriteFails(n, others));
    CutBehind(Parse(s.file), s.phase.op.batch, n);
    AllOrNoneExactly(s.phase.op.batch, 0, n);
  }
}
