/**
  The ACID backend under concurrent callers: the byte counter lives outside the
  transactions, so calls reserve, run their transaction and give bytes back in separate
  steps, interleaved with one another and with crashes.
 */
module AcidMachine {
  import opened Types
  import opened Validation
  import opened Sums
  import opened LogSpec
  import opened Effects
  import opened Runs
  import opened Limiting
  import opened AcidTables
  import opened AcidShards

  datatype Params = Params(hash: string -> nat, limits: Limits)

  /** A caller between two steps; `bytes` is what it holds of the counter beyond committed data. */
  datatype Caller =
    /** Reserved, transaction not yet run. */
    | Reserved(call: Call, bytes: nat)
    /** Create-with-data inside its write transaction, past the reservation made there. */
    | Inside(call: Call, now: int, bytes: nat)
    /** A rollback after a failure, or the release of a removed stream, still to be done. */
    | Owes(bytes: nat)

  /** Callers not listed are between calls. `events` is the order in which calls took effect. */
  datatype State = State(shards: Shards, counter: nat, callers: map<string, Caller>, events: seq<Event>)

  datatype Step =
    | Reserve(who: string, call: Call, now: int)
    | Transact(who: string, now: int)
    /** The transaction fails with a storage error and is rolled back by the database. */
    | Fail(who: string)
    | GiveBack(who: string)
    /** Create, close and delete reserve nothing. */
    | Write(who: string, call: Call, now: int)
    | OpenCreate(who: string, call: Call, now: int)
    | CommitCreate(who: string)
    /** All callers are gone; expired streams are purged and the counter is rebuilt from disk. */
    | Crash(now: int)

  function HomeOf(p: Params, s: State, name: string): nat
    requires |s.shards| > 0
  {
    Home(p.hash, |s.shards|, name)
  }

  /** No other write transaction is open on the shard. */
  predicate Unlocked(p: Params, s: State, shard: nat)
    requires |s.shards| > 0
  {
    forall w :: w in s.callers && s.callers[w].Inside? ==> HomeOf(p, s, s.callers[w].call.name) != shard
  }

  /** The calls that reserve before their transaction. */
  predicate ReservesFirst(c: Call) {
    c.Append? || c.ProducerAppend? || (c.BatchAppend? && c.messages != [])
  }

  predicate Enabled(p: Params, s: State, st: Step)
    requires |s.shards| > 0
  {
    match st
    case Reserve(w, c, _) => w !in s.callers && ReservesFirst(c)
    case Transact(w, _) =>
      w in s.callers && s.callers[w].Reserved? && Unlocked(p, s, HomeOf(p, s, s.callers[w].call.name))
    case Fail(w) => w in s.callers && !s.callers[w].Owes?
    case GiveBack(w) => w in s.callers && s.callers[w].Owes?
    case Write(w, c, _) =>
      w !in s.callers && (c.Create? || c.Close? || c.Delete?) && Unlocked(p, s, HomeOf(p, s, c.name))
    case OpenCreate(w, c, _) => w !in s.callers && c.CreateWithData? && Unlocked(p, s, HomeOf(p, s, c.name))
    case CommitCreate(w) => w in s.callers && s.callers[w].Inside?
    case Crash(_) => true
  }

  function SetOwes(callers: map<string, Caller>, w: string, bytes: nat): map<string, Caller> {
    if bytes > 0 then callers[w := Owes(bytes)] else callers - {w}
  }

  /** The transaction of `c` run in its home shard. */
  function RunTxn(p: Params, s: State, c: Call, now: int): TxnResult
    requires |s.shards| > 0 && !c.Read?
  {
    TableTxn(p.limits.maxStream, s.shards[HomeOf(p, s, c.name)], c, now, true)
  }

  /** The shards with that transaction committed. */
  function Commits(p: Params, s: State, c: Call, now: int): Shards
    requires |s.shards| > 0 && !c.Read?
  {
    s.shards[HomeOf(p, s, c.name) := RunTxn(p, s, c, now).tables]
  }

  function PurgeAll(shards: Shards, now: int): Shards {
    seq(|shards|, i requires 0 <= i < |shards| => Purge(shards[i], now))
  }

  ghost function Perform(p: Params, s: State, st: Step): State
    requires |s.shards| > 0 && Enabled(p, s, st) && WellFormed(s)
  {
    match st
    case Reserve(w, c, now) =>
      var bytes := SumLen(BatchOf(c));
      if bytes == 0 || s.counter + bytes <= p.limits.maxTotal
      then s.(callers := s.callers[w := Reserved(c, bytes)], counter := s.counter + bytes)
      else s.(events := s.events + [CapRefused(c, now)])
    case Transact(w, now) =>
      var c, bytes := s.callers[w].call, s.callers[w].bytes;
      var r := RunTxn(p, s, c, now).reply;
      s.(shards := Commits(p, s, c, now), events := s.events + [Commit(c, now)],
         callers := if r.Appended? || r.Accepted? then s.callers - {w} else SetOwes(s.callers, w, bytes))
    case Fail(w) => s.(callers := SetOwes(s.callers, w, s.callers[w].bytes))
    case GiveBack(w) =>
      s.(counter := SaturatingSub(s.counter, s.callers[w].bytes), callers := s.callers - {w})
    case Write(w, c, now) =>
      s.(shards := Commits(p, s, c, now), events := s.events + [Commit(c, now)],
         callers := SetOwes(s.callers, w, RunTxn(p, s, c, now).released))
    case OpenCreate(w, c, now) =>
      var bytes := SumLen(c.messages);
      if Taken(s.shards[HomeOf(p, s, c.name)], c.name, now)
      then s.(events := s.events + [Commit(Effective(Acid, c), now)])
      else if bytes > 0 && s.counter + bytes > p.limits.maxTotal then s.(events := s.events + [CapRefused(c, now)])
      else s.(callers := s.callers[w := Inside(c, now, bytes)], counter := s.counter + bytes)
    case CommitCreate(w) =>
      var c, now := s.callers[w].call, s.callers[w].now;
      var r := RunTxn(p, s, c, now);
      s.(shards := Commits(p, s, c, now), events := s.events + [Commit(Effective(Acid, c), now)],
         callers := SetOwes(s.callers, w, if r.reply.CreatedWith? then r.released else s.callers[w].bytes))
    case Crash(now) =>
      var shards := PurgeAll(s.shards, now);
      State(shards, Recount(shards, |shards|), map[], s.events + [Restart(now)])
  }

  /** Callers hold calls of the kind their phase is for. */
  predicate WellFormed(s: State) {
    forall w :: w in s.callers ==> HoldsCall(s.callers[w])
  }

  predicate HoldsCall(k: Caller) {
    match k
    case Reserved(c, bytes) => ReservesFirst(c) && bytes == SumLen(BatchOf(c))
    case Inside(c, _, bytes) => c.CreateWithData? && bytes == SumLen(c.messages)
    case Owes(_) => true
  }

  function Initial(count: nat): State {
    State(seq(count, i => Tables(map[], map[])), 0, map[], [])
  }

  // --------------------------------------------------------- byte balance

  function Holdings(callers: map<string, Caller>): map<string, nat> {
    map w | w in callers :: callers[w].bytes
  }

  /** Reservations in flight and removed bytes not yet released. */
  ghost function Pending(callers: map<string, Caller>): nat {
    MapSum(Holdings(callers))
  }

  lemma PendingSplit(callers: map<string, Caller>, w: string)
    ensures Pending(callers) == Pending(callers - {w}) + (if w in callers then callers[w].bytes else 0)
  {
    MapSumUpdate(Holdings(callers), w, 0);
    assert Holdings(callers - {w}) == Holdings(callers) - {w};
  }

  lemma PendingPut(callers: map<string, Caller>, w: string, k: Caller)
    ensures Pending(callers[w := k]) == Pending(callers - {w}) + k.bytes
  {
    PendingSplit(callers[w := k], w);
    assert callers[w := k] - {w} == callers - {w};
  }

  lemma PendingOwes(callers: map<string, Caller>, w: string, bytes: nat)
    ensures Pending(SetOwes(callers, w, bytes)) == Pending(callers - {w}) + bytes
  {
    PendingPut(callers, w, Owes(bytes));
  }

  /** The bytes a transaction with this reply adds. */
  function Added(c: Call, r: Reply): nat {
    if r.Appended? || r.Accepted? || (r.CreatedWith? && r.isNew) then SumLen(BatchOf(c)) else 0
  }

  /** The bytes of the stream it removes. */
  function Freed(s: Store, c: Call, r: Reply): nat {
    if (Creates(r) || (c.Delete? && r.Done?)) && c.name in s then SumLen(s[c.name].messages) else 0
  }

  /** Bytes after, plus bytes freed, are bytes before plus bytes added. */
  ghost predicate Balances(s: Store, c: Call, out: Outcome) {
    Total(out.store) + Freed(s, c, out.reply) == Total(s) + Added(c, out.reply)
  }

  lemma AppendReplies(maxStream: nat, s: Store, c: Call, now: int)
    requires IsAppend(c)
    ensures var r := Txn(false, maxStream, s, c, now).reply; r.Appended? || r.Accepted? || r.Duplicate? || r.Failed?
  {}

  lemma AppendBalances(s: Store, c: Call, now: int, out: Outcome)
    requires IsAppend(c)
    requires if out.reply.Appended? || out.reply.Accepted? then AddsBatch(s, c, out.store)
             else (out.reply.Duplicate? || out.reply.Failed?) && SameUpToStale(s, out.store, now)
    ensures Balances(s, c, out)
  {
    if out.reply.Appended? || out.reply.Accepted? {
      AddsBatchTotal(s, c, out.store);
    } else {
      SameUpToStaleTotal(s, out.store, now);
    }
  }

  lemma CreateBalances(maxStream: nat, s: Store, c: Call, now: int)
    requires c.Create? || c.CreateWithData?
    ensures Balances(s, c, Txn(false, maxStream, s, c, now))
  {
    var log := EmptyLog(c.config).(messages := BatchOf(c), closed := c.CreateWithData? && c.close);
    var out := Txn(false, maxStream, s, c, now);
    assert if Creates(out.reply) then out.store == s[c.name := log] else out.store == s;
    TotalUpdate(s, c.name, log);
  }

  lemma DeleteBalances(maxStream: nat, s: Store, c: Call, now: int)
    requires c.Delete?
    ensures Balances(s, c, Txn(false, maxStream, s, c, now))
  {
    if c.name in s { TotalUpdate(s, c.name, s[c.name]); }
  }

  lemma CloseBalances(maxStream: nat, s: Store, c: Call, now: int)
    requires c.Close?
    ensures Balances(s, c, Txn(false, maxStream, s, c, now))
  {
    if c.name in s { SameBytes(s, c.name, s[c.name].(closed := true)); }
  }

  /** Every transaction balances. */
  lemma TxnBalances(maxStream: nat, s: Store, c: Call, now: int)
    ensures Balances(s, c, Txn(false, maxStream, s, c, now))
  {
    match c
    case Create(_, _) => CreateBalances(maxStream, s, c, now);
    case CreateWithData(_, _, _, _) => CreateBalances(maxStream, s, c, now);
    case Close(_) => CloseBalances(maxStream, s, c, now);
    case Delete(_) => DeleteBalances(maxStream, s, c, now);
    case Read(_, _) =>
    case _ =>
      var out := Txn(false, maxStream, s, c, now);
      AppendReplies(maxStream, s, c, now);
      if out.reply.Appended? || out.reply.Accepted? {
        TxnAddsBatch(false, maxStream, s, c, now);
      } else {
        FailedTxn(false, maxStream, s, c, now);
      }
      AppendBalances(s, c, now, out);
  }

  /** The bytes a table transaction asks to release are those of the stream it removed. */
  lemma ReleasedIsFreed(maxStream: nat, t: Tables, s: Store, c: Call, now: int)
    requires ShowsAt(c.name, t, s) && !c.Read?
    ensures var r := TableTxn(maxStream, t, c, now, true); r.released == Freed(s, c, r.reply)
  {}

  // ------------------------------------------------------------- invariant

  predicate SameLock(p: Params, s: State, v: string, w: string)
    requires |s.shards| > 0
  {
    && v in s.callers && w in s.callers && s.callers[v].Inside? && s.callers[w].Inside?
    && HomeOf(p, s, s.callers[v].call.name) == HomeOf(p, s, s.callers[w].call.name)
  }

  /** An open create still finds its name free, and no shard has two write transactions open. */
  ghost predicate LocksHeld(p: Params, s: State, store: Store)
    requires |s.shards| > 0
  {
    && (forall w :: w in s.callers && s.callers[w].Inside? ==>
        !Occupied(store, s.callers[w].call.name, s.callers[w].now))
    && (forall v, w :: SameLock(p, s, v, w) ==> v == w)
  }

  /** The counter is exactly what is committed, reserved or not yet released. */
  ghost predicate Conserved(s: State, store: Store) {
    s.counter == Total(store) + Pending(s.callers)
  }

  ghost predicate Inv(p: Params, s: State, store: Store) {
    && |s.shards| > 0 && WellFormed(s) && LocksHeld(p, s, store)
    && Spread(p.hash, s.shards, store)
    && Conserved(s, store) && s.counter <= p.limits.maxTotal
  }

  /** Two states agree on locks when the second has no new open create. */
  ghost predicate NoNewLocks(p: Params, s: State, callers: map<string, Caller>, shard: nat)
    requires |s.shards| > 0
  {
    forall w :: w in callers && callers[w].Inside? ==>
      w in s.callers && s.callers[w] == callers[w] && HomeOf(p, s, callers[w].call.name) != shard
  }

  lemma LocksKept(p: Params, s: State, s': State, store: Store, c: Call, now: int)
    requires |s.shards| == |s'.shards| > 0 && LocksHeld(p, s, store)
    requires NoNewLocks(p, s, s'.callers, HomeOf(p, s, c.name))
    ensures LocksHeld(p, s', Txn(false, p.limits.maxStream, store, c, now).store)
  {
    var store' := Txn(false, p.limits.maxStream, store, c, now).store;
    forall w | w in s'.callers && s'.callers[w].Inside?
      ensures !Occupied(store', s'.callers[w].call.name, s'.callers[w].now)
    {
      TxnFrame(false, p.limits.maxStream, s'.callers[w].call.name, store, c, now);
      assert Get(store', s'.callers[w].call.name) == Get(store, s'.callers[w].call.name);
    }
    forall v, w | SameLock(p, s', v, w) ensures v == w {
      assert SameLock(p, s, v, w);
    }
  }

  /** A committed transaction keeps the invariant when its caller settles for what it added and freed. */
  lemma CommitKeeps(p: Params, s: State, store: Store, c: Call, now: int, s': State)
    requires Inv(p, s, store) && !c.Read?
    requires s'.shards == Commits(p, s, c, now) && s'.counter == s.counter && WellFormed(s')
    requires NoNewLocks(p, s, s'.callers, HomeOf(p, s, c.name))
    requires var r := RunTxn(p, s, c, now).reply;
             Pending(s'.callers) + Added(c, r) == Pending(s.callers) + Freed(store, c, r)
    ensures Inv(p, s', Txn(false, p.limits.maxStream, store, Effective(Acid, c), now).store)
  {
    var c' := Effective(Acid, c);
    ShardedTxnRefines(p.limits.maxStream, p.hash, s.shards, store, c, now, true);
    TxnBalances(p.limits.maxStream, store, c', now);
    LocksKept(p, s, s', store, c', now);
    SameAdded(c, RunTxn(p, s, c, now).reply);
  }

  lemma SameAdded(c: Call, r: Reply)
    ensures Added(Effective(Acid, c), r) == Added(c, r)
  {}

  lemma RefinedReply(p: Params, s: State, store: Store, c: Call, now: int)
    requires Inv(p, s, store) && !c.Read?
    ensures RunTxn(p, s, c, now).reply == Txn(false, p.limits.maxStream, store, Effective(Acid, c), now).reply
    ensures RunTxn(p, s, c, now).released == Freed(store, c, RunTxn(p, s, c, now).reply)
  {
    var home := HomeOf(p, s, c.name);
    var part := ShardOf(p.hash, |s.shards|, store, home);
    ShardedTxnRefines(p.limits.maxStream, p.hash, s.shards, store, c, now, true);
    assert Shows(s.shards[home], part);
    assert ShowsAt(c.name, s.shards[home], part);
    ReleasedIsFreed(p.limits.maxStream, s.shards[home], part, c, now);
  }

  /** What the caller of an append settles for is what its transaction did to the bytes. */
  lemma AppendSettles(callers: map<string, Caller>, w: string, c: Call, r: Reply)
    requires w in callers && callers[w].bytes == SumLen(BatchOf(c))
    requires r.Appended? || r.Accepted? || r.Duplicate? || r.Failed?
    ensures Pending(if r.Appended? || r.Accepted? then callers - {w}
                    else SetOwes(callers, w, callers[w].bytes)) + Added(c, r)
            == Pending(callers)
  {
    PendingSplit(callers, w);
    PendingOwes(callers, w, callers[w].bytes);
  }

  lemma TransactKeeps(p: Params, s: State, store: Store, w: string, now: int)
    requires Inv(p, s, store) && Enabled(p, s, Transact(w, now))
    ensures Inv(p, Perform(p, s, Transact(w, now)), Txn(false, p.limits.maxStream, store, s.callers[w].call, now).store)
  {
    var c := s.callers[w].call;
    assert HoldsCall(s.callers[w]);
    RefinedReply(p, s, store, c, now);
    AppendReplies(p.limits.maxStream, store, c, now);
    AppendSettles(s.callers, w, c, RunTxn(p, s, c, now).reply);
    CommitKeeps(p, s, store, c, now, Perform(p, s, Transact(w, now)));
  }

  lemma WriteKeeps(p: Params, s: State, store: Store, st: Step)
    requires Inv(p, s, store) && st.Write? && Enabled(p, s, st)
    ensures Inv(p, Perform(p, s, st), Txn(false, p.limits.maxStream, store, st.call, st.now).store)
  {
    RefinedReply(p, s, store, st.call, st.now);
    PendingSplit(s.callers, st.who);
    PendingOwes(s.callers, st.who, RunTxn(p, s, st.call, st.now).released);
    CommitKeeps(p, s, store, st.call, st.now, Perform(p, s, st));
  }

  /** What an open create owes afterwards is what its transaction left unsettled. */
  lemma CreateSettles(callers: map<string, Caller>, w: string, c: Call, r: Reply, freed: nat)
    requires w in callers && callers[w].bytes == SumLen(BatchOf(c))
             && ((r.CreatedWith? && r.isNew) || (r.Failed? && freed == 0))
    ensures Pending(SetOwes(callers, w, if r.CreatedWith? then freed else callers[w].bytes)) + Added(c, r) ==
            Pending(callers) + freed
  {
    PendingSplit(callers, w);
    PendingOwes(callers, w, if r.CreatedWith? then freed else callers[w].bytes);
  }

  lemma FreshReplies(maxStream: nat, s: Store, c: Call, now: int)
    requires c.CreateWithData? && !Occupied(s, c.name, now)
    ensures var r := Txn(false, maxStream, s, c, now).reply; (r.CreatedWith? && r.isNew) || r.Failed?
  {}

  lemma CommitCreateKeeps(p: Params, s: State, store: Store, w: string)
    requires Inv(p, s, store) && Enabled(p, s, CommitCreate(w))
    ensures Inv(p, Perform(p, s, CommitCreate(w)),
                Txn(false, p.limits.maxStream, store, Effective(Acid, s.callers[w].call), s.callers[w].now).store)
  {
    var c, now := s.callers[w].call, s.callers[w].now;
    assert HoldsCall(s.callers[w]);
    RefinedReply(p, s, store, c, now);
    FreshReplies(p.limits.maxStream, store, Effective(Acid, c), now);
    var r := RunTxn(p, s, c, now);
    CreateSettles(s.callers, w, c, r.reply, r.released);
    OnlyLock(p, s, store, w, if r.reply.CreatedWith? then r.released else s.callers[w].bytes);
    CommitKeeps(p, s, store, c, now, Perform(p, s, CommitCreate(w)));
  }

  /** Once the open create `w` is done, nobody holds the lock of its shard. */
  lemma OnlyLock(p: Params, s: State, store: Store, w: string, owed: nat)
    requires |s.shards| > 0 && LocksHeld(p, s, store) && w in s.callers && s.callers[w].Inside?
    ensures NoNewLocks(p, s, SetOwes(s.callers, w, owed), HomeOf(p, s, s.callers[w].call.name))
  {
    forall v | v in s.callers && v != w && s.callers[v].Inside?
      ensures HomeOf(p, s, s.callers[v].call.name) != HomeOf(p, s, s.callers[w].call.name)
    {
      assert !SameLock(p, s, v, w);
    }
  }

  /** A step that touches no table keeps the invariant when counter and holdings move together. */
  lemma CountKeeps(p: Params, s: State, store: Store, s': State)
    requires Inv(p, s, store) && s'.shards == s.shards && WellFormed(s') && LocksHeld(p, s', store)
    requires s'.counter + Pending(s.callers) == s.counter + Pending(s'.callers) && s'.counter <= p.limits.maxTotal
    ensures Inv(p, s', store)
  {}

  lemma FewerLocks(p: Params, s: State, store: Store, s': State)
    requires |s.shards| == |s'.shards| > 0 && LocksHeld(p, s, store)
    requires forall w :: w in s'.callers && s'.callers[w].Inside? ==> w in s.callers && s.callers[w] == s'.callers[w]
    ensures LocksHeld(p, s', store)
  {
    forall v, w | SameLock(p, s', v, w) ensures v == w {
      assert SameLock(p, s, v, w);
    }
  }

  lemma ReserveKeeps(p: Params, s: State, store: Store, st: Step)
    requires Inv(p, s, store) && st.Reserve? && Enabled(p, s, st)
    ensures Inv(p, Perform(p, s, st), store)
  {
    var s' := Perform(p, s, st);
    PendingAdd(s.callers, st.who, Reserved(st.call, SumLen(BatchOf(st.call))));
    FewerLocks(p, s, store, s');
    CountKeeps(p, s, store, s');
  }

  lemma FailKeeps(p: Params, s: State, store: Store, w: string)
    requires Inv(p, s, store) && Enabled(p, s, Fail(w))
    ensures Inv(p, Perform(p, s, Fail(w)), store)
  {
    var s' := Perform(p, s, Fail(w));
    PendingSplit(s.callers, w);
    PendingOwes(s.callers, w, s.callers[w].bytes);
    FewerLocks(p, s, store, s');
    CountKeeps(p, s, store, s');
  }

  /** The subtraction never saturates: the counter covers what is given back. */
  lemma GiveBackExact(p: Params, s: State, store: Store, w: string)
    requires Inv(p, s, store) && w in s.callers
    ensures s.callers[w].bytes <= s.counter
  {
    PendingSplit(s.callers, w);
  }

  lemma GiveBackKeeps(p: Params, s: State, store: Store, w: string)
    requires Inv(p, s, store) && Enabled(p, s, GiveBack(w))
    ensures Inv(p, Perform(p, s, GiveBack(w)), store)
  {
    var s' := Perform(p, s, GiveBack(w));
    PendingSplit(s.callers, w);
    FewerLocks(p, s, store, s');
    CountKeeps(p, s, store, s');
  }

  lemma OpenedLocks(p: Params, s: State, store: Store, w: string, c: Call, now: int, bytes: nat)
    requires |s.shards| > 0 && LocksHeld(p, s, store) && c.CreateWithData?
    requires Unlocked(p, s, HomeOf(p, s, c.name)) && !Occupied(store, c.name, now)
    ensures LocksHeld(p, s.(callers := s.callers[w := Inside(c, now, bytes)], counter := s.counter + bytes), store)
  {
    var s' := s.(callers := s.callers[w := Inside(c, now, bytes)], counter := s.counter + bytes);
    forall u, v | SameLock(p, s', u, v) ensures u == v {
      if u != w && v != w { assert SameLock(p, s, u, v); }
    }
  }

  /** Entering the transaction of a create-with-data whose name is free. */
  lemma EnterKeeps(p: Params, s: State, store: Store, w: string, c: Call, now: int)
    requires Inv(p, s, store) && c.CreateWithData? && w !in s.callers && Unlocked(p, s, HomeOf(p, s, c.name))
    requires !Occupied(store, c.name, now) && s.counter + SumLen(c.messages) <= p.limits.maxTotal
    ensures Inv(p, s.(callers := s.callers[w := Inside(c, now, SumLen(c.messages))],
                      counter := s.counter + SumLen(c.messages)), store)
  {
    var k := Inside(c, now, SumLen(c.messages));
    var s' := s.(callers := s.callers[w := k], counter := s.counter + k.bytes);
    PendingAdd(s.callers, w, k);
    OpenedLocks(p, s, store, w, c, now, k.bytes);
    FormedPut(s, s', w, k);
    CountKeeps(p, s, store, s');
  }

  lemma PendingAdd(callers: map<string, Caller>, w: string, k: Caller)
    requires w !in callers
    ensures Pending(callers[w := k]) == Pending(callers) + k.bytes
  {
    PendingSplit(callers, w);
    PendingPut(callers, w, k);
  }

  lemma FormedPut(s: State, s': State, w: string, k: Caller)
    requires WellFormed(s) && HoldsCall(k) && s'.callers == s.callers[w := k]
    ensures WellFormed(s')
  {}

  lemma EventsOnlyKeeps(p: Params, s: State, store: Store, events: seq<Event>)
    requires Inv(p, s, store)
    ensures Inv(p, s.(events := events), store)
  {
    FewerLocks(p, s, store, s.(events := events));
  }

  lemma OpenCreateKeeps(p: Params, s: State, store: Store, st: Step)
    requires Inv(p, s, store) && st.OpenCreate? && Enabled(p, s, st)
    ensures Inv(p, Perform(p, s, st), store)
    ensures Taken(s.shards[HomeOf(p, s, st.call.name)], st.call.name, st.now) <==> Occupied(store, st.call.name, st.now)
  {
    var s', c := Perform(p, s, st), st.call;
    OwnShardOnly(p.hash, s.shards, store, c.name, HomeOf(p, s, c.name));
    if s'.callers == s.callers {
      EventsOnlyKeeps(p, s, store, s'.events);
    } else {
      EnterKeeps(p, s, store, st.who, c, st.now);
    }
  }

  lemma CrashKeeps(p: Params, s: State, store: Store, now: int)
    requires Inv(p, s, store)
    ensures Inv(p, Perform(p, s, Crash(now)), Unexpired(store, now))
  {
    var s' := Perform(p, s, Crash(now));
    var store' := Unexpired(store, now);
    PurgeSpread(p.hash, s.shards, s'.shards, store, now);
    RecountIsTotal(p.hash, s'.shards, store');
    assert Holdings(map[]) == map[];
    MapSumMonotone(ByteSizes(store'), ByteSizes(store));
  }

  // ------------------------------------------------------------- whole runs

  predicate CanStep(p: Params, s: State, st: Step) {
    |s.shards| > 0 && WellFormed(s) && Enabled(p, s, st)
  }

  /** The state after the steps, from an empty database; None if some step is not possible. */
  ghost function Run(p: Params, count: nat, steps: seq<Step>): Option<State> {
    if steps == [] then Some(Initial(count))
    else
      var before := Run(p, count, steps[..|steps| - 1]);
      if before.Some? && CanStep(p, before.value, steps[|steps| - 1])
      then Some(Perform(p, before.value, steps[|steps| - 1]))
      else None
  }

  /** The abstract store the calls that took effect so far lead to. */
  function StoreOf(p: Params, events: seq<Event>): Store {
    After(false, p.limits.maxStream, map[], events)
  }

  lemma StorePush(p: Params, events: seq<Event>, e: Event)
    ensures StoreOf(p, events + [e]) == Next(false, p.limits.maxStream, StoreOf(p, events), e).store
  {
    assert (events + [e])[..|events|] == events;
  }

  /** The event a step adds, if any. */
  function EventOf(p: Params, s: State, st: Step): Option<Event>
    requires CanStep(p, s, st)
  {
    match st
    case Reserve(_, c, now) =>
      if SumLen(BatchOf(c)) > 0 && s.counter + SumLen(BatchOf(c)) > p.limits.maxTotal
      then Some(CapRefused(c, now)) else None
    case Transact(w, now) => Some(Commit(s.callers[w].call, now))
    case Fail(_) => None
    case GiveBack(_) => None
    case Write(_, c, now) => Some(Commit(c, now))
    case OpenCreate(_, c, now) =>
      if Taken(s.shards[HomeOf(p, s, c.name)], c.name, now) then Some(Commit(Effective(Acid, c), now))
      else if SumLen(c.messages) > 0 && s.counter + SumLen(c.messages) > p.limits.maxTotal then Some(CapRefused(c, now))
      else None
    case CommitCreate(w) => Some(Commit(Effective(Acid, s.callers[w].call), s.callers[w].now))
    case Crash(now) => Some(Restart(now))
  }

  lemma EventsGrow(p: Params, s: State, st: Step)
    requires CanStep(p, s, st)
    ensures var e := EventOf(p, s, st); Perform(p, s, st).events == s.events + if e.Some? then [e.value] else []
  {}

  /** The store a step leads to. */
  function StoreNext(p: Params, store: Store, e: Option<Event>): Store {
    if e.Some? then Next(false, p.limits.maxStream, store, e.value).store else store
  }

  lemma OpenCreateStore(p: Params, s: State, store: Store, st: Step)
    requires Inv(p, s, store) && st.OpenCreate? && CanStep(p, s, st)
    ensures StoreNext(p, store, EventOf(p, s, st)) == store
  {
    OpenCreateKeeps(p, s, store, st);
  }

  /** One step keeps the invariant, for the store its event leads to. */
  lemma StepKeeps(p: Params, s: State, store: Store, st: Step)
    requires Inv(p, s, store) && CanStep(p, s, st)
    ensures Inv(p, Perform(p, s, st), StoreNext(p, store, EventOf(p, s, st)))
  {
    match st
    case Reserve(_, _, _) => ReserveKeeps(p, s, store, st);
    case Transact(w, now) => TransactKeeps(p, s, store, w, now);
    case Fail(w) => FailKeeps(p, s, store, w);
    case GiveBack(w) => GiveBackKeeps(p, s, store, w);
    case Write(_, _, _) => WriteKeeps(p, s, store, st);
    case OpenCreate(_, _, _) =>
      OpenCreateKeeps(p, s, store, st);
      OpenCreateStore(p, s, store, st);
    case CommitCreate(w) => CommitCreateKeeps(p, s, store, w);
    case Crash(now) => CrashKeeps(p, s, store, now);
  }

  lemma InitialInv(p: Params, count: nat)
    requires count > 0
    ensures Inv(p, Initial(count), map[])
  {
    var s := Initial(count);
    forall i {:trigger s.shards[i]} | 0 <= i < count ensures Shows(s.shards[i], ShardOf(p.hash, count, map[], i)) {
      forall n ensures ShowsAt(n, s.shards[i], ShardOf(p.hash, count, map[], i)) {}
    }
    assert ByteSizes(map[]) == map[] && Holdings(map[]) == map[];
  }

  lemma ShardCountKept(p: Params, s: State, st: Step)
    requires CanStep(p, s, st)
    ensures |Perform(p, s, st).shards| == |s.shards|
  {}

  /** One step of a run, with the store its events lead to. */
  lemma RunStepKeeps(p: Params, s: State, st: Step)
    requires Inv(p, s, StoreOf(p, s.events)) && CanStep(p, s, st)
    ensures Inv(p, Perform(p, s, st), StoreOf(p, Perform(p, s, st).events))
  {
    var e := EventOf(p, s, st);
    StepKeeps(p, s, StoreOf(p, s.events), st);
    EventsGrow(p, s, st);
    StoreFollows(p, s.events, e);
  }

  lemma StoreFollows(p: Params, events: seq<Event>, e: Option<Event>)
    ensures StoreOf(p, events + if e.Some? then [e.value] else []) == StoreNext(p, StoreOf(p, events), e)
  {
    if e.Some? { StorePush(p, events, e.value); } else { assert events + [] == events; }
  }

  lemma {:induction false} RunKeeps(p: Params, count: nat, steps: seq<Step>)
    requires count > 0 && Run(p, count, steps).Some?
    ensures var s := Run(p, count, steps).value; Inv(p, s, StoreOf(p, s.events)) && |s.shards| == count
  {
    if steps == [] {
      InitialInv(p, count);
    } else {
      var init, st := steps[..|steps| - 1], steps[|steps| - 1];
      RunKeeps(p, count, init);
      RunStepKeeps(p, Run(p, count, init).value, st);
      ShardCountKept(p, Run(p, count, init).value, st);
    }
  }

  /**
    Byte conservation in every reachable state: the counter is the bytes recorded in the
    metadata rows, plus reservations in flight, plus removed bytes not yet released; it never
    exceeds the cap.
   */
  lemma BytesConserved(p: Params, count: nat, steps: seq<Step>)
    requires count > 0 && Run(p, count, steps).Some?
    ensures var s := Run(p, count, steps).value;
            s.counter == Recount(s.shards, |s.shards|) + Pending(s.callers) <= p.limits.maxTotal
  {
    RunKeeps(p, count, steps);
    var s := Run(p, count, steps).value;
    RecountIsTotal(p.hash, s.shards, StoreOf(p, s.events));
  }

  /**
    Every caller can finish: one that holds a reservation can fail, and then or when it owes bytes give them
    back; when nobody is underway the counter is the bytes of the streams.
   */
  lemma CallersCanFinish(p: Params, count: nat, steps: seq<Step>, w: string)
    requires count > 0 && Run(p, count, steps).Some?
    ensures var s := Run(p, count, steps).value;
            && CanFinish(p, s, w)
            && (s.callers == map[] ==> s.counter == Recount(s.shards, |s.shards|) == Total(StoreOf(p, s.events)))
  {
    RunKeeps(p, count, steps);
    var s := Run(p, count, steps).value;
    RecountIsTotal(p.hash, s.shards, StoreOf(p, s.events));
    if s.callers == map[] { assert Holdings(s.callers) == map[]; }
  }

  ghost predicate CanFinish(p: Params, s: State, w: string) {
    w in s.callers ==>
      && (s.callers[w].Owes? ==> CanStep(p, s, GiveBack(w)) && w !in Perform(p, s, GiveBack(w)).callers)
      && (!s.callers[w].Owes? ==>
            && CanStep(p, s, Fail(w))
            && var s' := Perform(p, s, Fail(w));
               if s.callers[w].bytes == 0 then w !in s'.callers else w in s'.callers && s'.callers[w].Owes?)
  }

  /** No subtraction from the counter saturates, and a stream's bytes plus a reserved batch stay within the cap. */
  lemma NoSaturationNoOverflow(p: Params, count: nat, steps: seq<Step>, w: string)
    requires count > 0 && Run(p, count, steps).Some? && w in Run(p, count, steps).value.callers
    ensures var s := Run(p, count, steps).value;
            && s.callers[w].bytes <= s.counter
            && (s.callers[w].Reserved? ==>
                  |s.shards| > 0 &&
                  BytesOf(s.shards[HomeOf(p, s, s.callers[w].call.name)], s.callers[w].call.name) + s.callers[w].bytes
                  <= p.limits.maxTotal)
  {
    RunKeeps(p, count, steps);
    var s := Run(p, count, steps).value;
    var store := StoreOf(p, s.events);
    GiveBackExact(p, s, store, w);
    if s.callers[w].Reserved? {
      var name := s.callers[w].call.name;
      OwnShardOnly(p.hash, s.shards, store, name, HomeOf(p, s, name));
      PendingSplit(s.callers, w);
      if name in store { MapSumAtLeast(ByteSizes(store), name); }
    }
  }

  /**
    The table invariant in every reachable state, crashes included: the rows of a stream are exactly
    its messages under (index, bytes before it), its counters agree with them, and a name without a
    metadata row in a shard has no message rows there; a stream is in its home shard only.
   */
  lemma NoGhostData(p: Params, count: nat, steps: seq<Step>, name: string, i: nat)
    requires count > 0 && Run(p, count, steps).Some? && i < |Run(p, count, steps).value.shards|
    ensures var s := Run(p, count, steps).value;
            var t, ms := s.shards[i], MessagesOf(StoreOf(p, s.events), name);
            && (name in t.streams ==>
                  && i == HomeOf(p, s, name)
                  && Holds(t.rows, name, ms)
                  && t.streams[name].nextReadSeq == |ms|
                  && t.streams[name].totalBytes == t.streams[name].nextByteOffset == SumLen(ms))
            && (name !in t.streams ==> forall k :: k in t.rows ==> k.name != name)
  {
    RunKeeps(p, count, steps);
    var s := Run(p, count, steps).value;
    OwnShardOnly(p.hash, s.shards, StoreOf(p, s.events), name, i);
  }

  /** Exactly-once producers on the tables themselves, under every interleaving and across crashes. */
  lemma ExactlyOnceInTables(p: Params, count: nat, steps: seq<Step>, name: string, id: string)
    requires count > 0 && Run(p, count, steps).Some?
    ensures var s := Run(p, count, steps).value;
            var h := Accepts(false, p.limits.maxStream, name, id, map[], s.events);
            var ms := MessagesOf(StoreOf(p, s.events), name);
            && |s.shards| > 0
            && Holds(s.shards[HomeOf(p, s, name)].rows, name, ms)
            && (h != [] ==> DeliveredOnce(h, ms))
  {
    RunKeeps(p, count, steps);
    var s := Run(p, count, steps).value;
    OwnShardOnly(p.hash, s.shards, StoreOf(p, s.events), name, HomeOf(p, s, name));
    ExactlyOnce(false, p.limits.maxStream, name, id, map[], s.events);
  }

  /**
    A retry of an accepted pair under every interleaving: it gets past the reservation, and its transaction
    then answers as a duplicate or fenced, exactly when its bytes fit the cap beside what is committed,
    reserved and not yet released; otherwise it is refused before the producer is looked at.
   */
  lemma ResendInTables(p: Params, count: nat, steps: seq<Step>, w: string, c: Call, i: nat, now: int)
    requires count > 0 && Run(p, count, steps).Some? && c.ProducerAppend?
    requires var s := Run(p, count, steps).value;
             && Resends(Accepts(false, p.limits.maxStream, c.name, c.producer.id, map[], s.events),
                        StoreOf(p, s.events), i, c, now)
             && CanStep(p, s, Reserve(w, c, now)) && Unlocked(p, s, HomeOf(p, s, c.name))
    ensures var s := Run(p, count, steps).value;
            var s' := Perform(p, s, Reserve(w, c, now));
            var h := Accepts(false, p.limits.maxStream, c.name, c.producer.id, map[], s.events);
            if SumLen(c.messages) == 0
               || Recount(s.shards, |s.shards|) + Pending(s.callers) + SumLen(c.messages) <= p.limits.maxTotal
            then Enabled(p, s', Transact(w, now))
                 && RunTxn(p, s', c, now).reply == ResendReply(h, i, StoreOf(p, s.events)[c.name])
            else w !in s'.callers && s'.events == s.events + [CapRefused(c, now)]
  {
    var s := Run(p, count, steps).value;
    RunKeeps(p, count, steps);
    BytesConserved(p, count, steps);
    RefinedReply(p, s, StoreOf(p, s.events), c, now);
    AcceptsMatch(false, p.limits.maxStream, c.name, c.producer.id, map[], s.events);
    MatchedAnswered(Accepts(false, p.limits.maxStream, c.name, c.producer.id, map[], s.events), false,
                    p.limits.maxStream, StoreOf(p, s.events), i, c, now);
  }

  // ------------------------------------------------- closure across crashes

  lemma {:induction false} AfterSplit(keep: bool, maxStream: nat, s: Store, a: seq<Event>, b: seq<Event>)
    ensures After(keep, maxStream, s, a + b) == After(keep, maxStream, After(keep, maxStream, s, a), b)
  {
    if b == [] {
      assert a + b == a;
    } else {
      var b' := b[..|b| - 1];
      assert (a + b)[..|a + b| - 1] == a + b';
      AfterSplit(keep, maxStream, s, a, b');
    }
  }

  lemma {:induction false} EventsExtend(p: Params, count: nat, steps: seq<Step>, more: seq<Step>)
    requires Run(p, count, steps + more).Some?
    ensures Run(p, count, steps).Some?
    ensures Run(p, count, steps).value.events <= Run(p, count, steps + more).value.events
  {
    if more == [] {
      assert steps + more == steps;
    } else {
      var before := more[..|more| - 1];
      assert (steps + more)[..|steps + more| - 1] == steps + before;
      EventsExtend(p, count, steps, before);
      EventsGrow(p, Run(p, count, steps + before).value, more[|more| - 1]);
    }
  }

  /**
    Closure is final in the tables: once a stream is closed, through any further steps and crashes
    that do not delete, expire or re-create it, its rows are the ones it had and it stays closed.
   */
  lemma ClosedStaysClosed(p: Params, count: nat, steps: seq<Step>, more: seq<Step>, name: string)
    requires count > 0 && Run(p, count, steps + more).Some?
    requires Run(p, count, steps).Some?
    requires |Run(p, count, steps).value.events| <= |Run(p, count, steps + more).value.events|
    requires var s, s' := Run(p, count, steps).value, Run(p, count, steps + more).value;
             && name in StoreOf(p, s.events) && StoreOf(p, s.events)[name].closed
             && SurvivesAll(false, p.limits.maxStream, name, StoreOf(p, s.events), s'.events[|s.events|..])
    ensures var s, s' := Run(p, count, steps).value, Run(p, count, steps + more).value;
            && |s'.shards| > 0
            && var t := s'.shards[HomeOf(p, s', name)];
               && name in t.streams && t.streams[name].closed
               && Holds(t.rows, name, MessagesOf(StoreOf(p, s.events), name))
  {
    var s, s' := Run(p, count, steps).value, Run(p, count, steps + more).value;
    var es := s'.events[|s.events|..];
    EventsExtend(p, count, steps, more);
    assert s'.events == s.events + es;
    AfterSplit(false, p.limits.maxStream, map[], s.events, es);
    ClosureIsFinal(false, p.limits.maxStream, name, StoreOf(p, s.events), es);
    RunKeeps(p, count, steps + more);
    OwnShardOnly(p.hash, s'.shards, StoreOf(p, s'.events), name, HomeOf(p, s', name));
  }
}
