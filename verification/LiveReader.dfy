/**
  Live readers of one stream (src/handlers/get.rs): subscribe, read, then wait for a
  notification and read again, interleaved with writers, deletion and re-creation.
  Notifications carry no data; a channel is what a reader has not yet received from it.
 */
module LiveReader {
  import opened Types
  import opened Validation
  import opened LogSpec
  import opened Effects
  import opened Runs
  import opened Limiting
  import opened Reading

  datatype Setup = Setup(backend: Backend, maxStream: nat, name: string)

  const NOTIFY_CHANNEL_CAPACITY: nat := 16

  datatype Mode = Sse | LongPoll

  datatype Phase =
    | Subscribed
    | Waiting
    /** The receive returned; `last` when it said that the channel is closed. */
    | Woken(last: bool)
    | TimedOut
    | Ended

  /**
    What a reader sends: the result of one read, the answer without content of a timed-out long-poll, or a
    keep-alive. An empty chunk of a long-poll that goes on to wait is a read it has not answered yet.
   */
  datatype Item =
    | Chunk(messages: seq<Bytes>, next: Offset, closed: bool)
    | Empty(next: Offset, closed: bool)
    | Tick

  /**
    `life` is the life of the stream the first read saw, when it held `first` messages, `start` the
    index it began at, and `seen` the messages of that life as last read. `foreign` is what was read
    from later lives, and `lost` what a timed-out long-poll read and did not send. `missed` says that
    the stream changed without a notification since the last read.
   */
  datatype Reader = Reader(
    mode: Mode, from: Offset, channel: nat, unseen: nat, phase: Phase, tail: Offset, sent: seq<Item>,
    life: nat, first: nat, start: nat, seen: seq<Bytes>, foreign: seq<Bytes>, lost: seq<Bytes>,
    missed: bool)

  /** What a caller of the ACID backend still has to do after its transaction. */
  datatype Pending = Pending(drop: bool, notify: bool)

  /**
    `life` counts the creations of the stream. `channel` is the channel a writer would notify now;
    channels in `open` still have a sender somewhere.
   */
  datatype State = State(
    store: Store, life: nat, channel: Option<nat>, open: set<nat>, nextChannel: nat,
    writers: map<string, Pending>, readers: map<string, Reader>)

  datatype Step =
    | Call(who: string, event: Event)
    /** A close in the file backend whose metadata write fails: closed in memory, answered with an error. */
    | CloseFails(now: int)
    | Drop(who: string)
    | Notify(who: string)
    /** The last temporary holder of a channel's sender lets go of it. */
    | Release(channel: nat)
    | Subscribe(reader: string, mode: Mode, from: Offset, channel: nat)
    | FirstRead(reader: string, now: int)
    | Wake(reader: string)
    | ChannelClosed(reader: string)
    | ReRead(reader: string, now: int)
    | KeepAlive(reader: string)
    | IdleClose(reader: string)
    | Timeout(reader: string)
    | TimeoutRead(reader: string, now: int)

  // ------------------------------------------------------------------ writers

  /** The event as the backend stores it. */
  function Stored(b: Backend, e: Event): Event {
    if e.Commit? then Commit(Effective(b, e.call), e.now) else e
  }

  function Result(p: Setup, s: State, e: Event): Outcome {
    Next(p.backend != Acid, p.maxStream, s.store, Stored(p.backend, e))
  }

  /** The event is a call on this stream that gave it a new life. */
  predicate Born(p: Setup, e: Event, out: Outcome) {
    e.Commit? && e.call.name == p.name && Creates(out.reply)
  }

  predicate Loud(p: Setup, e: Event, out: Outcome) {
    e.Commit? && e.call.name == p.name && Notifies(p.backend, e.call, out.reply)
  }

  /** The calls that may change a stream without notifying its subscribers. */
  predicate Quiet(b: Backend, c: Call) {
    || (b == Memory && c.Append?)
    || (b != Acid && c.ProducerAppend? && c.messages == [] && c.close)
  }

  predicate Hushes(p: Setup, s: State, e: Event, out: Outcome) {
    && e.Commit? && e.call.name == p.name && Quiet(p.backend, e.call)
    && (out.reply.Appended? || out.reply.Accepted?)
  }

  /** Everyone misses a change that is not announced. */
  function Hush(readers: map<string, Reader>): map<string, Reader> {
    map r | r in readers :: readers[r].(missed := true)
  }

  function Closed(p: Setup, s: State): Store
    requires p.name in s.store
  {
    s.store[p.name := s.store[p.name].(closed := true)]
  }

  /** A deletion, or a creation over an expired stream that held bytes, drops the notifier later. */
  predicate Drops(p: Setup, s: State, e: Event, out: Outcome) {
    && e.Commit? && e.call.name == p.name && p.name in s.store
    && ((e.call.Delete? && out.reply.Done?) || (Creates(out.reply) && SumLen(s.store[p.name].messages) > 0))
  }

  /** One more notification for everyone subscribed to the channel. */
  function Send(readers: map<string, Reader>, channel: Option<nat>): map<string, Reader> {
    map r | r in readers ::
      if Some(readers[r].channel) == channel then readers[r].(unseen := readers[r].unseen + 1) else readers[r]
  }

  /** The ACID backend: the transaction commits first; dropping and notifying are steps of their own. */
  function CallByName(p: Setup, s: State, w: string, e: Event): State {
    var out := Result(p, s, e);
    var todo := Pending(Drops(p, s, e, out), Loud(p, e, out));
    s.(store := out.store, life := if Born(p, e, out) then s.life + 1 else s.life,
       writers := if todo.drop || todo.notify then s.writers[w := todo] else s.writers)
  }

  /** Memory and file: the channel belongs to the entry, and the notification is sent under its lock. */
  function CallByEntry(p: Setup, s: State, e: Event): State {
    var out := Result(p, s, e);
    if Born(p, e, out) then
      s.(store := out.store, life := s.life + 1,
         channel := Some(s.nextChannel), open := s.open + {s.nextChannel}, nextChannel := s.nextChannel + 1)
    else
      s.(store := out.store,
         channel := if p.name in out.store then s.channel else None,
         readers := if Loud(p, e, out) then Send(s.readers, s.channel)
                    else if Hushes(p, s, e, out) then Hush(s.readers) else s.readers)
  }

  // ------------------------------------------------------------------ readers

  function ReadNow(p: Setup, s: State, from: Offset, now: int): Reply {
    Txn(p.backend != Acid, p.maxStream, s.store, Read(p.name, from), now).reply
  }

  function MessagesNow(p: Setup, s: State): seq<Bytes> {
    if p.name in s.store then s.store[p.name].messages else []
  }

  function Begun(p: Setup, s: State, r: Reader, reply: Reply): Reader {
    if !reply.Messages? then r.(phase := Ended, missed := false)
    else
      var ends := reply.closed || (r.mode.LongPoll? && reply.messages != []);
      r.(phase := if ends then Ended else Waiting, tail := reply.next,
         sent := [Chunk(reply.messages, reply.next, reply.closed)],
         life := s.life, first := |MessagesNow(p, s)|, start := StartIndex(MessagesNow(p, s), r.from),
         seen := MessagesNow(p, s),
         missed := false)
  }

  function Continued(p: Setup, s: State, r: Reader, reply: Reply): Reader
    requires r.phase.Woken?
  {
    if !reply.Messages? then r.(phase := Ended, missed := false)
    else
      var ends := reply.closed || r.phase.last || r.mode.LongPoll?;
      var r' := r.(phase := if ends then Ended else Waiting, tail := reply.next,
                   sent := r.sent + [Chunk(reply.messages, reply.next, reply.closed)], missed := false);
      if r.life == s.life then r'.(seen := MessagesNow(p, s)) else r'.(foreign := r.foreign + reply.messages)
  }

  function GivenUp(r: Reader, reply: Reply): Reader {
    if reply.Messages? then
      r.(phase := Ended, tail := reply.next, sent := r.sent + [Empty(reply.next, reply.closed)],
         lost := reply.messages, missed := false)
    else r.(phase := Ended, missed := false)
  }

  /** Receiving takes one notification, or skips to the oldest kept ones after a lag. */
  function Received(unseen: nat): nat
    requires unseen > 0
  {
    if unseen > NOTIFY_CHANNEL_CAPACITY then NOTIFY_CHANNEL_CAPACITY else unseen - 1
  }

  /** How often a reader with this many notifications is woken before it has none left. */
  function Wakeups(unseen: nat): nat
    decreases if unseen > NOTIFY_CHANNEL_CAPACITY then NOTIFY_CHANNEL_CAPACITY + 1 else unseen
  {
    if unseen == 0 then 0 else 1 + Wakeups(Received(unseen))
  }

  /** Once per notification; a reader that lags is woken for the lag and the sixteen it still finds. */
  lemma {:induction false} WakeupsAre(unseen: nat)
    ensures Wakeups(unseen) == if unseen > 16 then 17 else unseen
    decreases if unseen > NOTIFY_CHANNEL_CAPACITY then NOTIFY_CHANNEL_CAPACITY + 1 else unseen
  {
    if unseen > 0 { WakeupsAre(Received(unseen)); }
  }

  predicate InPhase(s: State, r: string, phase: Phase) {
    r in s.readers && s.readers[r].phase == phase
  }

  predicate Enabled(p: Setup, s: State, st: Step) {
    match st
    case Call(w, e) => w !in s.writers && !e.Restart?
    case CloseFails(now) => p.backend == File && Txn(true, p.maxStream, s.store, Close(p.name), now).reply.Done?
    case Drop(w) => w in s.writers && s.writers[w].drop
    case Notify(w) => w in s.writers && !s.writers[w].drop && s.writers[w].notify
    case Release(c) => Some(c) != s.channel
    case Subscribe(r, _, _, c) =>
      r !in s.readers && (c in s.open || (p.backend == Acid && s.channel == None && c == s.nextChannel))
    case FirstRead(r, _) => InPhase(s, r, Subscribed)
    case Wake(r) => InPhase(s, r, Waiting) && s.readers[r].unseen > 0
    case ChannelClosed(r) => InPhase(s, r, Waiting) && s.readers[r].unseen == 0 && s.readers[r].channel !in s.open
    case ReRead(r, _) => r in s.readers && s.readers[r].phase.Woken?
    case KeepAlive(r) => InPhase(s, r, Waiting) && s.readers[r].mode.Sse?
    case IdleClose(r) => InPhase(s, r, Waiting) && s.readers[r].mode.Sse?
    case Timeout(r) => InPhase(s, r, Waiting) && s.readers[r].mode.LongPoll?
    case TimeoutRead(r, _) => InPhase(s, r, TimedOut)
  }

  function NewReader(mode: Mode, from: Offset, channel: nat): Reader {
    Reader(mode, from, channel, 0, Subscribed, from, [], 0, 0, 0, [], [], [], false)
  }

  function SetReader(s: State, name: string, r: Reader): State {
    s.(readers := s.readers[name := r])
  }

  function Perform(p: Setup, s: State, st: Step): State
    requires Enabled(p, s, st)
  {
    match st
    case Call(w, e) => if p.backend == Acid then CallByName(p, s, w, e) else CallByEntry(p, s, e)
    case CloseFails(_) =>
      s.(store := Closed(p, s), readers := if s.store[p.name].closed then s.readers else Hush(s.readers))
    case Drop(w) => s.(channel := None, writers := s.writers[w := s.writers[w].(drop := false)])
    case Notify(w) => s.(readers := Send(s.readers, s.channel), writers := s.writers - {w})
    case Release(c) => s.(open := s.open - {c})
    case Subscribe(r, mode, from, c) =>
      var s' := SetReader(s, r, NewReader(mode, from, c));
      if c in s.open then s' else s'.(channel := Some(c), open := s.open + {c}, nextChannel := s.nextChannel + 1)
    case FirstRead(r, now) => SetReader(s, r, Begun(p, s, s.readers[r], ReadNow(p, s, s.readers[r].from, now)))
    case Wake(r) => SetReader(s, r, s.readers[r].(unseen := Received(s.readers[r].unseen), phase := Woken(false)))
    case ChannelClosed(r) => SetReader(s, r, s.readers[r].(phase := Woken(true)))
    case ReRead(r, now) => SetReader(s, r, Continued(p, s, s.readers[r], ReadNow(p, s, s.readers[r].tail, now)))
    case KeepAlive(r) => SetReader(s, r, s.readers[r].(sent := s.readers[r].sent + [Tick]))
    case IdleClose(r) => SetReader(s, r, s.readers[r].(phase := Ended))
    case Timeout(r) => SetReader(s, r, s.readers[r].(phase := TimedOut))
    case TimeoutRead(r, now) => SetReader(s, r, GivenUp(s.readers[r], ReadNow(p, s, s.readers[r].tail, now)))
  }

  function Initial(): State {
    State(map[], 0, None, {}, 0, map[], map[])
  }

  function Run(p: Setup, steps: seq<Step>): Option<State> {
    if steps == [] then Some(Initial())
    else
      var before := Run(p, steps[..|steps| - 1]);
      if before.Some? && Enabled(p, before.value, steps[|steps| - 1])
      then Some(Perform(p, before.value, steps[|steps| - 1]))
      else None
  }

  // ---------------------------------------------------------------- invariant

  /** All messages of the chunks sent, in order. */
  function Emitted(items: seq<Item>): seq<Bytes> {
    if items == [] then []
    else
      var last := items[|items| - 1];
      Emitted(items[..|items| - 1]) + if last.Chunk? then last.messages else []
  }

  lemma EmittedPush(items: seq<Item>, i: Item)
    ensures Emitted(items + [i]) == Emitted(items) + if i.Chunk? then i.messages else []
  {
    assert (items + [i])[..|items|] == items;
  }

  predicate InThisLife(p: Setup, s: State, r: Reader) {
    p.name in s.store && r.life == s.life
  }

  /** What a reader has sent is one slice of its stream's life, followed by what later lives gave. */
  ghost predicate SentInv(p: Setup, s: State, r: Reader) {
    && r.life <= s.life && r.channel < s.nextChannel
    && (r.phase.Subscribed? ==> r.sent == [] && r.seen == [] && r.start == 0 && r.foreign == [])
    && (r.phase.Waiting? || r.phase.Woken? || r.phase.TimedOut? ==> r.sent != [])
    && (r.phase.TimedOut? || r.lost != [] ==> r.mode.LongPoll?) && (!r.phase.Ended? ==> r.lost == [])
    && r.start <= |r.seen|
    && Emitted(r.sent) == r.seen[r.start..] + r.foreign
    && (r.sent != [] ==> r.first <= |r.seen| && r.start == StartIndex(r.seen[..r.first], r.from))
    && (r.life == s.life ==> r.foreign == [])
    && (r.life == s.life && r.sent != [] ==> r.tail == NextOffset(r.seen + r.lost))
    && (InThisLife(p, s, r) ==> IsPrefix(r.seen + r.lost, s.store[p.name].messages))
  }

  ghost predicate NotifyPending(s: State) {
    exists w :: w in s.writers && s.writers[w].notify
  }

  predicate UpToDate(p: Setup, s: State, r: Reader) {
    p.name in s.store && r.seen == s.store[p.name].messages && !s.store[p.name].closed
  }

  /** A reader that waits where writers notify has read everything or will be told. */
  ghost predicate WakeInv(p: Setup, s: State, r: Reader) {
    r.phase.Waiting? && s.channel == Some(r.channel) && InThisLife(p, s, r) ==>
      UpToDate(p, s, r) || r.unseen > 0 || NotifyPending(s) || r.missed
  }

  /** A reader that missed a change is not up to date. */
  ghost predicate MissInv(p: Setup, s: State, r: Reader) {
    r.missed && r.sent != [] && r.lost == [] && InThisLife(p, s, r) ==> !UpToDate(p, s, r)
  }

  ghost predicate ReaderInv(p: Setup, s: State, r: Reader) {
    SentInv(p, s, r) && WakeInv(p, s, r) && MissInv(p, s, r)
  }

  ghost predicate Inv(p: Setup, s: State) {
    && (forall r :: r in s.readers ==> ReaderInv(p, s, s.readers[r]))
    && (s.channel.Some? ==> s.channel.value in s.open)
    && (forall c :: c in s.open ==> c < s.nextChannel)
  }

  /** A stream that is there after an event and was not created by it was there before. */
  lemma NoOtherBirth(p: Setup, s: State, e: Event)
    requires var out := Result(p, s, e); !Born(p, e, out) && p.name in out.store && !e.Restart?
    ensures Survives(p.name, s.store, e, Result(p, s, e))
  {
    if e.Commit? { TxnEffect(p.backend != Acid, p.maxStream, p.name, s.store, Effective(p.backend, e.call), e.now); }
  }

  /**
    On ACID a call that ends a life of the stream, by deleting it or by creating it anew, drops its notifier,
    unless the new one takes the place of a stream without bytes; no other call does.
   */
  lemma DropsExactly(p: Setup, s: State, e: Event)
    requires p.backend == Acid && e.Commit?
    ensures Drops(p, s, e, Result(p, s, e)) <==>
            && p.name in s.store && !Survives(p.name, s.store, e, Result(p, s, e))
            && (e.call.Delete? || SumLen(s.store[p.name].messages) > 0)
  {
    TxnEffect(false, p.maxStream, p.name, s.store, Effective(Acid, e.call), e.now);
  }

  /** A surviving stream only grows and never reopens. */
  lemma SurvivorKeeps(p: Setup, s: State, e: Event)
    requires Survives(p.name, s.store, e, Result(p, s, e))
    ensures var log, log' := s.store[p.name], Result(p, s, e).store[p.name];
            IsPrefix(log.messages, log'.messages) && (log.closed ==> log'.closed)
  {
    NextEvolves(p.backend != Acid, p.maxStream, p.name, s.store, Stored(p.backend, e));
    SurvivorGrows(p.name, s.store[p.name], Stored(p.backend, e), Result(p, s, e).reply, Result(p, s, e).store[p.name]);
  }

  /** A change of the world around a reader that leaves its stream to grow or go. */
  ghost predicate Moves(p: Setup, s: State, s': State) {
    && s.life <= s'.life && s.nextChannel <= s'.nextChannel
    && (s'.life == s.life && p.name in s'.store && p.name in s.store && s.store[p.name].closed ==>
        s'.store[p.name].closed)
    && (s'.life == s.life && p.name in s'.store ==>
          p.name in s.store && IsPrefix(s.store[p.name].messages, s'.store[p.name].messages))
  }

  lemma SentKept(p: Setup, s: State, s': State, r: Reader)
    requires SentInv(p, s, r) && Moves(p, s, s')
    ensures SentInv(p, s', r)
  {
    if InThisLife(p, s', r) {
      PrefixTransitive(r.seen + r.lost, s.store[p.name].messages, s'.store[p.name].messages);
    }
  }

  lemma SendKeeps(p: Setup, s: State, r: Reader)
    requires SentInv(p, s, r)
    ensures SentInv(p, s, r.(unseen := r.unseen + 1)) && SentInv(p, s, r.(missed := true))
  {}

  /** Behind once, behind until the next read; and a change behind the reader's back puts it there. */
  lemma MissKept(p: Setup, s: State, s': State, r: Reader)
    requires SentInv(p, s, r) && MissInv(p, s, r) && Moves(p, s, s')
    ensures MissInv(p, s', r)
    ensures r.sent != [] && r.lost == [] && InThisLife(p, s', r) && SilentMove(p, s, s') ==> !UpToDate(p, s', r)
  {
    if r.sent != [] && r.lost == [] && InThisLife(p, s', r) {
      assert InThisLife(p, s, r) && r.seen + r.lost == r.seen;
      assert IsPrefix(r.seen, s.store[p.name].messages);
    }
  }

  ghost predicate SilentMove(p: Setup, s: State, s': State) {
    && p.name in s.store && p.name in s'.store
    && (s'.store[p.name].messages != s.store[p.name].messages || s'.store[p.name].closed != s.store[p.name].closed)
  }

  lemma CallMoves(p: Setup, s: State, w: string, e: Event)
    requires Enabled(p, s, Call(w, e))
    ensures Moves(p, s, Perform(p, s, Call(w, e)))
  {
    var out := Result(p, s, e);
    if !Born(p, e, out) && p.name in out.store {
      NoOtherBirth(p, s, e);
      SurvivorKeeps(p, s, e);
    }
  }

  /** A call changes a surviving stream without a notification exactly when it is one of the quiet ones and succeeds. */
  lemma CallQuiet(p: Setup, s: State, e: Event)
    requires Survives(p.name, s.store, e, Result(p, s, e))
    ensures var out := Result(p, s, e);
            var log, log' := s.store[p.name], out.store[p.name];
            (log'.messages != log.messages || log'.closed != log.closed) && !Loud(p, e, out) <==> Hushes(p, s, e, out)
  {
    var out := Result(p, s, e);
    NextEvolves(p.backend != Acid, p.maxStream, p.name, s.store, Stored(p.backend, e));
    var log, log' := s.store[p.name], out.store[p.name];
    if e.Commit? && e.call.name == p.name && (out.reply.Appended? || out.reply.Accepted?) {
      assert log'.messages == log.messages + BatchOf(e.call);
      assert |BatchOf(e.call)| > 0 <==> log'.messages != log.messages;
    }
  }

  /** An unchanged stream keeps its reader up to date; a changed one is announced or missed. */
  lemma CallWakes(p: Setup, s: State, w: string, e: Event, name: string)
    requires Enabled(p, s, Call(w, e)) && name in s.readers && ReaderInv(p, s, s.readers[name])
    requires s.channel.Some? ==> s.channel.value < s.nextChannel
    ensures var s' := Perform(p, s, Call(w, e)); WakeInv(p, s', s'.readers[name])
  {
    var s' := Perform(p, s, Call(w, e));
    var r, r', out := s.readers[name], s'.readers[name], Result(p, s, e);
    if r'.phase.Waiting? && s'.channel == Some(r'.channel) && InThisLife(p, s', r') {
      assert !Born(p, e, out);
      NoOtherBirth(p, s, e);
      CallQuiet(p, s, e);
      if Loud(p, e, out) {
        if p.backend == Acid { assert s'.writers[w].notify; }
      } else if NotifyPending(s) {
        var v :| v in s.writers && s.writers[v].notify;
        assert v in s'.writers && s'.writers[v] == s.writers[v];
      }
    }
  }

  lemma CallMisses(p: Setup, s: State, w: string, e: Event, name: string)
    requires Enabled(p, s, Call(w, e)) && name in s.readers && ReaderInv(p, s, s.readers[name])
    ensures var s' := Perform(p, s, Call(w, e)); MissInv(p, s', s'.readers[name])
  {
    var s', out := Perform(p, s, Call(w, e)), Result(p, s, e);
    var r := s.readers[name];
    CallMoves(p, s, w, e);
    MissKept(p, s, s', r);
    if InThisLife(p, s', r) && Hushes(p, s, e, out) {
      assert !Born(p, e, out);
      NoOtherBirth(p, s, e);
      CallQuiet(p, s, e);
      assert SilentMove(p, s, s');
    }
  }

  lemma CallKeeps(p: Setup, s: State, w: string, e: Event)
    requires Inv(p, s) && Enabled(p, s, Call(w, e))
    ensures Inv(p, Perform(p, s, Call(w, e)))
  {
    var s' := Perform(p, s, Call(w, e));
    forall name | name in s'.readers ensures ReaderInv(p, s', s'.readers[name]) {
      CallReader(p, s, w, e, name);
    }
  }

  lemma CallReader(p: Setup, s: State, w: string, e: Event, name: string)
    requires Enabled(p, s, Call(w, e)) && name in s.readers && ReaderInv(p, s, s.readers[name])
    requires s.channel.Some? ==> s.channel.value < s.nextChannel
    ensures var s' := Perform(p, s, Call(w, e)); name in s'.readers && ReaderInv(p, s', s'.readers[name])
  {
    var s' := Perform(p, s, Call(w, e));
    CallMoves(p, s, w, e);
    SentKept(p, s, s', s.readers[name]);
    SendKeeps(p, s', s.readers[name]);
    CallWakes(p, s, w, e, name);
    CallMisses(p, s, w, e, name);
  }

  lemma CloseFailsKeeps(p: Setup, s: State, now: int)
    requires Inv(p, s) && Enabled(p, s, CloseFails(now))
    ensures Inv(p, Perform(p, s, CloseFails(now)))
  {
    var s' := Perform(p, s, CloseFails(now));
    forall name | name in s'.readers ensures ReaderInv(p, s', s'.readers[name]) {
      SentKept(p, s, s', s.readers[name]);
      SendKeeps(p, s', s.readers[name]);
      MissKept(p, s, s', s.readers[name]);
    }
  }

  lemma NotifyKeeps(p: Setup, s: State, w: string)
    requires Inv(p, s) && Enabled(p, s, Notify(w))
    ensures Inv(p, Perform(p, s, Notify(w)))
  {
    var s' := Perform(p, s, Notify(w));
    forall name | name in s'.readers ensures ReaderInv(p, s', s'.readers[name]) {
      SentKept(p, s, s', s.readers[name]);
      SendKeeps(p, s', s.readers[name]);
    }
  }

  lemma DropKeeps(p: Setup, s: State, w: string)
    requires Inv(p, s) && Enabled(p, s, Drop(w))
    ensures Inv(p, Perform(p, s, Drop(w)))
  {
    var s' := Perform(p, s, Drop(w));
    forall name | name in s'.readers ensures ReaderInv(p, s', s'.readers[name]) {
      SentKept(p, s, s', s.readers[name]);
    }
  }

  lemma ReleaseKeeps(p: Setup, s: State, c: nat)
    requires Inv(p, s) && Enabled(p, s, Release(c))
    ensures Inv(p, Perform(p, s, Release(c)))
  {
    var s' := Perform(p, s, Release(c));
    forall name | name in s'.readers ensures ReaderInv(p, s', s'.readers[name]) {
      assert ReaderInv(p, s, s.readers[name]);
    }
  }

  /** A step that replaces one reader keeps the invariant when the new reader meets it. */
  lemma SetReaderKeeps(p: Setup, s: State, name: string, r: Reader)
    requires Inv(p, s) && ReaderInv(p, s, r)
    ensures Inv(p, SetReader(s, name, r))
  {
    var s' := SetReader(s, name, r);
    forall n | n in s'.readers ensures ReaderInv(p, s', s'.readers[n]) {
      assert n != name ==> ReaderInv(p, s, s.readers[n]);
    }
  }

  /** Nobody waits on a channel that did not exist before. */
  lemma NewChannelKeeps(p: Setup, s: State)
    requires Inv(p, s)
    ensures Inv(p, s.(channel := Some(s.nextChannel), open := s.open + {s.nextChannel},
                      nextChannel := s.nextChannel + 1))
  {
    var s' := s.(channel := Some(s.nextChannel), open := s.open + {s.nextChannel}, nextChannel := s.nextChannel + 1);
    forall n | n in s'.readers ensures ReaderInv(p, s', s'.readers[n]) {
      SentKept(p, s, s', s.readers[n]);
    }
  }

  lemma NewReaderMeets(p: Setup, s: State, mode: Mode, from: Offset, c: nat)
    requires c < s.nextChannel
    ensures ReaderInv(p, s, NewReader(mode, from, c))
  {
    assert Emitted([]) == [];
  }

  lemma SubscribeKeeps(p: Setup, s: State, st: Step)
    requires Inv(p, s) && st.Subscribe? && Enabled(p, s, st)
    ensures Inv(p, Perform(p, s, st))
  {
    var r := NewReader(st.mode, st.from, st.channel);
    if st.channel in s.open {
      NewReaderMeets(p, s, st.mode, st.from, st.channel);
      SetReaderKeeps(p, s, st.reader, r);
    } else {
      var s' := s.(channel := Some(st.channel), open := s.open + {st.channel}, nextChannel := s.nextChannel + 1);
      NewChannelKeeps(p, s);
      NewReaderMeets(p, s', st.mode, st.from, st.channel);
      SetReaderKeeps(p, s', st.reader, r);
    }
  }

  lemma SentOne(ms: seq<Bytes>, next: Offset, closed: bool)
    ensures Emitted([Chunk(ms, next, closed)]) == ms
  {
    EmittedPush([], Chunk(ms, next, closed));
    assert [] + [Chunk(ms, next, closed)] == [Chunk(ms, next, closed)] && [] + ms == ms;
  }

  lemma WholeSlice(ms: seq<Bytes>, k: nat)
    requires k <= |ms|
    ensures ms[..|ms|] == ms && ms + [] == ms && ms[k..] + [] == ms[k..]
  {}

  lemma BegunKeeps(p: Setup, s: State, r: Reader, now: int)
    requires ReaderInv(p, s, r) && r.phase.Subscribed?
    ensures ReaderInv(p, s, Begun(p, s, r, ReadNow(p, s, r.from, now)))
  {
    var reply := ReadNow(p, s, r.from, now);
    if reply.Messages? {
      var ms := s.store[p.name].messages;
      SentOne(reply.messages, reply.next, reply.closed);
      WholeSlice(ms, StartIndex(ms, r.from));
    }
  }

  lemma SliceGrows(seen: seq<Bytes>, ms: seq<Bytes>, first: nat, start: nat)
    requires IsPrefix(seen, ms) && first <= |seen| && start <= |seen|
    ensures ms[..first] == seen[..first] && seen[start..] + ms[|seen|..] == ms[start..]
  {
    assert ms == seen + ms[|seen|..];
  }

  lemma ContinuedKeeps(p: Setup, s: State, r: Reader, now: int)
    requires ReaderInv(p, s, r) && r.phase.Woken?
    ensures ReaderInv(p, s, Continued(p, s, r, ReadNow(p, s, r.tail, now)))
  {
    var reply := ReadNow(p, s, r.tail, now);
    if reply.Messages? {
      var ms := s.store[p.name].messages;
      EmittedPush(r.sent, Chunk(reply.messages, reply.next, reply.closed));
      assert r.seen + [] == r.seen && ms + [] == ms;
      if r.life == s.life {
        ResumeAtTail(r.seen, ms);
        SliceGrows(r.seen, ms, r.first, r.start);
      }
    }
  }

  lemma KeepAliveKeeps(p: Setup, s: State, r: Reader)
    requires ReaderInv(p, s, r) && r.phase.Waiting?
    ensures ReaderInv(p, s, r.(sent := r.sent + [Tick]))
  {
    EmittedPush(r.sent, Tick);
  }

  lemma GivenUpKeeps(p: Setup, s: State, r: Reader, now: int)
    requires ReaderInv(p, s, r) && r.phase.TimedOut?
    ensures ReaderInv(p, s, GivenUp(r, ReadNow(p, s, r.tail, now)))
  {
    var reply := ReadNow(p, s, r.tail, now);
    if reply.Messages? { EmittedPush(r.sent, Empty(reply.next, reply.closed)); }
    if reply.Messages? && r.life == s.life {
      var ms := s.store[p.name].messages;
      assert r.seen + [] == r.seen;
      ResumeAtTail(r.seen, ms);
      assert r.seen + ms[|r.seen|..] == ms;
    }
  }

  lemma ReadStepKeeps(p: Setup, s: State, st: Step)
    requires Inv(p, s) && Enabled(p, s, st) && (st.FirstRead? || st.ReRead? || st.TimeoutRead?)
    ensures Inv(p, Perform(p, s, st))
  {
    var r := s.readers[st.reader];
    match st
    case FirstRead(name, now) =>
      BegunKeeps(p, s, r, now);
      SetReaderKeeps(p, s, name, Begun(p, s, r, ReadNow(p, s, r.from, now)));
    case ReRead(name, now) =>
      ContinuedKeeps(p, s, r, now);
      SetReaderKeeps(p, s, name, Continued(p, s, r, ReadNow(p, s, r.tail, now)));
    case TimeoutRead(name, now) =>
      GivenUpKeeps(p, s, r, now);
      SetReaderKeeps(p, s, name, GivenUp(r, ReadNow(p, s, r.tail, now)));
  }

  lemma PhaseKeeps(p: Setup, s: State, r: Reader, phase: Phase, unseen: nat)
    requires ReaderInv(p, s, r) && r.phase.Waiting? && (phase.Woken? || phase.TimedOut? || phase.Ended?)
    requires phase.TimedOut? ==> r.mode.LongPoll?
    ensures ReaderInv(p, s, r.(unseen := unseen, phase := phase))
  {}

  /** Waking up, ending and keeping alive touch neither what was read nor what was sent. */
  lemma WaitStepKeeps(p: Setup, s: State, st: Step)
    requires Inv(p, s) && Enabled(p, s, st)
    requires st.Wake? || st.ChannelClosed? || st.KeepAlive? || st.IdleClose? || st.Timeout?
    ensures Inv(p, Perform(p, s, st))
  {
    var r := s.readers[st.reader];
    match st
    case Wake(name) =>
      PhaseKeeps(p, s, r, Woken(false), Received(r.unseen));
      SetReaderKeeps(p, s, name, r.(unseen := Received(r.unseen), phase := Woken(false)));
    case ChannelClosed(name) =>
      PhaseKeeps(p, s, r, Woken(true), r.unseen);
      SetReaderKeeps(p, s, name, r.(phase := Woken(true)));
    case KeepAlive(name) =>
      KeepAliveKeeps(p, s, r);
      SetReaderKeeps(p, s, name, r.(sent := r.sent + [Tick]));
    case IdleClose(name) =>
      PhaseKeeps(p, s, r, Ended, r.unseen);
      SetReaderKeeps(p, s, name, r.(phase := Ended));
    case Timeout(name) =>
      PhaseKeeps(p, s, r, TimedOut, r.unseen);
      SetReaderKeeps(p, s, name, r.(phase := TimedOut));
  }

  lemma StepKeeps(p: Setup, s: State, st: Step)
    requires Inv(p, s) && Enabled(p, s, st)
    ensures Inv(p, Perform(p, s, st))
  {
    match st
    case Call(w, e) => CallKeeps(p, s, w, e);
    case CloseFails(now) => CloseFailsKeeps(p, s, now);
    case Drop(w) => DropKeeps(p, s, w);
    case Notify(w) => NotifyKeeps(p, s, w);
    case Release(c) => ReleaseKeeps(p, s, c);
    case Subscribe(_, _, _, _) => SubscribeKeeps(p, s, st);
    case FirstRead(_, _) => ReadStepKeeps(p, s, st);
    case ReRead(_, _) => ReadStepKeeps(p, s, st);
    case TimeoutRead(_, _) => ReadStepKeeps(p, s, st);
    case _ => WaitStepKeeps(p, s, st);
  }

  lemma {:induction false} RunKeeps(p: Setup, steps: seq<Step>)
    requires Run(p, steps).Some?
    ensures Inv(p, Run(p, steps).value)
  {
    if steps != [] {
      RunKeeps(p, steps[..|steps| - 1]);
      StepKeeps(p, Run(p, steps[..|steps| - 1]).value, steps[|steps| - 1]);
    }
  }

  // ------------------------------------------------------------ no lost wake-up

  /** The step is a call that succeeds without telling anyone, or a failed close of an open stream. */
  predicate Silent(p: Setup, s: State, st: Step)
    requires Enabled(p, s, st)
  {
    match st
    case Call(_, e) => Hushes(p, s, e, Result(p, s, e))
    case CloseFails(_) => !s.store[p.name].closed
    case _ => false
  }

  /** The stream lives on with more messages or closed, and no notification was sent or is to be sent. */
  predicate ChangesUnannounced(p: Setup, s: State, st: Step)
    requires Enabled(p, s, st)
  {
    var s' := Perform(p, s, st);
    && p.name in s.store && p.name in s'.store && s'.life == s.life
    && (s'.store[p.name].messages != s.store[p.name].messages || s'.store[p.name].closed != s.store[p.name].closed)
    && !(st.Call? && Loud(p, st.event, Result(p, s, st.event)))
  }

  /** A step changes the stream without a notification exactly when it is one of these. */
  lemma QuietExactly(p: Setup, s: State, st: Step)
    requires Enabled(p, s, st)
    ensures ChangesUnannounced(p, s, st) <==> Silent(p, s, st)
  {
    if st.Call? {
      var e := st.event;
      if Survives(p.name, s.store, e, Result(p, s, e)) {
        CallQuiet(p, s, e);
      } else if Hushes(p, s, e, Result(p, s, e)) {
        TxnEffect(p.backend != Acid, p.maxStream, p.name, s.store, e.call, e.now);
      }
    }
  }

  predicate Reads(st: Step, name: string) {
    (st.FirstRead? || st.ReRead? || st.TimeoutRead?) && st.reader == name
  }

  /** The stream changed silently since the reader last read, or since it subscribed. */
  ghost predicate SilentSince(p: Setup, steps: seq<Step>, name: string) {
    steps != [] &&
    var init, st := steps[..|steps| - 1], steps[|steps| - 1];
    && !Reads(st, name) && !(st.Subscribe? && st.reader == name)
    && (SilentSince(p, init, name)
        || (Run(p, init).Some? && Enabled(p, Run(p, init).value, st) && Silent(p, Run(p, init).value, st)))
  }

  /** The mark a step leaves on a reader. */
  lemma MissedStep(p: Setup, s: State, st: Step, name: string)
    requires Enabled(p, s, st) && name in Perform(p, s, st).readers
    ensures var missed := Perform(p, s, st).readers[name].missed;
            if name !in s.readers then st.Subscribe? && st.reader == name && !missed
            else if Reads(st, name) then !missed
            else (missed <==> s.readers[name].missed || Silent(p, s, st)) && !(st.Subscribe? && st.reader == name)
  {}

  lemma {:induction false} MissedSince(p: Setup, steps: seq<Step>, name: string)
    requires Run(p, steps).Some? && name in Run(p, steps).value.readers
    ensures Run(p, steps).value.readers[name].missed <==> SilentSince(p, steps, name)
  {
    if steps != [] {
      var init, st := steps[..|steps| - 1], steps[|steps| - 1];
      MissedStep(p, Run(p, init).value, st, name);
      if name in Run(p, init).value.readers { MissedSince(p, init, name); }
    }
  }

  /** The reader waits with nothing to receive where writers of its stream notify. */
  predicate WaitsQuietly(p: Setup, s: State, r: string) {
    && InPhase(s, r, Waiting) && s.readers[r].unseen == 0
    && s.channel == Some(s.readers[r].channel) && InThisLife(p, s, s.readers[r])
  }

  /** The reader has sent every message of the stream from its start on, and the stream is open. */
  predicate HasAll(p: Setup, s: State, r: Reader)
    requires p.name in s.store
  {
    var log := s.store[p.name];
    !log.closed && r.start <= |log.messages| && Emitted(r.sent) == log.messages[r.start..]
  }

  /**
    No lost wake-up, under every interleaving: a reader that waits on the stream's open and empty channel,
    with no writer between commit and notification, has sent every message of the stream from its start
    on and the stream is open, exactly when no silent change came after its last read.
   */
  lemma NoLostWakeup(p: Setup, steps: seq<Step>, name: string)
    requires Run(p, steps).Some? && WaitsQuietly(p, Run(p, steps).value, name)
    requires !NotifyPending(Run(p, steps).value)
    ensures var s := Run(p, steps).value;
            HasAll(p, s, s.readers[name]) <==> !SilentSince(p, steps, name)
  {
    RunKeeps(p, steps);
    MissedSince(p, steps, name);
    var s := Run(p, steps).value;
    var r, ms := s.readers[name], s.store[p.name].messages;
    assert r.seen + r.lost == r.seen && r.seen[r.start..] + [] == r.seen[r.start..];
    assert Emitted(r.sent) == ms[r.start..] ==> |r.seen| == |ms|;
    assert |r.seen| == |ms| ==> r.seen == ms;
  }

  /** No step of the run is of a kind that may be silent. */
  predicate NeverQuiet(p: Setup, steps: seq<Step>) {
    forall i :: 0 <= i < |steps| ==> !MayBeQuiet(p, steps[i])
  }

  predicate MayBeQuiet(p: Setup, st: Step) {
    || (st.Call? && st.event.Commit? && st.event.call.name == p.name && Quiet(p.backend, st.event.call))
    || (st.CloseFails? && p.backend == File)
  }

  lemma {:induction false} NeverSilent(p: Setup, steps: seq<Step>, name: string)
    requires NeverQuiet(p, steps)
    ensures !SilentSince(p, steps, name)
  {
    if steps != [] {
      NeverSilent(p, steps[..|steps| - 1], name);
      assert !MayBeQuiet(p, steps[|steps| - 1]);
    }
  }

  /** On ACID nothing is silent, so that a quietly waiting reader always has everything. */
  lemma AcidWakesAll(p: Setup, steps: seq<Step>, name: string)
    requires p.backend == Acid && Run(p, steps).Some? && WaitsQuietly(p, Run(p, steps).value, name)
    requires !NotifyPending(Run(p, steps).value)
    ensures HasAll(p, Run(p, steps).value, Run(p, steps).value.readers[name])
  {
    NeverSilent(p, steps, name);
    NoLostWakeup(p, steps, name);
  }

  // ------------------------------------------------------ exactly once, in order

  /** The re-read finds another life of the stream, with messages at or after where the reader stands. */
  predicate FindsForeign(p: Setup, s: State, name: string, now: int) {
    && name in s.readers && s.readers[name].phase.Woken? && s.readers[name].life != s.life
    && ReadNow(p, s, s.readers[name].tail, now).Messages?
    && StartIndex(MessagesNow(p, s), s.readers[name].tail) < |MessagesNow(p, s)|
  }

  ghost predicate MixesAt(p: Setup, steps: seq<Step>, i: nat, name: string)
    requires i < |steps|
  {
    && steps[i].ReRead? && steps[i].reader == name && Run(p, steps[..i]).Some?
    && FindsForeign(p, Run(p, steps[..i]).value, name, steps[i].now)
  }

  /** Some re-read of the run found another life with messages left to send. */
  ghost predicate MixesLives(p: Setup, steps: seq<Step>, name: string) {
    exists i :: 0 <= i < |steps| && MixesAt(p, steps, i, name)
  }

  lemma MixesStep(p: Setup, steps: seq<Step>, name: string)
    requires steps != []
    ensures MixesLives(p, steps, name) <==>
            MixesLives(p, steps[..|steps| - 1], name) || MixesAt(p, steps, |steps| - 1, name)
  {
    var init := steps[..|steps| - 1];
    forall i | 0 <= i < |init| ensures MixesAt(p, steps, i, name) <==> MixesAt(p, init, i, name) {
      assert init[..i] == steps[..i];
    }
  }

  /** What one step does to the foreign part of a reader. */
  lemma ForeignStep(p: Setup, s: State, st: Step, name: string)
    requires Enabled(p, s, st) && name in Perform(p, s, st).readers
    ensures var foreign := Perform(p, s, st).readers[name].foreign;
            if name !in s.readers then foreign == []
            else if st.ReRead? && st.reader == name && FindsForeign(p, s, name, st.now)
            then |foreign| > |s.readers[name].foreign|
            else foreign == s.readers[name].foreign
  {}

  lemma {:induction false} ForeignExactly(p: Setup, steps: seq<Step>, name: string)
    requires Run(p, steps).Some?
    ensures if name in Run(p, steps).value.readers
            then Run(p, steps).value.readers[name].foreign != [] <==> MixesLives(p, steps, name)
            else !MixesLives(p, steps, name)
  {
    if steps != [] {
      var init, st := steps[..|steps| - 1], steps[|steps| - 1];
      ForeignExactly(p, init, name);
      MixesStep(p, steps, name);
      ReadersStay(p, Run(p, init).value, st, name);
      if name in Run(p, steps).value.readers { ForeignStep(p, Run(p, init).value, st, name); }
    }
  }

  lemma ReadersStay(p: Setup, s: State, st: Step, name: string)
    requires Enabled(p, s, st)
    ensures name in s.readers ==> name in Perform(p, s, st).readers
  {}

  /**
    Exactly once, in order: at every point of every run, what a reader has sent is one slice of the
    life of the stream it started on, from the first message not before its offset up to what it last
    read there, followed by what it read of later lives; the slice is all of it exactly when no re-read
    found another life with messages at or after where the reader stood.
   */
  lemma SentExactlyOnce(p: Setup, steps: seq<Step>, name: string)
    requires Run(p, steps).Some? && name in Run(p, steps).value.readers
    ensures var s := Run(p, steps).value;
            var r := s.readers[name];
            && r.start <= |r.seen|
            && (r.sent != [] ==> r.first <= |r.seen| && r.start == StartIndex(r.seen[..r.first], r.from))
            && Emitted(r.sent) == r.seen[r.start..] + r.foreign
            && (InThisLife(p, s, r) ==> r.foreign == [] && IsPrefix(r.seen, s.store[p.name].messages))
            && (Emitted(r.sent) == r.seen[r.start..] <==> !MixesLives(p, steps, name))
  {
    RunKeeps(p, steps);
    ForeignExactly(p, steps, name);
    var s := Run(p, steps).value;
    var r := s.readers[name];
    if InThisLife(p, s, r) { PrefixTransitive(r.seen, r.seen + r.lost, s.store[p.name].messages); }
    assert r.foreign != [] ==> |r.seen[r.start..] + r.foreign| > |r.seen[r.start..]|;
  }

  /**
    Whenever a reader stops, its client can go on from the last offset it was given: together with
    what was sent, a read from there gives everything from the start on, but for what a timed-out
    long-poll threw away.
   */
  lemma ResumeAfterReader(p: Setup, steps: seq<Step>, name: string)
    requires Run(p, steps).Some? && name in Run(p, steps).value.readers
    requires var s := Run(p, steps).value; InThisLife(p, s, s.readers[name]) && s.readers[name].sent != []
    ensures var s := Run(p, steps).value;
            var r, ms := s.readers[name], s.store[p.name].messages;
            && r.start <= |ms|
            && Emitted(r.sent) + r.lost + ReadFrom(ms, r.tail) == ms[r.start..]
            && (r.lost != [] ==> r.mode.LongPoll? && r.phase.Ended?)
  {
    RunKeeps(p, steps);
    var s := Run(p, steps).value;
    var r, ms := s.readers[name], s.store[p.name].messages;
    ResumeAtTail(r.seen + r.lost, ms);
    ThreePieces(r.seen, r.lost, ms, r.start);
    assert r.seen[r.start..] + [] == r.seen[r.start..];
  }

  lemma ThreePieces(a: seq<Bytes>, b: seq<Bytes>, ms: seq<Bytes>, k: nat)
    requires k <= |a| && IsPrefix(a + b, ms)
    ensures a[k..] + b + ms[|a + b|..] == ms[k..]
  {
    assert ms == a + b + ms[|a + b|..];
  }

  // ------------------------------------------------------- where it goes wrong

  lemma RunMore(p: Setup, steps: seq<Step>, st: Step)
    requires Run(p, steps).Some? && Enabled(p, Run(p, steps).value, st)
    ensures Run(p, steps + [st]) == Some(Perform(p, Run(p, steps).value, st))
  {
    assert (steps + [st])[..|steps|] == steps;
  }

  const PLAIN := StreamConfig("text/plain", None, None, false)

  /** The state once stream "s" has been created with `ms` and nothing else has happened. */
  lemma CreatedState(p: Setup, ms: seq<Bytes>)
    requires p.name == "s" && SumLen(ms) <= p.maxStream && (ms == [] || SumLen(ms) > 0)
    ensures var create := Call("w", Commit(CreateWithData("s", PLAIN, ms, false), 0));
            && Enabled(p, Initial(), create)
            && var s := Perform(p, Initial(), create);
               && s.store == map["s" := EmptyLog(PLAIN).(messages := ms)] && s.life == 1 && s.readers == map[]
               && s.writers.Keys <= {"w"} && (p.backend != Acid || ms == [] ==> s.writers == map[])
               && (if p.backend == Acid then s.channel == None && s.open == {} && s.nextChannel == 0
                   else s.channel == Some(0) && s.open == {0})
  {}

  predicate HoldsOpen(p: Setup, s: State, ms: seq<Bytes>) {
    p.name in s.store && s.store[p.name] == EmptyLog(PLAIN).(messages := ms)
  }

  function BehindReader(life: nat, ms: seq<Bytes>): Reader {
    Reader(Sse, Start, 0, 0, Waiting, NextOffset(ms), [Chunk(ms, NextOffset(ms), false)], life, |ms|, 0, ms, [], [],
           false)
  }

  lemma ReadsAll(p: Setup, s: State, ms: seq<Bytes>)
    requires HoldsOpen(p, s, ms)
    ensures ReadNow(p, s, Start, 0) == Messages(ms, NextOffset(ms), true, false)
  {
    assert ms[0..] == ms;
  }

  lemma BegunBehind(p: Setup, s: State, ms: seq<Bytes>)
    requires HoldsOpen(p, s, ms)
    ensures Begun(p, s, NewReader(Sse, Start, 0), ReadNow(p, s, Start, 0)) == BehindReader(s.life, ms)
  {
    ReadsAll(p, s, ms);
  }

  lemma SubscribedState(p: Setup, s: State)
    requires s.readers == map[]
    requires (s.channel == Some(0) && s.open == {0})
             || (p.backend == Acid && s.channel == None && s.nextChannel == 0 && s.open == {})
    ensures var sub := Subscribe("r", Sse, Start, 0);
            && Enabled(p, s, sub)
            && var s' := Perform(p, s, sub);
               && s'.store == s.store && s'.life == s.life && s'.writers == s.writers
               && s'.channel == Some(0) && s'.open == {0} && s'.readers == map["r" := NewReader(Sse, Start, 0)]
  {}

  /** Reading from the start leaves a new reader waiting behind `ms`. */
  lemma BehindState(p: Setup, s: State, ms: seq<Bytes>)
    requires HoldsOpen(p, s, ms) && s.readers == map["r" := NewReader(Sse, Start, 0)]
    ensures Enabled(p, s, FirstRead("r", 0))
    ensures Perform(p, s, FirstRead("r", 0)) == s.(readers := map["r" := BehindReader(s.life, ms)])
  {
    BegunBehind(p, s, ms);
    assert s.readers["r" := BehindReader(s.life, ms)] == map["r" := BehindReader(s.life, ms)];
  }

  /** A run that leads there. */
  lemma RunBehind(p: Setup, ms: seq<Bytes>) returns (steps: seq<Step>)
    requires p.name == "s" && SumLen(ms) <= p.maxStream && (ms == [] || SumLen(ms) > 0)
    ensures Run(p, steps).Some?
    ensures var s := Run(p, steps).value;
            && s.store == map["s" := EmptyLog(PLAIN).(messages := ms)] && s.life == 1
            && s.writers.Keys <= {"w"} && (p.backend != Acid || ms == [] ==> s.writers == map[])
            && s.channel == Some(0) && s.open == {0}
            && s.readers == map["r" := BehindReader(1, ms)]
  {
    var create := Call("w", Commit(CreateWithData("s", PLAIN, ms, false), 0));
    var sub, read := Subscribe("r", Sse, Start, 0), FirstRead("r", 0);
    CreatedState(p, ms);
    RunMore(p, [], create);
    steps := [] + [create];
    SubscribedState(p, Run(p, steps).value);
    RunMore(p, steps, sub);
    steps := steps + [sub];
    BehindState(p, Run(p, steps).value, ms);
    RunMore(p, steps, read);
    steps := steps + [read];
  }

  /** A close-only producer append in memory or file leaves a waiting reader unaware for ever. */
  lemma QuietCloseMissed(b: Backend) returns (p: Setup, steps: seq<Step>)
    requires b != Acid
    ensures p.backend == b && Run(p, steps).Some?
    ensures var s := Run(p, steps).value;
            && WaitsQuietly(p, s, "r") && !NotifyPending(s) && s.open == {s.readers["r"].channel}
            && s.store[p.name].closed
  {
    p := Setup(b, 0, "s");
    steps := RunBehind(p, []);
    var close := Call("w", Commit(ProducerAppend("s", [], "", ProducerHeaders("p", 0, 0), true, None), 0));
    RunMore(p, steps, close);
    steps := steps + [close];
    assert Run(p, steps).value.store["s"].closed;
  }

  /** An append in memory leaves a waiting reader without the message for ever. */
  lemma QuietAppendMissed(m: Bytes) returns (p: Setup, steps: seq<Step>)
    ensures p.backend == Memory && Run(p, steps).Some?
    ensures var s := Run(p, steps).value;
            && WaitsQuietly(p, s, "r") && !NotifyPending(s) && s.open == {s.readers["r"].channel}
            && s.store[p.name].messages == [m] && Emitted(s.readers["r"].sent) == []
  {
    p := Setup(Memory, |m|, "s");
    steps := RunBehind(p, []);
    SumLenOne(m);
    var append := Call("w", Commit(Append("s", m, "text/plain"), 0));
    var s := Run(p, steps).value;
    RunMore(p, steps, append);
    steps := steps + [append];
    SentOne([], NextOffset([]), false);
    assert [] + [m] == [m];
    assert Result(p, s, append.event).store["s"].messages == [m];
  }

  /** A close whose metadata cannot be written closes the stream in the file backend and tells no waiting reader. */
  lemma FailedCloseMissed() returns (p: Setup, steps: seq<Step>)
    ensures p.backend == File && Run(p, steps).Some?
    ensures var s := Run(p, steps).value;
            && WaitsQuietly(p, s, "r") && !NotifyPending(s) && s.open == {s.readers["r"].channel}
            && s.store[p.name].closed
  {
    p := Setup(File, 0, "s");
    steps := RunBehind(p, []);
    RunMore(p, steps, CloseFails(0));
    steps := steps + [CloseFails(0)];
  }

  /** Reader "r" has sent `m`, read in the first life of the stream, and stands behind it. */
  predicate Behind(s: State, m: Bytes) {
    && "r" in s.readers
    && var r := s.readers["r"];
       && r.mode.Sse? && r.channel == 0 && r.life == 1 && r.tail == NextOffset([m])
       && Emitted(r.sent) == [m] && r.foreign == []
  }

  lemma ReaderBehind(p: Setup, m: Bytes) returns (steps: seq<Step>)
    requires p.name == "s" && 0 < |m| <= p.maxStream
    ensures Run(p, steps).Some?
    ensures var s := Run(p, steps).value;
            && s.store == map["s" := EmptyLog(PLAIN).(messages := [m])] && s.life == 1
            && s.channel == Some(0) && s.nextChannel > 0
            && Behind(s, m) && s.readers["r"].phase.Waiting? && s.readers["r"].unseen == 0
            && s.writers.Keys <= {"w"}
  {
    SumLenOne(m);
    steps := RunBehind(p, [m]);
    RunKeeps(p, steps);
    var chunk := Chunk([m], NextOffset([m]), false);
    EmittedPush([], chunk);
    assert [] + [chunk] == [chunk];
  }

  /** The stream is deleted and created again while the reader waits. */
  lemma Reborn(p: Setup, m: Bytes, ms: seq<Bytes>) returns (steps: seq<Step>)
    requires p.name == "s" && 0 < |m| <= p.maxStream && 0 < SumLen(ms) <= p.maxStream
    ensures Run(p, steps).Some?
    ensures var s := Run(p, steps).value;
            && s.store == map["s" := EmptyLog(PLAIN).(messages := ms)] && s.life == 2
            && Behind(s, m) && s.readers["r"].phase.Waiting? && s.readers["r"].unseen == 0
            && (if p.backend == Acid
                then s.channel == Some(0) && "c" in s.writers && s.writers["c"] == Pending(false, true)
                else s.channel != Some(0))
  {
    steps := ReaderBehind(p, m);
    var delete := Call("d", Commit(Delete("s"), 0));
    var create := Call("c", Commit(CreateWithData("s", PLAIN, ms, false), 0));
    DeletedState(p, Run(p, steps).value);
    RunMore(p, steps, delete);
    steps := steps + [delete];
    RunMore(p, steps, create);
    steps := steps + [create];
  }

  lemma DeletedState(p: Setup, s: State)
    requires p.name == "s" && s.store.Keys == {"s"} && s.channel == Some(0) && s.writers.Keys <= {"w"}
    ensures var delete := Call("d", Commit(Delete("s"), 0));
            && Enabled(p, s, delete)
            && var s' := Perform(p, s, delete);
               && s'.store == map[] && s'.life == s.life && s'.readers == s.readers && s'.nextChannel == s.nextChannel
               && "c" !in s'.writers && (if p.backend == Acid then s'.channel == Some(0) else s'.channel == None)
  {}

  /** The reader is woken: by the creation on ACID, by the closing of its channel otherwise. */
  lemma Rewoken(p: Setup, m: Bytes, ms: seq<Bytes>) returns (steps: seq<Step>)
    requires p.name == "s" && 0 < |m| <= p.maxStream && 0 < SumLen(ms) <= p.maxStream
    ensures Run(p, steps).Some?
    ensures var s := Run(p, steps).value;
            && s.store == map["s" := EmptyLog(PLAIN).(messages := ms)] && s.life == 2
            && Behind(s, m) && s.readers["r"].phase.Woken?
  {
    steps := Reborn(p, m, ms);
    if p.backend == Acid {
      RunMore(p, steps, Notify("c"));
      steps := steps + [Notify("c")];
      RunMore(p, steps, Wake("r"));
      steps := steps + [Wake("r")];
    } else {
      RunMore(p, steps, Release(0));
      steps := steps + [Release(0)];
      RunMore(p, steps, ChannelClosed("r"));
      steps := steps + [ChannelClosed("r")];
    }
  }

  /**
    Deletion and re-creation under a waiting reader: on every backend it may go on with the middle of
    the new stream, so that what it sent is no slice of either.
   */
  lemma LivesMixed(b: Backend, m: Bytes, x: Bytes, y: Bytes) returns (p: Setup, steps: seq<Step>)
    requires 0 < |m| <= |x|
    ensures p.backend == b && Run(p, steps).Some?
    ensures var s := Run(p, steps).value;
            && MessagesNow(p, s) == [x, y] && "r" in s.readers
            && Emitted(s.readers["r"].sent) == [m, y] && s.readers["r"].foreign == [y]
  {
    p := Setup(b, |x| + |y|, "s");
    SumTwo(x, y);
    steps := Rewoken(p, m, [x, y]);
    var s := Run(p, steps).value;
    RunMore(p, steps, ReRead("r", 0));
    steps := steps + [ReRead("r", 0)];
    MiddleRead(m, x, y);
    EmittedPush(s.readers["r"].sent, Chunk([y], NextOffset([x, y]), false));
  }

  lemma SumTwo(x: Bytes, y: Bytes)
    ensures SumLen([x, y]) == |x| + |y|
  {
    SumLenOne(x);
    SumLenPush([x], y);
    assert [x] + [y] == [x, y];
  }

  lemma MiddleRead(m: Bytes, x: Bytes, y: Bytes)
    requires |m| <= |x|
    ensures ReadFrom([x, y], NextOffset([m])) == [y]
  {
    SumLenOne(m);
    SumLenOne(x);
    assert [x, y][..1] == [x];
  }
}
