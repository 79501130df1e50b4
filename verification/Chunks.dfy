/**
  What each item of a live reader says (src/handlers/get.rs): the offset a client resumes from, whether the
  stream is closed, and which read it came from.
 */
module Chunks {
  import opened Types
  import opened Validation
  import opened LogSpec
  import opened Runs
  import opened Reading
  import opened LiveReader

  /** The offset the client was given last. */
  function LastNext(items: seq<Item>): Offset {
    if items == [] then Start
    else
      var last := items[|items| - 1];
      if last.Tick? then LastNext(items[..|items| - 1]) else last.next
  }

  predicate SaysClosed(i: Item) {
    !i.Tick? && i.closed
  }

  /** The `k`th item points behind the messages sent up to and including it. */
  predicate Positioned(r: Reader, k: nat)
    requires k < |r.sent|
  {
    match r.sent[k]
    case Tick => true
    case Empty(next, _) => next == NextOffset(r.seen + r.lost)
    case Chunk(_, next, _) =>
      var n := r.start + |Emitted(r.sent[..k + 1])|;
      n <= |r.seen| && next == NextOffset(r.seen[..n])
  }

  ghost predicate AllPositioned(r: Reader) {
    forall k :: 0 <= k < |r.sent| ==> Positioned(r, k)
  }

  /** An item that says closed, and the answer of a timed-out long-poll, is the last of a reader that has ended. */
  ghost predicate FinalLast(r: Reader) {
    forall k :: 0 <= k < |r.sent| && (r.sent[k].Empty? || SaysClosed(r.sent[k])) ==>
                  k == |r.sent| - 1 && r.phase.Ended?
  }

  /** A long-poll answers once; until then it has read an open stream and found nothing. */
  predicate AnswersOnce(r: Reader) {
    if r.mode.Sse? then forall k :: 0 <= k < |r.sent| ==> !r.sent[k].Empty?
    else
      && |r.sent| <= 2 && (forall k :: 0 <= k < |r.sent| ==> !r.sent[k].Tick?)
      && (r.phase.Waiting? || r.phase.Woken? || r.phase.TimedOut? || |r.sent| == 2 ==>
            r.sent != [] && r.sent[0].Chunk? && r.sent[0].messages == [] && !r.sent[0].closed)
      && (!r.phase.Ended? ==> |r.sent| <= 1)
  }

  ghost predicate ItemInv(p: Setup, s: State, r: Reader) {
    && (r.sent != [] ==> r.tail == LastNext(r.sent) && !r.sent[0].Tick?)
    && (r.life == s.life ==> AllPositioned(r))
    && FinalLast(r)
    && (InThisLife(p, s, r) && r.sent != [] && SaysClosed(r.sent[|r.sent| - 1]) ==> s.store[p.name].closed)
    && AnswersOnce(r)
  }

  ghost predicate ItemsInv(p: Setup, s: State) {
    forall n :: n in s.readers ==> ItemInv(p, s, s.readers[n])
  }

  lemma FinalPush(r: Reader, r': Reader, i: Item)
    requires FinalLast(r) && !r.phase.Ended? && r'.sent == r.sent + [i]
    requires i.Empty? || SaysClosed(i) ==> r'.phase.Ended?
    ensures FinalLast(r')
    ensures forall k :: 0 <= k < |r.sent| ==> !r.sent[k].Empty?
  {
    assert forall k :: 0 <= k < |r.sent| ==> r'.sent[k] == r.sent[k];
  }

  lemma AnswerPush(r: Reader, r': Reader, i: Item)
    requires AnswersOnce(r) && r'.sent == r.sent + [i] && r'.mode == r.mode
    requires r.phase.Waiting? || r.phase.Woken? || r.phase.TimedOut?
    requires if r.mode.Sse? then !i.Empty? else !i.Tick? && r'.phase.Ended?
    ensures AnswersOnce(r')
  {
    forall k | 0 <= k < |r'.sent| ensures if r.mode.Sse? then !r'.sent[k].Empty? else !r'.sent[k].Tick? {
      if k < |r.sent| { assert r.sent[k] == r'.sent[k]; }
    }
  }

  lemma PositionedKept(r: Reader, r': Reader, i: Item)
    requires AllPositioned(r) && r'.sent == r.sent + [i] && r'.start == r.start && r.start <= |r.seen|
    requires IsPrefix(r.seen, r'.seen) && (forall k :: 0 <= k < |r.sent| ==> !r.sent[k].Empty?)
    requires Positioned(r', |r.sent|)
    ensures AllPositioned(r')
  {
    forall k | 0 <= k < |r.sent| ensures Positioned(r', k) {
      assert Positioned(r, k);
      assert r'.sent[k] == r.sent[k] && r'.sent[..k + 1] == r.sent[..k + 1];
      if r.sent[k].Chunk? {
        var n := r.start + |Emitted(r.sent[..k + 1])|;
        assert r'.seen[..n] == r.seen[..n];
      }
    }
  }

  lemma PositionedSame(r: Reader, r': Reader)
    requires AllPositioned(r) && r'.sent == r.sent && r'.start == r.start && r'.seen == r.seen && r'.lost == r.lost
    ensures AllPositioned(r')
  {
    forall k | 0 <= k < |r'.sent| ensures Positioned(r', k) { assert Positioned(r, k); }
  }

  lemma StepMoves(p: Setup, s: State, st: Step)
    requires Enabled(p, s, st)
    ensures Moves(p, s, Perform(p, s, st))
  {
    if st.Call? { CallMoves(p, s, st.who, st.event); }
  }

  /** The step is one of this reader. */
  predicate Acts(st: Step, name: string) {
    match st
    case Call(_, _) => false
    case CloseFails(_) => false
    case Drop(_) => false
    case Notify(_) => false
    case Release(_) => false
    case _ => st.reader == name
  }

  /** At most a notification more, or a change missed. */
  predicate Untouched(r: Reader, r': Reader) {
    r' == r.(unseen := r'.unseen, missed := r'.missed)
  }

  /** A step of others at most sends a reader a notification, or changes the stream behind its back. */
  lemma OthersStep(p: Setup, s: State, st: Step, name: string)
    requires Enabled(p, s, st) && !Acts(st, name) && name in Perform(p, s, st).readers
    ensures name in s.readers && Untouched(s.readers[name], Perform(p, s, st).readers[name])
  {
    match st
    case Call(w, e) => CallUntouched(p, s, w, e, name);
    case CloseFails(_) =>
    case Drop(_) =>
    case Notify(_) =>
    case Release(_) =>
    case _ => assert st.reader != name;
  }

  lemma CallUntouched(p: Setup, s: State, w: string, e: Event, name: string)
    requires Enabled(p, s, Call(w, e)) && name in Perform(p, s, Call(w, e)).readers
    ensures name in s.readers && Untouched(s.readers[name], Perform(p, s, Call(w, e)).readers[name])
  {}

  lemma ItemKept(p: Setup, s: State, s': State, r: Reader, r': Reader)
    requires SentInv(p, s, r) && ItemInv(p, s, r) && Moves(p, s, s')
    requires Untouched(r, r')
    ensures ItemInv(p, s', r')
  {
    if r'.life == s'.life { PositionedSame(r, r'); }
  }

  lemma LastNextPush(items: seq<Item>, i: Item)
    ensures LastNext(items + [i]) == if i.Tick? then LastNext(items) else i.next
  {
    assert (items + [i])[..|items|] == items;
  }

  lemma ItemBegun(p: Setup, s: State, r: Reader, now: int)
    requires SentInv(p, s, r) && ItemInv(p, s, r) && r.phase.Subscribed?
    ensures ItemInv(p, s, Begun(p, s, r, ReadNow(p, s, r.from, now)))
  {
    var reply := ReadNow(p, s, r.from, now);
    if reply.Messages? {
      var ms := s.store[p.name].messages;
      WholeSlice(ms, StartIndex(ms, r.from));
      FirstItem(Begun(p, s, r, reply), Chunk(reply.messages, reply.next, reply.closed));
    }
  }

  lemma FirstItem(r: Reader, i: Item)
    requires r.sent == [i] && i.Chunk? && r.start <= |r.seen| && i.messages == r.seen[r.start..]
    requires i.next == NextOffset(r.seen) && (i.closed ==> r.phase.Ended?)
    ensures LastNext(r.sent) == i.next && AllPositioned(r) && FinalLast(r)
  {
    SentOne(i.messages, i.next, i.closed);
    assert [i][..1] == [i] && r.seen[..|r.seen|] == r.seen;
  }

  /** Behind a re-read within the life, everything read so far has been sent. */
  lemma ItemContinued(p: Setup, s: State, r: Reader, now: int)
    requires SentInv(p, s, r) && ItemInv(p, s, r) && r.phase.Woken?
    ensures ItemInv(p, s, Continued(p, s, r, ReadNow(p, s, r.tail, now)))
  {
    var reply := ReadNow(p, s, r.tail, now);
    if reply.Messages? {
      var i := Chunk(reply.messages, reply.next, reply.closed);
      var r' := Continued(p, s, r, reply);
      LastNextPush(r.sent, i);
      FinalPush(r, r', i);
      AnswerPush(r, r', i);
      if r.life == s.life { ContinuedPositioned(p, s, r, now); }
    } else if r.life == s.life {
      PositionedSame(r, Continued(p, s, r, reply));
    }
  }

  lemma NothingLost(r: Reader)
    ensures r.lost == [] ==> r.seen + r.lost == r.seen
    ensures r.start <= |r.seen| && r.foreign == [] ==> r.seen[r.start..] + r.foreign == r.seen[r.start..]
  {}

  /** After one more chunk with what `ms` has beyond `seen`, as many messages have been sent as `ms` holds. */
  lemma AllSent(r: Reader, ms: seq<Bytes>, i: Item)
    requires r.start <= |r.seen| <= |ms| && Emitted(r.sent) == r.seen[r.start..]
    requires i.Chunk? && i.messages == ms[|r.seen|..]
    ensures var sent := r.sent + [i];
            sent[..|r.sent| + 1] == sent && r.start + |Emitted(sent)| == |ms| && ms[..|ms|] == ms
  {
    EmittedPush(r.sent, i);
    assert (r.sent + [i])[..|r.sent| + 1] == r.sent + [i];
  }

  lemma ContinuedPositioned(p: Setup, s: State, r: Reader, now: int)
    requires SentInv(p, s, r) && ItemInv(p, s, r) && r.phase.Woken? && r.life == s.life
    requires ReadNow(p, s, r.tail, now).Messages?
    ensures AllPositioned(Continued(p, s, r, ReadNow(p, s, r.tail, now)))
  {
    var reply := ReadNow(p, s, r.tail, now);
    var i := Chunk(reply.messages, reply.next, reply.closed);
    var r', ms := Continued(p, s, r, reply), s.store[p.name].messages;
    NothingLost(r);
    ResumeAtTail(r.seen, ms);
    AllSent(r, ms, i);
    FinalPush(r, r', i);
    PositionedKept(r, r', i);
  }

  lemma ItemGivenUp(p: Setup, s: State, r: Reader, now: int)
    requires SentInv(p, s, r) && ItemInv(p, s, r) && r.phase.TimedOut?
    ensures ItemInv(p, s, GivenUp(r, ReadNow(p, s, r.tail, now)))
  {
    var reply := ReadNow(p, s, r.tail, now);
    if reply.Messages? {
      var i := Empty(reply.next, reply.closed);
      var r' := GivenUp(r, reply);
      LastNextPush(r.sent, i);
      FinalPush(r, r', i);
      AnswerPush(r, r', i);
      if r.life == s.life {
        var ms := s.store[p.name].messages;
        assert r.seen + [] == r.seen;
        ResumeAtTail(r.seen, ms);
        assert r.seen + ms[|r.seen|..] == ms;
        PositionedKept(r, r', i);
      }
    } else if r.life == s.life {
      PositionedSame(r, GivenUp(r, reply));
    }
  }

  lemma ItemKeepAlive(p: Setup, s: State, r: Reader)
    requires SentInv(p, s, r) && ItemInv(p, s, r) && r.phase.Waiting? && r.mode.Sse?
    ensures ItemInv(p, s, r.(sent := r.sent + [Tick]))
  {
    LastNextPush(r.sent, Tick);
    FinalPush(r, r.(sent := r.sent + [Tick]), Tick);
    AnswerPush(r, r.(sent := r.sent + [Tick]), Tick);
    if r.life == s.life { PositionedKept(r, r.(sent := r.sent + [Tick]), Tick); }
  }

  lemma ItemPhase(p: Setup, s: State, r: Reader, phase: Phase, unseen: nat)
    requires SentInv(p, s, r) && ItemInv(p, s, r) && r.phase.Waiting?
    requires phase.Woken? || phase.TimedOut? || phase.Ended?
    ensures ItemInv(p, s, r.(unseen := unseen, phase := phase))
  {
    var r' := r.(unseen := unseen, phase := phase);
    if r.life == s.life { PositionedSame(r, r'); }
  }

  /** A reader's own step, seen in the state before it; the state after differs in that reader only. */
  lemma OwnStep(p: Setup, s: State, st: Step, name: string)
    requires Inv(p, s) && ItemsInv(p, s) && Enabled(p, s, st) && Acts(st, name) && !st.Subscribe?
    ensures ItemInv(p, s, Perform(p, s, st).readers[name])
  {
    var r := s.readers[name];
    match st
    case FirstRead(_, now) => ItemBegun(p, s, r, now);
    case ReRead(_, now) => ItemContinued(p, s, r, now);
    case TimeoutRead(_, now) => ItemGivenUp(p, s, r, now);
    case Wake(_) => ItemPhase(p, s, r, Woken(false), Received(r.unseen));
    case ChannelClosed(_) => ItemPhase(p, s, r, Woken(true), r.unseen);
    case KeepAlive(_) => ItemKeepAlive(p, s, r);
    case IdleClose(_) => ItemPhase(p, s, r, Ended, r.unseen);
    case Timeout(_) => ItemPhase(p, s, r, TimedOut, r.unseen);
  }

  lemma StepKeepsItems(p: Setup, s: State, st: Step)
    requires Inv(p, s) && ItemsInv(p, s) && Enabled(p, s, st)
    ensures ItemsInv(p, Perform(p, s, st))
  {
    var s' := Perform(p, s, st);
    StepMoves(p, s, st);
    forall n | n in s'.readers ensures ItemInv(p, s', s'.readers[n]) {
      if !Acts(st, n) {
        OthersStep(p, s, st, n);
        ItemKept(p, s, s', s.readers[n], s'.readers[n]);
      } else if !st.Subscribe? {
        OwnStep(p, s, st, n);
        assert s' == s.(readers := s'.readers);
      }
    }
  }

  lemma {:induction false} RunKeepsItems(p: Setup, steps: seq<Step>)
    requires Run(p, steps).Some?
    ensures ItemsInv(p, Run(p, steps).value)
  {
    if steps != [] {
      RunKeepsItems(p, steps[..|steps| - 1]);
      RunKeeps(p, steps[..|steps| - 1]);
      StepKeepsItems(p, Run(p, steps[..|steps| - 1]).value, steps[|steps| - 1]);
    }
  }

  /** How many messages of the stream lie before the offset given last after item `k`. */
  function BeforeNext(r: Reader, k: nat): nat
    requires k < |r.sent|
  {
    r.start + |Emitted(r.sent[..k + 1])| + if r.sent[k].Empty? then |r.lost| else 0
  }

  predicate Resumable(r: Reader, ms: seq<Bytes>, k: nat)
    requires k < |r.sent|
  {
    BeforeNext(r, k) <= |ms| && LastNext(r.sent[..k + 1]) == NextOffset(ms[..BeforeNext(r, k)])
  }

  /** The items, the emitted messages and the last offset up to and including item `k`. */
  lemma UpTo(r: Reader, k: nat)
    requires k < |r.sent|
    ensures LastNext(r.sent[..k + 1]) == if r.sent[k].Tick? then LastNext(r.sent[..k]) else r.sent[k].next
    ensures Emitted(r.sent[..k + 1]) == Emitted(r.sent[..k]) + if r.sent[k].Chunk? then r.sent[k].messages else []
  {
    assert r.sent[..k + 1] == r.sent[..k] + [r.sent[k]];
    EmittedPush(r.sent[..k], r.sent[k]);
    LastNextPush(r.sent[..k], r.sent[k]);
  }

  lemma ChunkResumable(r: Reader, ms: seq<Bytes>, k: nat)
    requires k < |r.sent| && Positioned(r, k) && r.sent[k].Chunk? && IsPrefix(r.seen + r.lost, ms)
    ensures Resumable(r, ms, k)
  {
    UpTo(r, k);
    var n := r.start + |Emitted(r.sent[..k + 1])|;
    assert ms[..n] == (r.seen + r.lost)[..n] == r.seen[..n];
  }

  lemma EmptyResumable(r: Reader, ms: seq<Bytes>, k: nat)
    requires k == |r.sent| - 1 && Positioned(r, k) && r.sent[k].Empty? && IsPrefix(r.seen + r.lost, ms)
    requires r.start <= |r.seen| && Emitted(r.sent) == r.seen[r.start..]
    ensures Resumable(r, ms, k)
  {
    UpTo(r, k);
    assert r.sent[..k + 1] == r.sent;
  }

  lemma TickResumable(r: Reader, ms: seq<Bytes>, k: nat)
    requires 0 < k < |r.sent| && r.sent[k].Tick? && !r.sent[k - 1].Empty? && Resumable(r, ms, k - 1)
    ensures Resumable(r, ms, k)
  {
    UpTo(r, k);
    assert Emitted(r.sent[..k]) + [] == Emitted(r.sent[..k]);
  }

  /** After every item, the offset given last leads behind the messages sent so far. */
  lemma {:induction false} LastPositioned(r: Reader, ms: seq<Bytes>, k: nat)
    requires k < |r.sent| && AllPositioned(r) && FinalLast(r) && !r.sent[0].Tick?
    requires r.start <= |r.seen| && Emitted(r.sent) == r.seen[r.start..] && IsPrefix(r.seen + r.lost, ms)
    ensures Resumable(r, ms, k)
    decreases k
  {
    assert Positioned(r, k);
    match r.sent[k]
    case Tick =>
      LastPositioned(r, ms, k - 1);
      TickResumable(r, ms, k);
    case Chunk(_, _, _) => ChunkResumable(r, ms, k);
    case Empty(_, _) => EmptyResumable(r, ms, k);
  }

  /** What has been emitted up to an item is a piece of the stream from the start on. */
  lemma {:induction false} EmittedPrefix(items: seq<Item>, k: nat)
    requires k <= |items|
    ensures IsPrefix(Emitted(items[..k]), Emitted(items))
    decreases |items|
  {
    if k == |items| {
      assert items[..k] == items;
    } else {
      var init := items[..|items| - 1];
      EmittedPrefix(init, k);
      assert init[..k] == items[..k];
      assert IsPrefix(Emitted(init), Emitted(items));
      PrefixTransitive(Emitted(items[..k]), Emitted(init), Emitted(items));
    }
  }

  lemma ItemPoints(p: Setup, s: State, r: Reader, k: nat)
    requires SentInv(p, s, r) && ItemInv(p, s, r) && InThisLife(p, s, r) && k < |r.sent|
    ensures Pointed(r, s.store[p.name].messages, k)
  {
    NothingLost(r);
    LastPositioned(r, s.store[p.name].messages, k);
    UpTo(r, k);
  }

  predicate Pointed(r: Reader, ms: seq<Bytes>, k: nat)
    requires k < |r.sent|
  {
    && Resumable(r, ms, k)
    && (r.sent[k].Chunk? ==> r.sent[k].next == NextOffset(ms[..r.start + |Emitted(r.sent[..k + 1])|]))
    && (r.sent[k].Empty? ==> r.mode.LongPoll? && r.phase.Ended? && k == |r.sent| - 1)
  }

  /**
    Over every run within one life of the stream, each chunk points behind exactly the messages sent up to
    and including it.
   */
  lemma ChunksPoint(p: Setup, steps: seq<Step>, name: string, k: nat)
    requires Run(p, steps).Some? && name in Run(p, steps).value.readers
    requires var s := Run(p, steps).value; InThisLife(p, s, s.readers[name]) && k < |s.readers[name].sent|
    ensures var s := Run(p, steps).value;
            var r, ms := s.readers[name], s.store[p.name].messages;
            Pointed(r, ms, k)
  {
    RunKeeps(p, steps);
    RunKeepsItems(p, steps);
    var s := Run(p, steps).value;
    ItemPoints(p, s, s.readers[name], k);
  }

  /**
    So a client cut off after any item resumes from the offset it was given last and gets exactly the rest
    of the stream, but for what a timed-out long-poll read and did not send.
   */
  lemma ResumeAfterAnyItem(p: Setup, steps: seq<Step>, name: string, k: nat)
    requires Run(p, steps).Some? && name in Run(p, steps).value.readers
    requires var s := Run(p, steps).value; InThisLife(p, s, s.readers[name]) && k < |s.readers[name].sent|
    ensures var s := Run(p, steps).value;
            var r, ms := s.readers[name], s.store[p.name].messages;
            Completes(r, ms, k)
  {
    RunKeeps(p, steps);
    RunKeepsItems(p, steps);
    var s := Run(p, steps).value;
    ItemCompletes(p, s, s.readers[name], k);
  }

  /** Up to item `k`, with what a timed-out long-poll dropped, and from the offset it leaves on: the whole stream. */
  ghost predicate Completes(r: Reader, ms: seq<Bytes>, k: nat)
    requires k < |r.sent|
  {
    && r.start <= |ms|
    && Emitted(r.sent[..k + 1]) + (if r.sent[k].Empty? then r.lost else [])
       + ReadFrom(ms, LastNext(r.sent[..k + 1])) == ms[r.start..]
  }

  lemma ItemCompletes(p: Setup, s: State, r: Reader, k: nat)
    requires SentInv(p, s, r) && ItemInv(p, s, r) && InThisLife(p, s, r) && k < |r.sent|
    ensures Completes(r, s.store[p.name].messages, k)
  {
    ItemPoints(p, s, r, k);
    NothingLost(r);
    PointedCompletes(r, s.store[p.name].messages, k);
  }

  lemma PointedCompletes(r: Reader, ms: seq<Bytes>, k: nat)
    requires k < |r.sent| && Pointed(r, ms, k) && IsPrefix(r.seen + r.lost, ms)
    requires r.start <= |r.seen| && Emitted(r.sent) == r.seen[r.start..]
    ensures Completes(r, ms, k)
  {
    var got, dropped := Emitted(r.sent[..k + 1]), if r.sent[k].Empty? then r.lost else [];
    EmittedPrefix(r.sent, k + 1);
    ResumeAtTail(ms[..BeforeNext(r, k)], ms);
    assert r.sent[k].Empty? ==> r.sent[..k + 1] == r.sent;
    Pieces(r.seen, r.lost, ms, r.start, got, dropped);
  }

  lemma Pieces(seen: seq<Bytes>, lost: seq<Bytes>, ms: seq<Bytes>, start: nat, got: seq<Bytes>, more: seq<Bytes>)
    requires start <= |seen| && IsPrefix(seen + lost, ms) && IsPrefix(got, seen[start..])
    requires more == [] || (more == lost && got == seen[start..])
    ensures got + more + ms[start + |got| + |more|..] == ms[start..]
  {
    assert ms == seen + lost + ms[|seen + lost|..];
    assert seen == seen[..start] + got + seen[start + |got|..];
  }

  // -------------------------------------------------- every item is a read

  /** The stream is there and its time of expiry, if it has one, lies ahead. */
  predicate Present(p: Setup, s: State, now: int) {
    p.name in s.store && (s.store[p.name].config.expiresAt.Some? ==> now < s.store[p.name].config.expiresAt.value)
  }

  /** Where the reader's next read starts: as requested, then where the client was sent. */
  function Stand(r: Reader): Offset {
    if r.sent == [] then r.from else LastNext(r.sent)
  }

  /** The item tells of the stream as it is now, read from `at`. */
  predicate Tells(p: Setup, s: State, at: Offset, i: Item) {
    && p.name in s.store && !i.Tick?
    && i.next == NextOffset(s.store[p.name].messages) && i.closed == s.store[p.name].closed
    && (i.Chunk? ==> i.messages == ReadFrom(s.store[p.name].messages, at))
  }

  /** A read answers exactly when the stream is present, with what lies at or after `at`. */
  lemma ReadNowTells(p: Setup, s: State, at: Offset, now: int)
    ensures var reply := ReadNow(p, s, at, now);
            && (reply.Messages? <==> Present(p, s, now))
            && (reply.Messages? ==> Tells(p, s, at, Chunk(reply.messages, reply.next, reply.closed)))
  {}

  /** One item more, which tells of the stream; or none, and the reader ends. */
  predicate SentByRead(p: Setup, s: State, now: int, gaveUp: bool, r: Reader, r': Reader) {
    if Present(p, s, now) then
      && |r'.sent| == |r.sent| + 1 && r'.sent[..|r.sent|] == r.sent
      && var i := r'.sent[|r.sent|];
         Tells(p, s, Stand(r), i) && (i.Empty? <==> gaveUp)
    else
      r'.sent == r.sent && r'.phase.Ended?
  }

  lemma BegunSends(p: Setup, s: State, r: Reader, now: int)
    requires r.sent == []
    ensures SentByRead(p, s, now, false, r, Begun(p, s, r, ReadNow(p, s, r.from, now)))
  {
    ReadNowTells(p, s, r.from, now);
  }

  lemma ContinuedSends(p: Setup, s: State, r: Reader, now: int)
    requires r.phase.Woken? && r.sent != [] && r.tail == LastNext(r.sent)
    ensures SentByRead(p, s, now, false, r, Continued(p, s, r, ReadNow(p, s, r.tail, now)))
  {
    ReadNowTells(p, s, r.tail, now);
  }

  lemma GivenUpSends(p: Setup, s: State, r: Reader, now: int)
    requires r.sent != [] && r.tail == LastNext(r.sent)
    ensures SentByRead(p, s, now, true, r, GivenUp(r, ReadNow(p, s, r.tail, now)))
  {
    ReadNowTells(p, s, r.tail, now);
  }

  lemma ReadSends(p: Setup, s: State, st: Step, name: string)
    requires Inv(p, s) && ItemsInv(p, s) && Enabled(p, s, st) && Reads(st, name)
    ensures SentByRead(p, s, st.now, st.TimeoutRead?, s.readers[name], Perform(p, s, st).readers[name])
  {
    var r := s.readers[name];
    assert ReaderInv(p, s, r) && ItemInv(p, s, r);
    match st
    case FirstRead(_, now) => BegunSends(p, s, r, now);
    case ReRead(_, now) => ContinuedSends(p, s, r, now);
    case TimeoutRead(_, now) => GivenUpSends(p, s, r, now);
  }

  /** A reader sends nothing else but keep-alives. */
  lemma OnlyReadsSend(p: Setup, s: State, st: Step, name: string)
    requires Enabled(p, s, st) && !Reads(st, name) && name in Perform(p, s, st).readers
    ensures var sent := Perform(p, s, st).readers[name].sent;
            if name !in s.readers then sent == []
            else sent == s.readers[name].sent + if st == KeepAlive(name) then [Tick] else []
  {
    if !Acts(st, name) { OthersStep(p, s, st, name); }
  }

  /** Step `i` of the run is the read of this reader that gave `item`, when it had sent `before`. */
  predicate ReadAt(p: Setup, steps: seq<Step>, i: nat, name: string, before: seq<Item>, item: Item) {
    && i < |steps| && Reads(steps[i], name) && Run(p, steps[..i]).Some?
    && var s := Run(p, steps[..i]).value;
       && name in s.readers && s.readers[name].sent == before && Present(p, s, steps[i].now)
       && Tells(p, s, Stand(s.readers[name]), item)
  }

  lemma ReadAtKept(p: Setup, steps: seq<Step>, st: Step, i: nat, name: string, before: seq<Item>, item: Item)
    requires ReadAt(p, steps, i, name, before, item)
    ensures ReadAt(p, steps + [st], i, name, before, item)
  {
    assert (steps + [st])[..i] == steps[..i];
  }

  /**
    Over every run, whatever happens to the stream: each item but the keep-alives comes from one read, at
    which the stream held exactly what the item says, from where the client had been sent before, and it
    says closed exactly when the stream was closed at that read.
   */
  lemma {:induction false} ItemsAreReads(p: Setup, steps: seq<Step>, name: string, k: nat) returns (i: nat)
    requires Run(p, steps).Some? && name in Run(p, steps).value.readers
    requires k < |Run(p, steps).value.readers[name].sent| && !Run(p, steps).value.readers[name].sent[k].Tick?
    ensures var sent := Run(p, steps).value.readers[name].sent;
            ReadAt(p, steps, i, name, sent[..k], sent[k])
    decreases |steps|
  {
    var init, st := steps[..|steps| - 1], steps[|steps| - 1];
    var s, sent := Run(p, init).value, Run(p, steps).value.readers[name].sent;
    StepSends(p, init, st, name);
    var before := s.readers[name].sent;
    assert init + [st] == steps;
    if k < |before| {
      assert sent[k] == before[k] && sent[..k] == before[..k];
      i := ItemsAreReads(p, init, name, k);
      ReadAtKept(p, init, st, i, name, sent[..k], sent[k]);
    } else {
      i := |init|;
    }
  }

  /** After one more step the items sent before are still there; a new one but a keep-alive comes from that step. */
  lemma StepSends(p: Setup, init: seq<Step>, st: Step, name: string)
    requires Run(p, init).Some? && Enabled(p, Run(p, init).value, st)
    requires name in Perform(p, Run(p, init).value, st).readers
    ensures var s, sent := Run(p, init).value, Perform(p, Run(p, init).value, st).readers[name].sent;
            if name !in s.readers then sent == []
            else
              var before := s.readers[name].sent;
              && |before| <= |sent| <= |before| + 1 && sent[..|before|] == before
              && (|sent| > |before| && !sent[|before|].Tick? ==>
                    ReadAt(p, init + [st], |init|, name, before, sent[|before|]))
  {
    var s := Run(p, init).value;
    assert (init + [st])[..|init|] == init;
    if Reads(st, name) {
      RunKeeps(p, init);
      RunKeepsItems(p, init);
      ReadSends(p, s, st, name);
    } else {
      OnlyReadsSend(p, s, st, name);
    }
  }

  /**
    When a read is a reader's last: the stream is gone, expired or closed, the reader gave up or its channel
    has closed, or it is a long-poll with something to answer.
   */
  ghost predicate LastRead(p: Setup, s: State, st: Step, r: Reader)
    requires st.FirstRead? || st.ReRead? || st.TimeoutRead?
  {
    || !Present(p, s, st.now) || s.store[p.name].closed
    || st.TimeoutRead? || r.phase == Woken(true)
    || (r.mode.LongPoll? && (st.ReRead? || !NothingFrom(s.store[p.name].messages, r.from)))
  }

  /** A reader stops at its last read or when it is idle, and otherwise goes on waiting. */
  lemma StopsExactly(p: Setup, s: State, st: Step, name: string)
    requires Enabled(p, s, st) && name in s.readers && name in Perform(p, s, st).readers
    ensures var r, r' := s.readers[name], Perform(p, s, st).readers[name];
            if Reads(st, name) then r'.phase == if LastRead(p, s, st, r) then Ended else Waiting
            else r'.phase.Ended? <==> r.phase.Ended? || (st == IdleClose(name) && r.mode.Sse?)
  {
    if Reads(st, name) { ReadStops(p, s, st, s.readers[name]); } else { NonReadStops(p, s, st, name); }
  }

  lemma NonReadStops(p: Setup, s: State, st: Step, name: string)
    requires Enabled(p, s, st) && name in s.readers && name in Perform(p, s, st).readers && !Reads(st, name)
    ensures var r, r' := s.readers[name], Perform(p, s, st).readers[name];
            r'.phase.Ended? <==> r.phase.Ended? || (st == IdleClose(name) && r.mode.Sse?)
  {
    if !Acts(st, name) { OthersStep(p, s, st, name); }
  }

  lemma ReadStops(p: Setup, s: State, st: Step, r: Reader)
    requires st.FirstRead? || st.ReRead? || st.TimeoutRead?
    requires (st.FirstRead? ==> r.phase.Subscribed?) && (st.ReRead? ==> r.phase.Woken?)
    requires st.TimeoutRead? ==> r.phase.TimedOut?
    ensures var r' := match st
                      case FirstRead(_, now) => Begun(p, s, r, ReadNow(p, s, r.from, now))
                      case ReRead(_, now) => Continued(p, s, r, ReadNow(p, s, r.tail, now))
                      case TimeoutRead(_, now) => GivenUp(r, ReadNow(p, s, r.tail, now));
            r'.phase == if LastRead(p, s, st, r) then Ended else Waiting
  {
    ReadNowTells(p, s, if st.FirstRead? then r.from else r.tail, st.now);
    if Present(p, s, st.now) { NothingReadExactly(s.store[p.name].messages, r.from); }
  }

  // ---------------------------------------------------------------- progress

  /**
    A reader that waits where writers notify and lacks something can be woken, or a writer that will wake it
    is on its way, unless the change was silent.
   */
  lemma BehindCanMove(p: Setup, steps: seq<Step>, name: string) returns (st: Step)
    requires Run(p, steps).Some? && InPhase(Run(p, steps).value, name, Waiting) && !SilentSince(p, steps, name)
    requires var s := Run(p, steps).value;
             var r := s.readers[name];
             s.channel == Some(r.channel) && InThisLife(p, s, r) && !HasAll(p, s, r)
    ensures var s := Run(p, steps).value;
            && Enabled(p, s, st)
            && (st == Wake(name) || ((st.Notify? || st.Drop?) && st.who in s.writers && s.writers[st.who].notify))
  {
    var s := Run(p, steps).value;
    if s.readers[name].unseen > 0 {
      st := Wake(name);
    } else if NotifyPending(s) {
      var w :| w in s.writers && s.writers[w].notify;
      st := if s.writers[w].drop then Drop(w) else Notify(w);
    } else {
      NoLostWakeup(p, steps, name);
      assert false;
    }
  }

  /** Once it is woken, its next read sends everything the stream then holds from its start on. */
  lemma WokenCatchesUp(p: Setup, steps: seq<Step>, name: string, now: int)
    requires Run(p, steps).Some? && name in Run(p, steps).value.readers
    requires var s := Run(p, steps).value;
             s.readers[name].phase.Woken? && InThisLife(p, s, s.readers[name]) && Present(p, s, now)
    ensures var s := Run(p, steps).value;
            && Enabled(p, s, ReRead(name, now))
            && var r, ms := Perform(p, s, ReRead(name, now)).readers[name], s.store[p.name].messages;
               r.start <= |ms| && Emitted(r.sent) == ms[r.start..]
  {
    RunKeeps(p, steps);
    var s := Run(p, steps).value;
    var r := s.readers[name];
    ReadNowTells(p, s, r.tail, now);
    ContinuedKeeps(p, s, r, now);
    NothingLost(Continued(p, s, r, ReadNow(p, s, r.tail, now)));
  }

  /** What a reader can do next in each phase; one that has not ended is never stuck. */
  lemma NeverStuck(p: Setup, s: State, name: string, now: int)
    requires name in s.readers
    ensures var r := s.readers[name];
            && (Enabled(p, s, FirstRead(name, now)) <==> r.phase.Subscribed?)
            && (Enabled(p, s, ReRead(name, now)) <==> r.phase.Woken?)
            && (Enabled(p, s, TimeoutRead(name, now)) <==> r.phase.TimedOut?)
            && (Enabled(p, s, Wake(name)) <==> r.phase.Waiting? && r.unseen > 0)
            && (Enabled(p, s, ChannelClosed(name)) <==> r.phase.Waiting? && r.unseen == 0 && r.channel !in s.open)
            && (Enabled(p, s, KeepAlive(name)) <==> r.phase.Waiting? && r.mode.Sse?)
            && (Enabled(p, s, IdleClose(name)) <==> r.phase.Waiting? && r.mode.Sse?)
            && (Enabled(p, s, Timeout(name)) <==> r.phase.Waiting? && r.mode.LongPoll?)
  {}

  /** Everyone who waits on the stream's channel can be woken. */
  ghost predicate AllAwakable(p: Setup, s: State, channel: Option<nat>) {
    forall n :: n in s.readers && s.readers[n].phase.Waiting? && Some(s.readers[n].channel) == channel ==>
      Enabled(p, s, Wake(n))
  }

  /** A notification reaches everyone who waits on the channel and nobody else, and is sent once. */
  lemma NotifyWakes(p: Setup, s: State, w: string)
    requires Enabled(p, s, Notify(w))
    ensures var s' := Perform(p, s, Notify(w)); AllAwakable(p, s', s.channel) && w !in s'.writers
    ensures forall n :: n in s.readers && Some(s.readers[n].channel) != s.channel ==>
              n in Perform(p, s, Notify(w)).readers && Perform(p, s, Notify(w)).readers[n] == s.readers[n]
  {}

  /** A call that changes a surviving stream and is not silent wakes its readers, on ACID in a step of its own. */
  lemma CallTells(p: Setup, s: State, w: string, e: Event)
    requires Enabled(p, s, Call(w, e)) && Survives(p.name, s.store, e, Result(p, s, e))
    requires var log, log' := s.store[p.name], Result(p, s, e).store[p.name];
             log'.messages != log.messages || log'.closed != log.closed
    ensures var s' := Perform(p, s, Call(w, e));
            || Hushes(p, s, e, Result(p, s, e))
            || (if p.backend == Acid then Enabled(p, s', Notify(w)) else AllAwakable(p, s', s.channel))
  {
    CallQuiet(p, s, e);
    NextEvolves(p.backend != Acid, p.maxStream, p.name, s.store, Stored(p.backend, e));
  }

  /**
    Once a stream is gone its channel is given up, so that the channel closes when nobody else holds it: with
    the entry in memory and file, on ACID by a step of the caller that ended this life of the stream.
   */
  lemma ChannelGivenUp(p: Setup, s: State, w: string, e: Event)
    requires Enabled(p, s, Call(w, e)) && e.Commit?
    ensures var s' := Perform(p, s, Call(w, e));
            if p.backend != Acid then p.name !in s'.store ==> s'.channel == None
            else
              && (Enabled(p, s', Drop(w)) <==>
                    && p.name in s.store && !Survives(p.name, s.store, e, Result(p, s, e))
                    && (e.call.Delete? || SumLen(s.store[p.name].messages) > 0))
              && (Enabled(p, s', Drop(w)) ==> Perform(p, s', Drop(w)).channel == None)
  {
    if p.backend == Acid { DropsExactly(p, s, e); }
  }

  /** A reader that is woken reads once more; it goes on waiting when it streams and the stream is there and open. */
  lemma WakeThenRead(p: Setup, s: State, name: string, now: int)
    requires Enabled(p, s, Wake(name))
    ensures var woken := Perform(p, s, Wake(name));
            && Wakeups(s.readers[name].unseen) == Wakeups(woken.readers[name].unseen) + 1
            && Enabled(p, woken, ReRead(name, now))
            && var r := Perform(p, woken, ReRead(name, now)).readers[name];
               r.phase == if s.readers[name].mode.Sse? && Present(p, s, now) && !s.store[p.name].closed
                          then Waiting else Ended
  {
    var woken := Perform(p, s, Wake(name));
    StopsExactly(p, woken, ReRead(name, now), name);
  }

  /** Over every run, no reader on the channel its stream notifies now finds it closed. */
  lemma ChannelStaysOpen(p: Setup, steps: seq<Step>, name: string)
    requires Run(p, steps).Some? && name in Run(p, steps).value.readers
    requires Run(p, steps).value.channel == Some(Run(p, steps).value.readers[name].channel)
    ensures !Enabled(p, Run(p, steps).value, ChannelClosed(name))
  {
    RunKeeps(p, steps);
  }

  /** When its channel has closed, a reader reads a last time. */
  lemma ClosedChannelEnds(p: Setup, s: State, name: string, now: int)
    requires Enabled(p, s, ChannelClosed(name))
    ensures var closed := Perform(p, s, ChannelClosed(name));
            && Enabled(p, closed, ReRead(name, now))
            && Perform(p, closed, ReRead(name, now)).readers[name].phase.Ended?
  {
    StopsExactly(p, Perform(p, s, ChannelClosed(name)), ReRead(name, now), name);
  }

  /** A long-poll that times out answers without content, with the tail and closed mark of the stream as it is then. */
  lemma TimeoutAnswers(p: Setup, s: State, name: string, now: int)
    requires Enabled(p, s, Timeout(name)) && Present(p, s, now)
    ensures var given := Perform(p, s, Timeout(name));
            && Enabled(p, given, TimeoutRead(name, now))
            && var r, log := Perform(p, given, TimeoutRead(name, now)).readers[name], s.store[p.name];
               r.phase.Ended? && r.sent == s.readers[name].sent + [Empty(NextOffset(log.messages), log.closed)]
  {
    ReadNowTells(p, Perform(p, s, Timeout(name)), s.readers[name].tail, now);
  }
}
