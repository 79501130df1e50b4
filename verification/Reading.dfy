/**
  What the read handlers build on a storage read (src/handlers/get.rs): resumption from the
  returned offset, entity tags, and the branches of catch-up and long-poll reads.
 */
module Reading {
  import opened Types
  import opened Validation
  import opened LogSpec
  import opened Effects
  import opened Runs
  import opened OffsetCodec

  // ------------------------------------------------------------- resumption

  /** The messages a read from `from` returns. */
  function ReadFrom(ms: seq<Bytes>, from: Offset): seq<Bytes> {
    ms[StartIndex(ms, from)..]
  }

  /** The offset after a log leads a later read to exactly what was added since. */
  lemma ResumeAtTail(ms: seq<Bytes>, ms': seq<Bytes>)
    requires IsPrefix(ms, ms')
    ensures ReadFrom(ms', NextOffset(ms)) == ms'[|ms|..]
  {}

  /** The offset lies at or before the tail of `ms`; the sentinel `now` does not. */
  predicate NotPastTail(ms: seq<Bytes>, o: Offset) {
    o.Start? || (o.At? && !Before(NextOffset(ms), o))
  }

  lemma StartKept(ms: seq<Bytes>, ms': seq<Bytes>, o: Offset)
    requires IsPrefix(ms, ms')
    ensures NotPastTail(ms, o) ==> StartIndex(ms', o) == StartIndex(ms, o)
    ensures !NotPastTail(ms, o) && |ms| < |ms'| ==> StartIndex(ms', o) > StartIndex(ms, o) == |ms|
  {
    if o.At? && o.readSeq <= |ms| {
      assert ms'[..o.readSeq] == ms[..o.readSeq];
      if o.readSeq == |ms| { assert ms[..|ms|] == ms; }
    }
  }

  /**
    Reading and resuming later from the returned offset gives what one later read gives,
    exactly when nothing was added in between or the offset was not past the tail.
   */
  lemma ResumeExactly(ms: seq<Bytes>, ms': seq<Bytes>, o: Offset)
    requires IsPrefix(ms, ms')
    ensures ReadFrom(ms, o) + ReadFrom(ms', NextOffset(ms)) == ReadFrom(ms', o) <==> ms' == ms || NotPastTail(ms, o)
  {
    ResumeAtTail(ms, ms');
    StartKept(ms, ms', o);
    var k := StartIndex(ms, o);
    assert ms[k..] + ms'[|ms|..] == ms'[k..] by {
      assert ms' == ms + ms'[|ms|..];
    }
    if |ms'| == |ms| { assert ms' == ms; }
  }

  lemma {:induction false} GrowsThroughout(keep: bool, maxStream: nat, name: string, s: Store, es: seq<Event>, k: nat)
    requires name in s && SurvivesAll(keep, maxStream, name, s, es) && k <= |es|
    ensures var s' := After(keep, maxStream, s, es[..k]);
            name in s' && IsPrefix(s[name].messages, s'[name].messages) && (s[name].closed ==> s'[name].closed)
  {
    if k > 0 {
      GrowsThroughout(keep, maxStream, name, s, es, k - 1);
      assert es[..k][..k - 1] == es[..k - 1];
      assert SurvivesAt(keep, maxStream, name, s, es, k - 1);
      var before := After(keep, maxStream, s, es[..k - 1]);
      NextEvolves(keep, maxStream, name, before, es[k - 1]);
      var out := Next(keep, maxStream, before, es[k - 1]);
      SurvivorGrows(name, before[name], es[k - 1], out.reply, out.store[name]);
      PrefixTransitive(s[name].messages, before[name].messages, out.store[name].messages);
    }
  }

  lemma PrefixTransitive(a: seq<Bytes>, b: seq<Bytes>, c: seq<Bytes>)
    requires IsPrefix(a, b) && IsPrefix(b, c)
    ensures IsPrefix(a, c)
  {
    assert c[..|a|] == c[..|b|][..|a|];
  }

  /** Through any run in which the stream survives, no message is skipped or repeated by resuming. */
  lemma ResumeOverRun(keep: bool, maxStream: nat, name: string, s: Store, es: seq<Event>, o: Offset)
    requires name in s && SurvivesAll(keep, maxStream, name, s, es) && NotPastTail(s[name].messages, o)
    ensures var s' := After(keep, maxStream, s, es);
            && name in s'
            && var first, whole := ReadLog(s[name], o), ReadLog(s'[name], o);
               var more := ReadLog(s'[name], first.next);
               first.messages + more.messages == whole.messages && more.next == whole.next
               && more.closed == whole.closed
  {
    GrowsThroughout(keep, maxStream, name, s, es, |es|);
    assert es[..|es|] == es;
    ResumeExactly(s[name].messages, After(keep, maxStream, s, es)[name].messages, o);
  }

  // ------------------------------------------------------------- entity tags

  const QUOTE: byte := 34
  const COLON: byte := 58
  const CLOSED_MARK: seq<byte> := [58, 99]

  /** `generate_etag`; the start offset is printed as the client wrote it. */
  function Etag(start: Offset, next: Offset, closed: bool): seq<byte>
    requires Fits64(start) && Fits64(next)
  {
    [QUOTE] + Show(start) + [COLON] + Show(next) + (if closed then CLOSED_MARK else []) + [QUOTE]
  }

  lemma EtagParts(start: Offset, next: Offset, closed: bool)
    requires Fits64(start) && Fits64(next) && next.At?
    ensures var t, n := Etag(start, next, closed), |Show(start)|;
            && |t| == n + 36 + (if closed then 2 else 0)
            && t[1..n + 1] == Show(start) && t[n + 2..n + 35] == Show(next)
    ensures |Show(start)| in {2, 3, 33}
  {
    assert |Show(next)| == 33;
    SliceParts([QUOTE], Show(start), [COLON], Show(next), (if closed then CLOSED_MARK else []) + [QUOTE]);
    assert Etag(start, next, closed) ==
      [QUOTE] + Show(start) + [COLON] + Show(next) + ((if closed then CLOSED_MARK else []) + [QUOTE]);
  }

  lemma SliceParts(q: seq<byte>, a: seq<byte>, c: seq<byte>, b: seq<byte>, end: seq<byte>)
    requires |q| == 1 && |c| == 1
    ensures var t := q + a + c + b + end;
            && |t| == |a| + |b| + |end| + 2
            && t[1..|a| + 1] == a && t[|a| + 2..|a| + 2 + |b|] == b
  {}

  /** As the header shows it. */
  lemma EtagPrinted(start: Offset, next: Offset, closed: bool)
    requires Fits64(start) && Fits64(next)
    ensures Chars(Etag(start, next, closed)) ==
            "\"" + Chars(Show(start)) + ":" + Chars(Show(next)) + (if closed then ":c\"" else "\"")
  {
    var q, c: seq<byte>, end := [QUOTE], [COLON], (if closed then CLOSED_MARK else []) + [QUOTE];
    CharsConcat(q, Show(start));
    CharsConcat(q + Show(start), c);
    CharsConcat(q + Show(start) + c, Show(next));
    CharsConcat(q + Show(start) + c + Show(next), end);
    assert Etag(start, next, closed) == q + Show(start) + c + Show(next) + end;
    MarksPrinted(closed);
  }

  lemma MarksPrinted(closed: bool)
    ensures Chars([QUOTE]) == "\"" && Chars([COLON]) == ":"
    ensures Chars((if closed then CLOSED_MARK else []) + [QUOTE]) == if closed then ":c\"" else "\""
  {}

  /** Different start, next offset or closed mark give different tags. */
  lemma EtagInjective(a: Offset, n: Offset, c: bool, a': Offset, n': Offset, c': bool)
    requires Fits64(a) && Fits64(n) && n.At? && Fits64(a') && Fits64(n') && n'.At?
    requires Etag(a, n, c) == Etag(a', n', c')
    ensures a == a' && n == n' && c == c'
  {
    EtagParts(a, n, c);
    EtagParts(a', n', c');
    ShowInjective(a, a');
    ShowInjective(n, n');
  }

  function TagOf(log: StreamLog, o: Offset): seq<byte>
    requires Fits64(o) && Fits64(NextOffset(log.messages))
  {
    var r := ReadLog(log, o);
    Etag(o, r.next, r.closed && r.atTail)
  }

  /**
    Over one life of a stream, two reads carry the same tag exactly when they start at the same
    offset and the stream has neither grown nor been closed in between.
   */
  lemma EtagSound(keep: bool, maxStream: nat, name: string, s: Store, es: seq<Event>, o: Offset, o': Offset)
    requires name in s && SurvivesAll(keep, maxStream, name, s, es)
    requires name in After(keep, maxStream, s, es) && Fits64(NextOffset(After(keep, maxStream, s, es)[name].messages))
    requires Fits64(NextOffset(s[name].messages)) && Fits64(o) && Fits64(o')
    ensures var log' := After(keep, maxStream, s, es)[name];
            TagOf(s[name], o) == TagOf(log', o') <==>
              o == o' && log'.messages == s[name].messages && log'.closed == s[name].closed
  {
    var log' := After(keep, maxStream, s, es)[name];
    GrowsThroughout(keep, maxStream, name, s, es, |es|);
    assert es[..|es|] == es;
    if TagOf(s[name], o) == TagOf(log', o') {
      EtagInjective(o, NextOffset(s[name].messages), s[name].closed, o', NextOffset(log'.messages), log'.closed);
      assert log'.messages == log'.messages[..|s[name].messages|];
    }
  }

  // ------------------------------------------------- catch-up and long-poll

  datatype Response =
    | NotModified(next: Offset)
    | Data(messages: seq<Bytes>, next: Offset, closed: bool, etag: seq<byte>)
    | NoContent(next: Offset, closed: bool)

  /** `read_catch_up`. */
  function CatchUp(log: StreamLog, o: Offset, ifNoneMatch: Option<seq<byte>>): Response
    requires Fits64(o) && Fits64(NextOffset(log.messages))
  {
    var r := ReadLog(log, o);
    if ifNoneMatch == Some(TagOf(log, o)) then NotModified(r.next)
    else Data(r.messages, r.next, r.closed && r.atTail, TagOf(log, o))
  }

  /** The part of `read_long_poll` before it waits; None means that it waits. */
  function Immediate(log: StreamLog, o: Offset, ifNoneMatch: Option<seq<byte>>): Option<Response>
    requires Fits64(o) && Fits64(NextOffset(log.messages))
  {
    var r := ReadLog(log, o);
    if ifNoneMatch == Some(TagOf(log, o)) then Some(NotModified(r.next))
    else if r.messages != [] then Some(Data(r.messages, r.next, r.closed && r.atTail, TagOf(log, o)))
    else if r.closed && r.atTail then Some(NoContent(r.next, true))
    else None
  }

  /** `handle_long_poll_wake`, from the tail the first read returned. */
  function AfterWake(log: StreamLog, tail: Offset): Response
    requires Fits64(tail) && Fits64(NextOffset(log.messages))
  {
    var r := ReadLog(log, tail);
    if r.messages == [] then NoContent(r.next, r.closed && r.atTail)
    else Data(r.messages, r.next, r.closed && r.atTail, TagOf(log, tail))
  }

  /** The timeout branch reads again and reports the new position, but not the messages. */
  function AfterTimeout(log: StreamLog, tail: Offset): Response {
    var r := ReadLog(log, tail);
    NoContent(r.next, r.closed && r.atTail)
  }

  function Body(r: Response): seq<Bytes> {
    if r.Data? then r.messages else []
  }

  /** The response carries everything from index `k` on and points to the tail after it. */
  predicate Complete(r: Response, log: StreamLog, k: nat)
    requires k <= |log.messages|
  {
    Body(r) == log.messages[k..] && r.next == NextOffset(log.messages)
  }

  predicate LaterLog(log: StreamLog, log': StreamLog) {
    IsPrefix(log.messages, log'.messages) && (log.closed ==> log'.closed)
  }

  /**
    A long-poll that answers at once or is woken delivers everything from where the request
    stands to the tail, and points behind it; this includes requests from `now`.
   */
  lemma LongPollComplete(log: StreamLog, log': StreamLog, o: Offset, ifNoneMatch: Option<seq<byte>>)
    requires Fits64(o) && Fits64(NextOffset(log.messages)) && Fits64(NextOffset(log'.messages)) && LaterLog(log, log')
    ensures var k, now := StartIndex(log.messages, o), Immediate(log, o, ifNoneMatch);
            if now.Some? then now.value.NotModified? || Complete(now.value, log, k)
            else k <= |log'.messages| && Complete(AfterWake(log', NextOffset(log.messages)), log', k)
  {
    ImmediateComplete(log, o, ifNoneMatch);
    if Immediate(log, o, ifNoneMatch).None? {
      ResumeAtTail(log.messages, log'.messages);
      WakeComplete(log', NextOffset(log.messages), |log.messages|);
    }
  }

  /** The answer at once is complete; a long-poll waits only at the tail. */
  lemma ImmediateComplete(log: StreamLog, o: Offset, ifNoneMatch: Option<seq<byte>>)
    requires Fits64(o) && Fits64(NextOffset(log.messages))
    ensures var k, now := StartIndex(log.messages, o), Immediate(log, o, ifNoneMatch);
            if now.Some? then now.value.NotModified? || Complete(now.value, log, k) else k == |log.messages|
  {}

  lemma WakeComplete(log: StreamLog, tail: Offset, k: nat)
    requires Fits64(tail) && Fits64(NextOffset(log.messages)) && k <= |log.messages|
    requires ReadFrom(log.messages, tail) == log.messages[k..]
    ensures Complete(AfterWake(log, tail), log, k)
  {}

  /** A timed-out long-poll loses nothing exactly when nothing was added since its first read. */
  lemma TimeoutCompleteExactly(log: StreamLog, log': StreamLog, o: Offset, ifNoneMatch: Option<seq<byte>>)
    requires Fits64(o) && Fits64(NextOffset(log.messages)) && LaterLog(log, log')
    requires Immediate(log, o, ifNoneMatch).None?
    ensures var k := StartIndex(log.messages, o);
            && k <= |log'.messages|
            && (Complete(AfterTimeout(log', NextOffset(log.messages)), log', k) <==> log'.messages == log.messages)
  {
    ResumeAtTail(log.messages, log'.messages);
    assert log'.messages[..|log.messages|] == log.messages;
  }

  /** A client that follows a timed-out answer never sees the messages added while it waited. */
  lemma TimeoutLosesMessages(log: StreamLog, m: Bytes, more: seq<Bytes>)
    ensures var log', log'' := log.(messages := log.messages + [m]), log.(messages := log.messages + [m] + more);
            && AfterTimeout(log', NextOffset(log.messages)).NoContent?
            && ReadFrom(log''.messages, AfterTimeout(log', NextOffset(log.messages)).next) == more
  {
    var ms := log.messages + [m];
    ResumeAtTail(ms, ms + more);
  }

  /**
    With the tag of an earlier read of the same stream, a catch-up read answers 304 exactly when
    the stream has neither grown nor been closed; otherwise it delivers all that a plain read does.
   */
  lemma NotModifiedHidesNothing(keep: bool, maxStream: nat, name: string, s: Store, es: seq<Event>, o: Offset)
    requires name in s && SurvivesAll(keep, maxStream, name, s, es)
    requires name in After(keep, maxStream, s, es) && Fits64(NextOffset(After(keep, maxStream, s, es)[name].messages))
    requires Fits64(NextOffset(s[name].messages)) && Fits64(o)
    ensures var log' := After(keep, maxStream, s, es)[name];
            var answer := CatchUp(log', o, Some(TagOf(s[name], o)));
            && (answer.NotModified? <==> log'.messages == s[name].messages && log'.closed == s[name].closed)
            && (answer.Data? <==> !answer.NotModified?)
            && (answer.Data? ==> Complete(answer, log', StartIndex(log'.messages, o)) && answer.closed == log'.closed)
  {
    EtagSound(keep, maxStream, name, s, es, o, o);
  }

  /** Every message of the log lies before the requested position. */
  ghost predicate NothingFrom(ms: seq<Bytes>, o: Offset) {
    forall i :: 0 <= i < |ms| ==> Before(OffsetOf(ms, i), o)
  }

  lemma NothingReadExactly(ms: seq<Bytes>, o: Offset)
    ensures ReadFrom(ms, o) == [] <==> NothingFrom(ms, o)
  {
    forall i | 0 <= i < |ms| ensures i >= StartIndex(ms, o) <==> !Before(OffsetOf(ms, i), o) {
      StartIndexExact(ms, o, i);
    }
    var k := StartIndex(ms, o);
    if k < |ms| { assert !Before(OffsetOf(ms, k), o); }
  }

  /**
    A long-poll waits exactly when its tag does not match, nothing lies at or after the requested position,
    and the stream is open; on a closed stream it answers at once.
   */
  lemma WaitsExactly(log: StreamLog, o: Offset, ifNoneMatch: Option<seq<byte>>)
    requires Fits64(o) && Fits64(NextOffset(log.messages))
    ensures Immediate(log, o, ifNoneMatch).None? <==>
            ifNoneMatch != Some(TagOf(log, o)) && NothingFrom(log.messages, o) && !log.closed
  {
    NothingReadExactly(log.messages, o);
  }

  /** The answer points behind the log and, unless it is a 304, says closed exactly when the log is. */
  predicate Marked(r: Response, log: StreamLog) {
    r.next == NextOffset(log.messages) && (!r.NotModified? ==> (r.closed <==> log.closed))
  }

  /** Every answer of a catch-up or long-poll read is marked with the position and state of the log it read. */
  lemma AnswersMarked(log: StreamLog, o: Offset, ifNoneMatch: Option<seq<byte>>)
    requires Fits64(o) && Fits64(NextOffset(log.messages))
    ensures Marked(CatchUp(log, o, ifNoneMatch), log)
    ensures Immediate(log, o, ifNoneMatch).Some? ==> Marked(Immediate(log, o, ifNoneMatch).value, log)
    ensures Marked(AfterWake(log, o), log) && Marked(AfterTimeout(log, o), log)
  {}

  /** What was asked for: the tag that came with data makes the same request answer 304 while the log stays. */
  lemma TagComesBack(log: StreamLog, o: Offset, ifNoneMatch: Option<seq<byte>>)
    requires Fits64(o) && Fits64(NextOffset(log.messages))
    ensures var r := CatchUp(log, o, ifNoneMatch);
            r.Data? ==> CatchUp(log, o, Some(r.etag)).NotModified?
    ensures var r := Immediate(log, o, ifNoneMatch);
            r.Some? && r.value.Data? ==> CatchUp(log, o, Some(r.value.etag)).NotModified?
    ensures var r := AfterWake(log, o);
            r.Data? ==> CatchUp(log, o, Some(r.etag)).NotModified?
  {}

  // ------------------------------------------------------ tags across lives

  /**
    Any two logs, of one stream or of two lives of its name: the tag of a read of one makes the same read
    of the other answer 304 exactly when message count, byte total and closed flag agree.
   */
  lemma NotModifiedExactly(log: StreamLog, log': StreamLog, o: Offset)
    requires Fits64(o) && Fits64(NextOffset(log.messages)) && Fits64(NextOffset(log'.messages))
    ensures CatchUp(log', o, Some(TagOf(log, o))).NotModified? <==> TagOf(log, o) == TagOf(log', o)
    ensures TagOf(log, o) == TagOf(log', o) <==>
              |log.messages| == |log'.messages| && SumLen(log.messages) == SumLen(log'.messages)
              && log.closed == log'.closed
  {
    if TagOf(log, o) == TagOf(log', o) {
      EtagInjective(o, NextOffset(log.messages), log.closed, o, NextOffset(log'.messages), log'.closed);
    }
  }

  /** The run that creates stream "s" holding `m`, deletes it and creates it again holding `m'`. */
  function Recreation(config: StreamConfig, m: Bytes, m': Bytes): seq<Event> {
    [Commit(CreateWithData("s", config, [m], false), 0), Commit(Delete("s"), 0),
     Commit(CreateWithData("s", config, [m'], false), 0)]
  }

  lemma RecreationRuns(config: StreamConfig, m: Bytes, m': Bytes, maxStream: nat)
    requires |m| <= maxStream && |m'| <= maxStream
    ensures var es := Recreation(config, m, m');
            && After(false, maxStream, map[], es[..1]) == map["s" := EmptyLog(config).(messages := [m])]
            && After(false, maxStream, map[], es) == map["s" := EmptyLog(config).(messages := [m'])]
  {
    var es := Recreation(config, m, m');
    SumLenOne(m);
    SumLenOne(m');
    assert es[..1][..0] == [] && es[..2][..1] == es[..1] && es[..3] == es && es[..3][..2] == es[..2];
    assert After(false, maxStream, map[], es[..1]) == map["s" := EmptyLog(config).(messages := [m])];
    assert After(false, maxStream, map[], es[..2]) == map[];
  }

  /** After deletion and re-creation, an equally long message goes unnoticed: the old tag still answers 304. */
  lemma EtagBlindAcrossLives(m: Bytes, m': Bytes, config: StreamConfig)
    requires m != m' && |m| == |m'| < TWO64
    ensures var es := Recreation(config, m, m');
            var s, s' := After(false, |m|, map[], es[..1]), After(false, |m|, map[], es);
            && "s" in s && "s" in s' && ReadLog(s["s"], Start).messages == [m]
            && ReadLog(s'["s"], Start).messages == [m']
            && Fits64(NextOffset(s["s"].messages)) && Fits64(NextOffset(s'["s"].messages))
            && CatchUp(s'["s"], Start, Some(TagOf(s["s"], Start))).NotModified?
  {
    RecreationRuns(config, m, m', |m|);
    SumLenOne(m);
    SumLenOne(m');
    NotModifiedExactly(EmptyLog(config).(messages := [m]), EmptyLog(config).(messages := [m']), Start);
  }
}
