/**
  The validation helpers every backend shares (src/storage/mod.rs).
 */
module Validation {
  import opened Types

  /** Seven days. */
  const PRODUCER_STATE_TTL: int := 7 * 24 * 60 * 60 * 1_000_000_000

  predicate Expired(config: StreamConfig, now: int) {
    config.expiresAt.Some? && now >= config.expiresAt.value
  }

  /** Configuration equality ignores `expiresAt` when it was derived from a TTL. */
  predicate SameConfig(a: StreamConfig, b: StreamConfig) {
    && a.contentType == b.contentType
    && a.ttlSeconds == b.ttlSeconds
    && a.createdClosed == b.createdClosed
    && (a.ttlSeconds.Some? || a.expiresAt == b.expiresAt)
  }

  lemma SameConfigIsEquivalence(a: StreamConfig, b: StreamConfig, c: StreamConfig)
    ensures SameConfig(a, a)
    ensures SameConfig(a, b) ==> SameConfig(b, a)
    ensures SameConfig(a, b) && SameConfig(b, c) ==> SameConfig(a, c)
  {}

  function LowerAscii(c: char): char {
    if 'A' <= c <= 'Z' then c - 'A' + 'a' else c
  }

  predicate EqIgnoreAsciiCase(a: string, b: string) {
    |a| == |b| && forall i :: 0 <= i < |a| ==> LowerAscii(a[i]) == LowerAscii(b[i])
  }

  /** Lexicographic order of Stream-Seq values. */
  predicate LexLess(a: string, b: string) {
    if b == [] then false
    else if a == [] then true
    else a[0] < b[0] || (a[0] == b[0] && LexLess(a[1..], b[1..]))
  }

  lemma {:induction false} LexLessTransitive(a: string, b: string, c: string)
    requires LexLess(a, b) && LexLess(b, c)
    ensures LexLess(a, c)
  {
    if a != [] && a[0] == b[0] && b[0] == c[0] {
      LexLessTransitive(a[1..], b[1..], c[1..]);
    }
  }

  lemma {:induction false} LexLessIrreflexive(a: string)
    ensures !LexLess(a, a)
  {
    if a != [] { LexLessIrreflexive(a[1..]); }
  }

  lemma {:induction false} LexLessTotal(a: string, b: string)
    ensures LexLess(a, b) || LexLess(b, a) || a == b
  {
    if a != [] && b != [] && a[0] == b[0] {
      LexLessTotal(a[1..], b[1..]);
      assert a == [a[0]] + a[1..] && b == [b[0]] + b[1..];
    }
  }

  lemma LexLessStrict(a: string, b: string)
    ensures LexLess(a, b) <==> !(LexLess(b, a) || b == a)
  {
    LexLessTotal(a, b);
    LexLessIrreflexive(a);
    if LexLess(a, b) && LexLess(b, a) { LexLessTransitive(a, b, a); }
  }

  /** `b` comes after `a`: it goes on where `a` ends, or has the larger character where they first differ. */
  ghost predicate ComesAfter(a: string, b: string) {
    exists k :: DiffersAt(a, b, k)
  }

  predicate DiffersAt(a: string, b: string, k: nat) {
    k <= |a| && k < |b| && a[..k] == b[..k] && (k == |a| || a[k] < b[k])
  }

  lemma {:induction false} LexLessExactly(a: string, b: string)
    ensures LexLess(a, b) <==> ComesAfter(a, b)
  {
    if a == [] {
      if b != [] { assert DiffersAt(a, b, 0); }
    } else if b != [] {
      LexLessExactly(a[1..], b[1..]);
      if a[0] < b[0] { assert DiffersAt(a, b, 0); }
      if a[0] == b[0] { HeadEqual(a, b); }
    }
  }

  lemma HeadEqual(a: string, b: string)
    requires a != [] && b != [] && a[0] == b[0]
    ensures ComesAfter(a, b) <==> ComesAfter(a[1..], b[1..])
  {
    if ComesAfter(a, b) {
      var k: nat :| DiffersAt(a, b, k);
      assert k > 0;
      assert a[1..][..k - 1] == a[..k][1..] && b[1..][..k - 1] == b[..k][1..];
      assert DiffersAt(a[1..], b[1..], k - 1);
    }
    if ComesAfter(a[1..], b[1..]) {
      var k: nat :| DiffersAt(a[1..], b[1..], k);
      assert a[..k + 1] == [a[0]] + a[1..][..k] && b[..k + 1] == [b[0]] + b[1..][..k];
      assert DiffersAt(a, b, k + 1);
    }
  }

  datatype SeqCheck = SeqOk(pending: Option<string>) | SeqRejected(error: Error)

  /** A new Stream-Seq is refused when it is not above the last one. */
  function ValidateSeq(last: Option<string>, new_: Option<string>): SeqCheck {
    if new_.Some? && last.Some? && (LexLess(new_.value, last.value) || new_.value == last.value)
    then SeqRejected(SeqOrderingViolation(last.value, new_.value))
    else SeqOk(new_)
  }

  /** The Stream-Seq in force after a call whose pending value is `pending`. */
  function CommitSeq(last: Option<string>, pending: Option<string>): Option<string> {
    if pending.Some? then pending else last
  }

  type Producers = map<string, ProducerState>

  predicate Stale(p: ProducerState, now: int) {
    p.updatedAt <= now - PRODUCER_STATE_TTL
  }

  /** `cleanup_stale_producers`: the entries that survive the retain. */
  function Live(ps: Producers, now: int): Producers {
    map id | id in ps && !Stale(ps[id], now) :: ps[id]
  }

  /** Evicting at an earlier time and then at a later one is evicting at the later one. */
  lemma LiveCompose(ps: Producers, earlier: int, later: int)
    requires earlier <= later
    ensures Live(Live(ps, earlier), later) == Live(ps, later)
  {}

  datatype ProducerCheck = Accept | Repeat(epoch: nat, seqNo: nat) | Refuse(error: Error)

  /** Epoch fencing, then duplicates, then the closed flag, then gaps. */
  function CheckProducer(existing: Option<ProducerState>, p: ProducerHeaders, closed: bool): ProducerCheck {
    if existing.Some? then
      var st := existing.value;
      if p.epoch < st.epoch then Refuse(EpochFenced(st.epoch, p.epoch))
      else if p.epoch == st.epoch && p.seqNo <= st.lastSeq then Repeat(st.epoch, st.lastSeq)
      else if closed then Refuse(StreamClosed)
      else if p.epoch > st.epoch then
        if p.seqNo != 0 then Refuse(InvalidProducerState) else Accept
      else if p.seqNo > st.lastSeq + 1 then Refuse(SequenceGap(st.lastSeq + 1, p.seqNo))
      else Accept
    else if closed then Refuse(StreamClosed)
    else if p.seqNo != 0 then Refuse(SequenceGap(0, p.seqNo))
    else Accept
  }

  function Lookup(ps: Producers, id: string): Option<ProducerState> {
    if id in ps then Some(ps[id]) else None
  }

  /**
    Which requests are accepted, said without the order of the checks: the stream is
    open and the request is the first of a new producer, the first of a higher epoch,
    or the immediate successor within the current epoch.
   */
  lemma AcceptedExactly(existing: Option<ProducerState>, p: ProducerHeaders, closed: bool)
    ensures CheckProducer(existing, p, closed) == Accept <==>
            && !closed
            && (match existing
                case None => p.seqNo == 0
                case Some(st) =>
                  || (p.epoch > st.epoch && p.seqNo == 0)
                  || (p.epoch == st.epoch && p.seqNo == st.lastSeq + 1))
  {}

  /** The state of a producer the server remembers is above the request, or at it. */
  predicate AtOrAbove(st: ProducerState, p: ProducerHeaders) {
    st.epoch > p.epoch || (st.epoch == p.epoch && st.lastSeq >= p.seqNo)
  }

  /**
    Every answer but acceptance, said without the order of the checks: a known pair is fenced in an older
    epoch and a duplicate in the current one, closed or not; any other is refused on a closed stream; on an
    open one it must start its epoch at zero, or follow without a gap.
   */
  lemma RefusedExactly(existing: Option<ProducerState>, p: ProducerHeaders, closed: bool)
    ensures var c := CheckProducer(existing, p, closed);
            var known := existing.Some? && AtOrAbove(existing.value, p);
            && (c.Refuse? && c.error.EpochFenced? <==> known && p.epoch < existing.value.epoch)
            && (c.Repeat? <==> known && p.epoch == existing.value.epoch)
            && (c == Refuse(StreamClosed) <==> !known && closed)
            && (c == Refuse(InvalidProducerState) <==>
                  !closed && existing.Some? && p.epoch > existing.value.epoch && p.seqNo > 0)
            && (c.Refuse? && c.error.SequenceGap? <==>
                  !closed && if existing.None? then p.seqNo > 0
                             else p.epoch == existing.value.epoch && p.seqNo > existing.value.lastSeq + 1)
            && (c.Refuse? && c.error.EpochFenced? ==> c.error == EpochFenced(existing.value.epoch, p.epoch))
            && (c.Repeat? ==> c == Repeat(existing.value.epoch, existing.value.lastSeq))
            && (c.Refuse? && c.error.SequenceGap? ==>
                  c.error == SequenceGap(if existing.None? then 0 else existing.value.lastSeq + 1, p.seqNo))
  {}

  /** The same letter, one of them perhaps a capital. */
  predicate SameLetter(x: char, y: char) {
    || x == y
    || ('A' <= x <= 'Z' && y as int == x as int + 32)
    || ('A' <= y <= 'Z' && x as int == y as int + 32)
  }

  /** Content types agree when they have the same letters in the same places. */
  lemma SameTypeExactly(a: string, b: string)
    ensures EqIgnoreAsciiCase(a, b) <==> |a| == |b| && forall i :: 0 <= i < |a| ==> SameLetter(a[i], b[i])
  {
    forall i | 0 <= i < |a| && i < |b| ensures LowerAscii(a[i]) == LowerAscii(b[i]) <==> SameLetter(a[i], b[i]) {}
  }

  /** A producer is remembered exactly while its last accepted append is less than 604800 seconds old. */
  lemma RememberedExactly(ps: Producers, id: string, now: int)
    ensures id in Live(ps, now) <==> id in ps && now - ps[id].updatedAt < 604_800 * 1_000_000_000
    ensures id in Live(ps, now) ==> Live(ps, now)[id] == ps[id]
  {}
}
