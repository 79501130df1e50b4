/**
  Cursor generation (src/protocol/cursor.rs): a position packed into one number
  acts as a floor under a global counter advanced by compare-and-swap.
 */
module Cursor {
  import opened Types
  import opened Bits

  const TWO27: nat := 0x800_0000
  const TWO37: nat := 0x20_0000_0000

  // ------------------------------------------------------------- packing

  /** `(read_seq << 27) | byte_offset` on 64-bit words. */
  function Pack(readSeq: nat, byteOffset: nat): nat {
    Or((readSeq * TWO27) % TWO64, byteOffset)
  }

  lemma Pow2At27()
    ensures Pow2(27) == TWO27
  {
    assert Pow2(9) == 512 by { assert Pow2(5) == 32; }
    assert Pow2(18) == 0x4_0000 by { assert Pow2(14) == 0x4000; }
    assert Pow2(22) == 0x40_0000;
  }

  lemma {:induction false} OrBelow(a: nat, b: nat, k: nat)
    requires a < Pow2(k) && b < Pow2(k)
    ensures Or(a, b) < Pow2(k)
  {
    if k > 0 && (a > 0 || b > 0) { OrBelow(a / 2, b / 2, k - 1); }
  }

  lemma Pow2At64()
    ensures Pow2(64) == TWO64
  {
    Pow2At27();
    assert Pow2(32) == TWO32 by { assert Pow2(30) == 0x4000_0000; }
    assert Pow2(37) == TWO37;
    assert Pow2(42) == 0x400_0000_0000;
    assert Pow2(47) == 0x8000_0000_0000;
    assert Pow2(52) == 0x10_0000_0000_0000;
    assert Pow2(57) == 0x200_0000_0000_0000;
    assert Pow2(62) == 0x4000_0000_0000_0000;
  }

  lemma PackInRange(readSeq: nat, byteOffset: nat)
    requires readSeq < TWO37 && byteOffset < TWO27
    ensures Pack(readSeq, byteOffset) == readSeq * TWO27 + byteOffset
  {
    Pow2At27();
    OrDisjoint(readSeq, byteOffset, 27);
  }

  /** Packing loses nothing exactly when the byte offset is below 2^27 and the sequence below 2^37. */
  lemma PackFaithfulExactly(readSeq: nat, byteOffset: nat)
    requires readSeq < TWO64 && byteOffset < TWO64
    ensures Pack(readSeq, byteOffset) / TWO27 == readSeq && Pack(readSeq, byteOffset) % TWO27 == byteOffset
            <==> readSeq < TWO37 && byteOffset < TWO27
  {
    if readSeq < TWO37 && byteOffset < TWO27 {
      PackInRange(readSeq, byteOffset);
    } else {
      Pow2At64();
      OrBelow((readSeq * TWO27) % TWO64, byteOffset, 64);
    }
  }

  /** In range, packing keeps the order of positions and separates distinct ones. */
  lemma PackKeepsOrder(r: nat, b: nat, r': nat, b': nat)
    requires r < TWO37 && b < TWO27 && r' < TWO37 && b' < TWO27
    ensures Pack(r, b) < Pack(r', b') <==> r < r' || (r == r' && b < b')
    ensures Pack(r, b) == Pack(r', b') <==> r == r' && b == b'
  {
    PackInRange(r, b);
    PackInRange(r', b');
  }

  const TWO26: nat := 0x400_0000
  const TWO53: nat := 0x20_0000_0000_0000

  lemma Pow2At53()
    ensures Pow2(53) == TWO53
  {
    Pow2At27();
    assert Pow2(32) == TWO32 by { assert Pow2(30) == 0x4000_0000; }
    assert Pow2(37) == TWO37;
    assert Pow2(42) == 0x400_0000_0000;
    assert Pow2(47) == 0x8000_0000_0000;
    assert Pow2(52) == 0x10_0000_0000_0000;
  }

  /** The shifted sequence number keeps its 37 low bits. */
  lemma ShiftIs(readSeq: nat)
    ensures (readSeq * TWO27) % TWO64 == (readSeq % TWO37) * TWO27
  {
    assert readSeq == (readSeq / TWO37) * TWO37 + readSeq % TWO37;
    assert readSeq * TWO27 == (readSeq / TWO37) * TWO64 + (readSeq % TWO37) * TWO27;
    RemainderUnique(readSeq * TWO27, readSeq / TWO37, (readSeq % TWO37) * TWO27, TWO64);
  }

  /** The packed position of any 64-bit offset is a safe JavaScript integer exactly when this holds. */
  predicate SafePosition(readSeq: nat, byteOffset: nat) {
    readSeq % TWO37 < TWO26 && byteOffset < TWO53
  }

  lemma PackSafeExactly(readSeq: nat, byteOffset: nat)
    ensures Pack(readSeq, byteOffset) < TWO53 <==> SafePosition(readSeq, byteOffset)
  {
    var high := (readSeq * TWO27) % TWO64;
    ShiftIs(readSeq);
    OrBounds(high, byteOffset);
    if high < TWO53 && byteOffset < TWO53 {
      Pow2At53();
      OrBelow(high, byteOffset, 53);
    }
  }

  lemma {:induction false} OrSelf(a: nat)
    ensures Or(a, a) == a
  {
    if a > 0 { OrSelf(a / 2); }
  }

  /** Past 128 MiB positions collide: after `r` messages of 2^27 bytes the packed value has not moved on from (r, 0). */
  lemma PackCollidesOnBytes(r: nat)
    requires r < TWO37
    ensures Pack(r, r * TWO27) == Pack(r, 0)
  {
    var x := r * TWO27;
    ShiftFits(r);
    OrSelf(x);
    OrZero(x);
  }

  lemma ShiftFits(r: nat)
    requires r < TWO37
    ensures (r * TWO27) % TWO64 == r * TWO27
  {}

  /** Sequence numbers 2^37 apart pack to the same value. */
  lemma PackCollidesOnSequence(r: nat, b: nat)
    ensures Pack(r + TWO37, b) == Pack(r, b)
  {
    assert (r + TWO37) * TWO27 == r * TWO27 + TWO64;
  }

  // --------------------------------------------- the counter, one caller

  function Max(a: nat, b: nat): nat {
    if a >= b then a else b
  }

  /** `last + 1` on a 64-bit word. */
  function Bump(last: nat): nat {
    (last + 1) % TWO64
  }

  class Counter {
    var last: nat

    constructor ()
      ensures last == 0
    {
      last := 0;
    }

    /** `compare_exchange_weak`: may fail although the value is the expected one. */
    method CompareExchangeWeak(seen: nat, next: nat, spurious: bool) returns (ok: bool)
      modifies this
      ensures ok <==> old(last) == seen && !spurious
      ensures last == if ok then next else old(last)
    {
      ok := last == seen && !spurious;
      if ok { last := next; }
    }

    /** The retry loop; `failures` is how many times the exchange fails spuriously. */
    method Generate(o: Offset, failures: nat) returns (cursor: nat)
      modifies this
      ensures o.At? ==> cursor == last == Max(Pack(o.readSeq, o.byteOffset), Bump(old(last)))
      ensures !o.At? ==> cursor == 0 && last == old(last)
      ensures o.At? ==> (cursor < TWO53 <==> SafePosition(o.readSeq, o.byteOffset) && Bump(old(last)) < TWO53)
    {
      if !o.At? { return 0; }
      var floor := Pack(o.readSeq, o.byteOffset);
      PackSafeExactly(o.readSeq, o.byteOffset);
      var left := failures;
      while true
        invariant last == old(last)
        decreases left
      {
        var seen := last;
        var next := Max(floor, Bump(seen));
        var ok := CompareExchangeWeak(seen, next, left > 0);
        if ok { return next; }
        left := left - 1;
      }
    }
  }

  // ----------------------------------------------- the counter, many callers

  datatype Caller =
    | Idle
    | Wants(floor: nat)
    | Loaded(floor: nat, seen: nat)

  datatype Issued = Issued(floor: nat, cursor: nat)

  /** `issued` records successful exchanges in the order they happened. */
  datatype State = State(last: nat, callers: map<nat, Caller>, issued: seq<Issued>)

  datatype Step =
    | Begin(who: nat, floor: nat)
    | Load(who: nat)
    | Exchange(who: nat)
    | SpuriousFailure(who: nat)

  predicate Enabled(s: State, st: Step) {
    match st
    case Begin(w, f) => f < TWO64 && (w in s.callers ==> s.callers[w].Idle?)
    case Load(w) => w in s.callers && s.callers[w].Wants?
    case Exchange(w) => w in s.callers && s.callers[w].Loaded?
    case SpuriousFailure(w) => w in s.callers && s.callers[w].Loaded?
  }

  function Perform(s: State, st: Step): State
    requires Enabled(s, st)
  {
    match st
    case Begin(w, f) => s.(callers := s.callers[w := Wants(f)])
    case Load(w) => s.(callers := s.callers[w := Loaded(s.callers[w].floor, s.last)])
    case SpuriousFailure(w) => s.(callers := s.callers[w := Wants(s.callers[w].floor)])
    case Exchange(w) =>
      var c := s.callers[w];
      if s.last != c.seen then s.(callers := s.callers[w := Wants(c.floor)])
      else
        var next := Max(c.floor, Bump(c.seen));
        State(next, s.callers[w := Idle], s.issued + [Issued(c.floor, next)])
  }

  /** The state after a run; `None` when some step of it was not enabled. */
  function Run(steps: seq<Step>): Option<State> {
    if steps == [] then Some(State(0, map[], []))
    else
      var before := Run(steps[..|steps| - 1]);
      if before.Some? && Enabled(before.value, steps[|steps| - 1])
      then Some(Perform(before.value, steps[|steps| - 1]))
      else None
  }

  function HighestFloor(h: seq<Issued>): nat {
    if h == [] then 0 else Max(HighestFloor(h[..|h| - 1]), h[|h| - 1].floor)
  }

  /** No exchange so far can have wrapped the 64-bit counter. */
  predicate NoWrap(h: seq<Issued>) {
    HighestFloor(h) + |h| < TWO64
  }

  ghost predicate Increasing(h: seq<Issued>) {
    forall i, j :: 0 <= i < j < |h| ==> h[i].cursor < h[j].cursor
  }

  ghost predicate Bounded(h: seq<Issued>) {
    forall i :: 0 <= i < |h| ==> h[i].floor <= h[i].cursor <= HighestFloor(h[..i + 1]) + i + 1
  }

  ghost predicate Inv(s: State) {
    && s.last == LastCursor(s.issued) && Chained(s.issued)
    && (forall w :: w in s.callers && !s.callers[w].Idle? ==> s.callers[w].floor < TWO64)
    && (NoWrap(s.issued) ==> Increasing(s.issued) && Bounded(s.issued))
  }

  function LastCursor(h: seq<Issued>): nat {
    if h == [] then 0 else h[|h| - 1].cursor
  }

  /** Each cursor is the larger of its packed position and the cursor before it plus one. */
  ghost predicate Chained(h: seq<Issued>) {
    h != [] ==>
      var g, last := h[..|h| - 1], h[|h| - 1];
      Chained(g) && last.cursor == Max(last.floor, Bump(LastCursor(g)))
  }

  lemma ChainedExtends(h: seq<Issued>, floor: nat)
    requires Chained(h)
    ensures Chained(h + [Issued(floor, Max(floor, Bump(LastCursor(h))))])
  {
    var h' := h + [Issued(floor, Max(floor, Bump(LastCursor(h))))];
    assert h'[..|h|] == h;
  }

  lemma LastCursorBounded(h: seq<Issued>)
    requires Bounded(h)
    ensures LastCursor(h) <= HighestFloor(h) + |h|
  {
    if h != [] { assert h[..|h| - 1 + 1] == h; }
  }

  lemma IncreasingExtends(h: seq<Issued>, x: Issued)
    requires Increasing(h) && LastCursor(h) < x.cursor
    ensures Increasing(h + [x])
  {}

  lemma BoundedExtends(h: seq<Issued>, x: Issued)
    requires Bounded(h) && x.floor <= x.cursor <= HighestFloor(h + [x]) + |h| + 1
    ensures Bounded(h + [x])
  {
    var h' := h + [x];
    forall i | 0 <= i < |h'|
      ensures h'[i].floor <= h'[i].cursor <= HighestFloor(h'[..i + 1]) + i + 1
    {
      assert h'[..i + 1] == if i < |h| then h[..i + 1] else h';
    }
  }

  lemma IssueKeepsInv(h: seq<Issued>, floor: nat)
    requires NoWrap(h) ==> Increasing(h) && Bounded(h)
    requires floor < TWO64
    ensures var h' := h + [Issued(floor, Max(floor, Bump(LastCursor(h))))];
            NoWrap(h') ==> Increasing(h') && Bounded(h')
  {
    var next := Max(floor, Bump(LastCursor(h)));
    var h' := h + [Issued(floor, next)];
    assert h'[..|h|] == h;
    assert HighestFloor(h') == Max(HighestFloor(h), floor);
    if NoWrap(h') {
      LastCursorBounded(h);
      assert Bump(LastCursor(h)) == LastCursor(h) + 1;
      IncreasingExtends(h, h'[|h|]);
      BoundedExtends(h, h'[|h|]);
    }
  }

  lemma StepKeepsInv(s: State, st: Step)
    requires Inv(s) && Enabled(s, st)
    ensures Inv(Perform(s, st))
  {
    if st.Exchange? && s.last == s.callers[st.who].seen {
      IssueKeepsInv(s.issued, s.callers[st.who].floor);
      ChainedExtends(s.issued, s.callers[st.who].floor);
    }
  }

  /**
    Over every interleaving of any number of callers, as long as the highest packed position
    plus the number of exchanges stays below 2^64, cursors strictly increase in the order their
    exchanges succeed, and each lies between its own packed position and the highest one so far
    plus the number of exchanges so far.
   */
  lemma {:induction false} CursorsIncrease(steps: seq<Step>)
    requires Run(steps).Some?
    ensures Inv(Run(steps).value)
    ensures var h := Run(steps).value.issued; NoWrap(h) ==> Increasing(h) && Bounded(h)
  {
    if steps != [] {
      var init := steps[..|steps| - 1];
      CursorsIncrease(init);
      StepKeepsInv(Run(init).value, steps[|steps| - 1]);
    }
  }

  /** A successful exchange moves the counter up exactly when the counter is not at its maximum. */
  lemma ExchangeRaisesExactly(s: State, w: nat)
    requires Enabled(s, Exchange(w)) && s.last == s.callers[w].seen < TWO64 && s.callers[w].floor < TWO64
    ensures Perform(s, Exchange(w)).last > s.last <==> s.last != TWO64 - 1
  {}

  // --------------------------------------------------- safe JavaScript integers

  ghost predicate AllSafe(h: seq<Issued>) {
    forall i {:trigger h[i]} :: 0 <= i < |h| ==> h[i].cursor < TWO53
  }

  /**
    No packed position, raised by one for each exchange after its own, and no bare count of exchanges,
    leaves the range.
   */
  ghost predicate RoomLeft(h: seq<Issued>) {
    && |h| < TWO53
    && (forall i {:trigger h[i]} :: 0 <= i < |h| ==> h[i].floor + (|h| - 1 - i) < TWO53)
  }

  /**
    The last cursor is at least every packed position raised by the exchanges after it, and equals one of
    them or the count.
   */
  lemma {:induction false} LastReached(h: seq<Issued>)
    requires Chained(h) && AllSafe(h)
    ensures LastCursor(h) >= |h|
    ensures forall i {:trigger h[i]} :: 0 <= i < |h| ==> h[i].floor + (|h| - 1 - i) <= LastCursor(h)
  {
    if h != [] {
      var g := h[..|h| - 1];
      assert AllSafe(g) by { assert forall i {:trigger g[i]} :: 0 <= i < |g| ==> g[i] == h[i]; }
      LastReached(g);
      assert LastCursor(g) < TWO53;
      forall i {:trigger h[i]} | 0 <= i < |h| ensures h[i].floor + (|h| - 1 - i) <= LastCursor(h) {
        if i < |g| { assert g[i] == h[i]; }
      }
    }
  }

  lemma {:induction false} RoomIsEnough(h: seq<Issued>, n: nat)
    requires Chained(h) && |h| <= n < TWO53
    requires forall i {:trigger h[i]} :: 0 <= i < |h| ==> h[i].floor + (n - 1 - i) < TWO53
    ensures AllSafe(h) && LastCursor(h) + (n - |h|) < TWO53
  {
    if h != [] {
      var g := h[..|h| - 1];
      assert forall i {:trigger g[i]} :: 0 <= i < |g| ==> g[i] == h[i];
      RoomIsEnough(g, n);
      forall i {:trigger h[i]} | 0 <= i < |h| ensures h[i].cursor < TWO53 {
        if i < |g| { assert g[i] == h[i]; }
      }
    }
  }

  /**
    Over every interleaving, wrap-around included, all cursors issued are safe JavaScript integers exactly
    when no packed position, raised by one for each exchange after its own, and no count of exchanges
    reaches 2^53.
   */
  lemma CursorsSafeExactly(steps: seq<Step>)
    requires Run(steps).Some?
    ensures var h := Run(steps).value.issued; AllSafe(h) <==> RoomLeft(h)
  {
    var h := Run(steps).value.issued;
    CursorsIncrease(steps);
    if AllSafe(h) {
      LastReached(h);
      if h != [] { assert h[|h| - 1].cursor < TWO53; }
    }
    if RoomLeft(h) { RoomIsEnough(h, |h|); }
  }

  lemma RunMore(steps: seq<Step>, st: Step)
    requires Run(steps).Some? && Enabled(Run(steps).value, st)
    ensures Run(steps + [st]) == Some(Perform(Run(steps).value, st))
  {
    assert (steps + [st])[..|steps|] == steps;
  }

  /** One caller alone issues its cursor. */
  lemma IssueRuns(steps: seq<Step>, s: State, floor: nat) returns (steps': seq<Step>)
    requires Run(steps) == Some(s) && floor < TWO64 && (0 in s.callers ==> s.callers[0].Idle?)
    ensures Run(steps').Some?
    ensures var s', next := Run(steps').value, Max(floor, Bump(s.last));
            s'.last == next && s'.issued == s.issued + [Issued(floor, next)] && 0 in s'.callers && s'.callers[0].Idle?
  {
    RunMore(steps, Begin(0, floor));
    RunMore(steps + [Begin(0, floor)], Load(0));
    RunMore(steps + [Begin(0, floor)] + [Load(0)], Exchange(0));
    steps' := steps + [Begin(0, floor)] + [Load(0)] + [Exchange(0)];
  }

  /** A stream with a long history leaves the next cursor of an empty one unsafe. */
  lemma UnsafeFromAnotherStream() returns (steps: seq<Step>)
    ensures Run(steps).Some?
    ensures Run(steps).value.issued == [Issued(Pack(TWO26 - 1, TWO27 - 1), TWO53 - 1), Issued(Pack(0, 0), TWO53)]
  {
    PackInRange(TWO26 - 1, TWO27 - 1);
    PackInRange(0, 0);
    steps := IssueRuns([], Run([]).value, Pack(TWO26 - 1, TWO27 - 1));
    steps := IssueRuns(steps, Run(steps).value, Pack(0, 0));
  }
}
