/**
  The in-memory index of the file backend against the bytes on disk: appending records,
  reading them back through one contiguous span, and what failed writes leave behind.
 */
module FileIndex {
  import opened Types
  import opened LogSpec
  import opened FileLog

  /** The index entry points at message `m`, whose offset is `o`. */
  predicate Points(file: seq<byte>, e: MessageIndex, o: Offset, m: Bytes) {
    && e.offset == o && e.byteLen == |m|
    && e.filePos + |m| <= |file| && file[e.filePos..e.filePos + |m|] == m
  }

  /** Entries lie in file order without overlap and end by `bound`. */
  ghost predicate Ordered(index: seq<MessageIndex>, bound: nat) {
    && (forall i, j {:trigger index[i], index[j]} :: 0 <= i < j < |index| ==>
          index[i].filePos + index[i].byteLen <= index[j].filePos)
    && (forall i {:trigger index[i]} :: 0 <= i < |index| ==> index[i].filePos + index[i].byteLen <= bound)
  }

  /** The index agrees with the file on all messages `ms`; gaps between records do not matter. */
  ghost predicate Indexes(file: seq<byte>, index: seq<MessageIndex>, ms: seq<Bytes>) {
    && |index| == |ms|
    && (forall i {:trigger index[i]} :: 0 <= i < |ms| ==> Points(file, index[i], OffsetOf(ms, i), ms[i]))
  }

  /** Bytes added at the end of the file disturb no entry. */
  lemma IndexesGrow(file: seq<byte>, more: seq<byte>, index: seq<MessageIndex>, ms: seq<Bytes>)
    requires Indexes(file, index, ms)
    ensures Indexes(file + more, index, ms)
  {
    forall i {:trigger index[i]} | 0 <= i < |ms| ensures Points(file + more, index[i], OffsetOf(ms, i), ms[i]) {
      var e := index[i];
      assert (file + more)[e.filePos..e.filePos + |ms[i]|] == file[e.filePos..e.filePos + |ms[i]|];
    }
  }

  lemma IndexesPush(file: seq<byte>, index: seq<MessageIndex>, ms: seq<Bytes>, pos: nat, m: Bytes)
    requires Indexes(file, index, ms) && pos + |m| <= |file| && file[pos..pos + |m|] == m
    ensures Indexes(file, index + [MessageIndex(NextOffset(ms), pos, |m|)], ms + [m])
  {
    var ms', index' := ms + [m], index + [MessageIndex(NextOffset(ms), pos, |m|)];
    forall i {:trigger index'[i]} | 0 <= i < |ms'| ensures Points(file, index'[i], OffsetOf(ms', i), ms'[i]) {
      assert ms'[..i] == ms[..i];
      if i == |ms| { assert ms[..i] == ms; } else { assert index'[i] == index[i]; }
    }
  }

  lemma OrderedPush(index: seq<MessageIndex>, bound: nat, e: MessageIndex, bound': nat)
    requires Ordered(index, bound) && bound <= e.filePos && e.filePos + e.byteLen <= bound'
    ensures Ordered(index + [e], bound')
  {
    var index' := index + [e];
    forall i, j {:trigger index'[i], index'[j]} | 0 <= i < j < |index'|
      ensures index'[i].filePos + index'[i].byteLen <= index'[j].filePos
    {
      assert index'[i] == index[i];
    }
    forall i {:trigger index'[i]} | 0 <= i < |index'| ensures index'[i].filePos + index'[i].byteLen <= bound' {
      if i < |index| { assert index'[i] == index[i]; }
    }
  }

  lemma OrderedWiden(index: seq<MessageIndex>, bound: nat, bound': nat)
    requires Ordered(index, bound) && bound <= bound'
    ensures Ordered(index, bound')
  {}

  // ----------------------------------------------------------- appending

  /** The write buffer of a batch: its records one after another. */
  method WriteBuffer(batch: seq<Bytes>) returns (buf: seq<byte>)
    requires AllShort(batch)
    ensures buf == Encode(batch)
  {
    buf := [];
    for i := 0 to |batch|
      invariant buf == Encode(batch[..i])
    {
      assert batch[..i + 1][..i] == batch[..i];
      buf := buf + (Le32(|batch[i]|) + batch[i]);
    }
    assert batch[..|batch|] == batch;
  }

  /** What the index loop knows after `n` records of the batch. */
  ghost predicate Placed(file: seq<byte>, index: seq<MessageIndex>, ms: seq<Bytes>, next: Offset, cursor: nat) {
    Indexes(file, index, ms) && Ordered(index, cursor) && next == NextOffset(ms)
  }

  lemma PlaceStep(file: seq<byte>, index: seq<MessageIndex>, ms: seq<Bytes>, next: Offset, cursor: nat, m: Bytes)
    requires Placed(file, index, ms, next, cursor) && Short(m)
    requires cursor + HEADER + |m| <= |file| && file[cursor..cursor + HEADER + |m|] == Record(m)
    ensures Placed(file, index + [MessageIndex(next, cursor + HEADER, |m|)], ms + [m],
                   At(next.readSeq + 1, next.byteOffset + |m|), cursor + HEADER + |m|)
  {
    var r := file[cursor..cursor + HEADER + |m|];
    assert file[cursor + HEADER..cursor + HEADER + |m|] == r[HEADER..];
    IndexesPush(file, index, ms, cursor + HEADER, m);
    OrderedPush(index, cursor, MessageIndex(next, cursor + HEADER, |m|), cursor + HEADER + |m|);
    SumLenPush(ms, m);
  }

  lemma RecordInBatch(before: seq<byte>, batch: seq<Bytes>, i: nat)
    requires AllShort(batch) && i < |batch|
    ensures AllShort(batch[..i]) && AllShort(batch[..i + 1])
    ensures var lo := |before| + |Encode(batch[..i])|;
            var hi := lo + HEADER + |batch[i]|;
            && hi == |before| + |Encode(batch[..i + 1])| <= |before + Encode(batch)|
            && (before + Encode(batch))[lo..hi] == Record(batch[i])
  {
    var tail := batch[i + 1..];
    CutBatch(batch, i);
    EncodePush(batch[..i], batch[i]);
    EncodeAppend(batch[..i + 1], tail);
    RecordSlice(before, Encode(batch[..i]), Record(batch[i]), Encode(tail));
  }

  lemma CutBatch(batch: seq<Bytes>, i: nat)
    requires i < |batch|
    ensures batch[..i + 1] == batch[..i] + [batch[i]] && batch == batch[..i + 1] + batch[i + 1..]
  {}

  lemma RecordSlice(a: seq<byte>, b: seq<byte>, r: seq<byte>, c: seq<byte>)
    ensures (a + ((b + r) + c))[|a| + |b|..|a| + |b| + |r|] == r
  {}

  /** `index'` is `index` followed by one entry per record of a batch written at file position `base`. */
  ghost predicate Extends(index: seq<MessageIndex>, index': seq<MessageIndex>, base: nat, batch: seq<Bytes>)
    requires AllShort(batch)
  {
    && |index'| == |index| + |batch| && index'[..|index|] == index
    && (forall k {:trigger index'[k]} :: |index| <= k < |index'| ==>
          index'[k].filePos == base + |Encode(batch[..k - |index|])| + HEADER)
  }

  lemma ExtendsPush(index: seq<MessageIndex>, index': seq<MessageIndex>, base: nat, batch: seq<Bytes>, i: nat,
                    e: MessageIndex)
    requires AllShort(batch) && i < |batch| && Extends(index, index', base, batch[..i])
    requires e.filePos == base + |Encode(batch[..i])| + HEADER
    ensures Extends(index, index' + [e], base, batch[..i + 1])
  {
    var index'' := index' + [e];
    assert index''[..|index|] == index'[..|index|];
    forall k {:trigger index''[k]} | |index| <= k < |index''|
      ensures index''[k].filePos == base + |Encode(batch[..i + 1][..k - |index|])| + HEADER
    {
      assert batch[..i + 1][..k - |index|] == batch[..k - |index|];
      if k < |index'| {
        assert index''[k] == index'[k];
        assert batch[..i][..k - |index|] == batch[..k - |index|];
      }
    }
  }

  /** The index entries of a batch written at `before`. */
  method PlaceBatch(before: seq<byte>, index: seq<MessageIndex>, next: Offset, batch: seq<Bytes>, ghost ms: seq<Bytes>)
    returns (index': seq<MessageIndex>, next': Offset, cursor: nat)
    requires AllShort(batch) && Placed(before, index, ms, next, |before|)
    ensures Placed(before + Encode(batch), index', ms + batch, next', cursor)
    ensures Extends(index, index', |before|, batch)
    ensures cursor == |before + Encode(batch)|
  {
    ghost var file := before + Encode(batch);
    IndexesGrow(before, Encode(batch), index, ms);
    index', next', cursor := index, next, |before|;
    assert ms + batch[..0] == ms;
    for i := 0 to |batch|
      invariant cursor == |before| + |Encode(batch[..i])|
      invariant Placed(file, index', ms + batch[..i], next', cursor)
      invariant Extends(index, index', |before|, batch[..i])
    {
      RecordInBatch(before, batch, i);
      PlaceStep(file, index', ms + batch[..i], next', cursor, batch[i]);
      assert (ms + batch[..i]) + [batch[i]] == ms + batch[..i + 1];
      ExtendsPush(index, index', |before|, batch, i, MessageIndex(next', cursor + HEADER, |batch[i]|));
      index' := index' + [MessageIndex(next', cursor + HEADER, |batch[i]|)];
      next' := At(next'.readSeq + 1, next'.byteOffset + |batch[i]|);
      cursor := cursor + HEADER + |batch[i]|;
    }
    assert batch[..|batch|] == batch;
  }

  /** The index recovery builds fits the file recovery keeps. */
  lemma {:induction false} CanonicalPlaced(index: seq<MessageIndex>, ms: seq<Bytes>)
    requires AllShort(ms) && Canonical(index, ms)
    ensures Placed(Encode(ms), index, ms, NextOffset(ms), |Encode(ms)|)
  {
    if ms != [] {
      var n := |ms| - 1;
      var head, m := ms[..n], ms[n];
      assert ms == head + [m];
      CanonicalPrefix(index, ms, n);
      CanonicalPlaced(index[..n], head);
      EncodePush(head, m);
      IndexesGrow(Encode(head), Record(m), index[..n], head);
      SumLenPush(head, m);
      PlaceStep(Encode(ms), index[..n], head, NextOffset(head), |Encode(head)|, m);
      assert index == index[..n] + [index[n]];
    }
  }

  /** The entries of a batch written at file position `base` after messages `ms`. */
  function Entries(base: nat, ms: seq<Bytes>, batch: seq<Bytes>): seq<MessageIndex>
    requires AllShort(batch)
  {
    seq(|batch|, i requires 0 <= i < |batch| =>
      MessageIndex(OffsetOf(ms + batch, |ms| + i), base + |Encode(batch[..i])| + HEADER, |batch[i]|))
  }

  lemma EntriesPlaced(file: seq<byte>, index: seq<MessageIndex>, index': seq<MessageIndex>, base: nat,
                      ms: seq<Bytes>, batch: seq<Bytes>)
    requires AllShort(batch) && Extends(index, index', base, batch) && |index| == |ms|
             && Indexes(file, index', ms + batch)
    ensures index' == index + Entries(base, ms, batch)
  {
    forall k | |index| <= k < |index'| ensures index'[k] == Entries(base, ms, batch)[k - |index|] {
      assert Points(file, index'[k], OffsetOf(ms + batch, k), (ms + batch)[k]);
    }
    assert index' == index'[..|index|] + index'[|index|..];
  }

  /** Appended to a log without gaps, a batch leaves a log without gaps. */
  lemma CleanAppend(ms: seq<Bytes>, index: seq<MessageIndex>, batch: seq<Bytes>)
    requires AllShort(ms) && AllShort(batch) && Canonical(index, ms)
    ensures AllShort(ms + batch) && Canonical(index + Entries(|Encode(ms)|, ms, batch), ms + batch)
  {
    var index' := index + Entries(|Encode(ms)|, ms, batch);
    forall i {:trigger index'[i]} | 0 <= i < |ms + batch|
      ensures index'[i] == MessageIndex(OffsetOf(ms + batch, i), |Encode((ms + batch)[..i])| + HEADER,
                                        |(ms + batch)[i]|)
    {
      CleanEntry(ms, batch, i);
      if i < |ms| { assert index'[i] == index[i]; }
    }
  }

  lemma CleanEntry(ms: seq<Bytes>, batch: seq<Bytes>, i: nat)
    requires AllShort(ms) && AllShort(batch) && i < |ms + batch|
    ensures i < |ms| ==> (ms + batch)[..i] == ms[..i]
    ensures i >= |ms| ==> |Encode((ms + batch)[..i])| == |Encode(ms)| + |Encode(batch[..i - |ms|])|
  {
    if i >= |ms| {
      EncodeAppend(ms, batch[..i - |ms|]);
      assert (ms + batch)[..i] == ms + batch[..i - |ms|];
    }
  }

  // ------------------------------------------------------------- reading

  /** `read_messages`: one positioned read of the whole span, then a slice per entry. */
  method ReadMessages(file: seq<byte>, index: seq<MessageIndex>, start: nat, ghost ms: seq<Bytes>)
    returns (out: seq<Bytes>)
    requires Indexes(file, index, ms) && Ordered(index, |file|) && start <= |index|
    ensures out == ms[start..]
  {
    if start == |index| { return []; }
    var first := index[start].filePos;
    var last := index[|index| - 1];
    var end := last.filePos + last.byteLen;
    assert first <= end;
    var raw := file[first..end];
    out := [];
    for i := start to |index|
      invariant out == ms[start..i]
    {
      var rel := index[i].filePos - first;
      SpanSlice(file, index, start, i, ms);
      out := out + [raw[rel..rel + index[i].byteLen]];
    }
  }

  lemma SliceOfSlice(file: seq<byte>, first: nat, end: nat, lo: nat, hi: nat)
    requires first <= lo <= hi <= end <= |file|
    ensures file[first..end][lo - first..hi - first] == file[lo..hi]
  {
    var inner := file[first..end];
    assert forall k :: lo - first <= k < hi - first ==> inner[k] == file[first + k];
  }

  lemma SpanSlice(file: seq<byte>, index: seq<MessageIndex>, start: nat, i: nat, ms: seq<Bytes>)
    requires Indexes(file, index, ms) && Ordered(index, |file|) && start <= i < |index|
    ensures var first := index[start].filePos;
            var last := index[|index| - 1];
            var end := last.filePos + last.byteLen;
            var rel := index[i].filePos - first;
            && 0 <= rel && first <= end <= |file| && rel + index[i].byteLen <= end - first
            && file[first..end][rel..rel + index[i].byteLen] == ms[i]
  {
    var last := index[|index| - 1];
    assert Points(file, index[i], OffsetOf(ms, i), ms[i]);
    assert index[start].filePos <= index[i].filePos;
    assert index[i].filePos + index[i].byteLen <= last.filePos + last.byteLen;
    var first, end := index[start].filePos, last.filePos + last.byteLen;
    SliceOfSlice(file, first, end, index[i].filePos, index[i].filePos + index[i].byteLen);
  }

  /** The position a read starts at, found by bisection over the indexed offsets. */
  method FindStart(file: seq<byte>, index: seq<MessageIndex>, from: Offset, ghost ms: seq<Bytes>) returns (k: nat)
    requires Indexes(file, index, ms) && from.At?
    ensures k == StartIndex(ms, from)
  {
    var lo, hi := 0, |index|;
    while lo < hi
      invariant 0 <= lo <= hi <= |index|
      invariant lo <= StartIndex(ms, from) <= hi
    {
      var mid := (lo + hi) / 2;
      StartIndexExact(ms, from, mid);
      assert Points(file, index[mid], OffsetOf(ms, mid), ms[mid]);
      if Before(index[mid].offset, from) { lo := mid + 1; } else { hi := mid; }
    }
    k := lo;
  }

  // ------------------------------------------------------- failed writes

  /** What one write left in the log file: a batch that is indexed, or the bytes of a failed one. */
  datatype Piece = Indexed(batch: seq<Bytes>) | Leftover(bytes: seq<byte>)

  ghost predicate Proper(ps: seq<Piece>) {
    forall i :: 0 <= i < |ps| && ps[i].Indexed? ==> AllShort(ps[i].batch)
  }

  /** The log file after any series of writes. */
  function FileOf(ps: seq<Piece>): seq<byte>
    requires Proper(ps)
  {
    if ps == [] then []
    else FileOf(ps[..|ps| - 1]) + if ps[|ps| - 1].Indexed? then Encode(ps[|ps| - 1].batch) else ps[|ps| - 1].bytes
  }

  /** The messages acknowledged. */
  function AckedOf(ps: seq<Piece>): seq<Bytes> {
    if ps == [] then []
    else AckedOf(ps[..|ps| - 1]) + if ps[|ps| - 1].Indexed? then ps[|ps| - 1].batch else []
  }

  /** The index the running server has. */
  function LiveIndex(ps: seq<Piece>): seq<MessageIndex>
    requires Proper(ps)
  {
    if ps == [] then []
    else
      var init := ps[..|ps| - 1];
      LiveIndex(init) +
      if ps[|ps| - 1].Indexed? then Entries(|FileOf(init)|, AckedOf(init), ps[|ps| - 1].batch) else []
  }

  lemma PiecesPush(ps: seq<Piece>, p: Piece)
    requires Proper(ps) && (p.Indexed? ==> AllShort(p.batch))
    ensures Proper(ps + [p])
    ensures FileOf(ps + [p]) == FileOf(ps) + if p.Indexed? then Encode(p.batch) else p.bytes
    ensures AckedOf(ps + [p]) == AckedOf(ps) + if p.Indexed? then p.batch else []
    ensures LiveIndex(ps + [p]) ==
            LiveIndex(ps) + if p.Indexed? then Entries(|FileOf(ps)|, AckedOf(ps), p.batch) else []
  {
    assert (ps + [p])[..|ps|] == ps;
  }

  /** The messages before the first leftover byte, the bytes from there on, and the messages indexed since. */
  datatype Cut = Cut(before: seq<Bytes>, rest: seq<byte>, late: seq<Bytes>)

  function CutOf(ps: seq<Piece>): Cut
    requires Proper(ps)
  {
    if ps == [] then Cut([], [], [])
    else
      var c, p := CutOf(ps[..|ps| - 1]), ps[|ps| - 1];
      if p.Leftover? then c.(rest := c.rest + p.bytes)
      else if c.rest == [] then c.(before := c.before + p.batch)
      else c.(rest := c.rest + Encode(p.batch), late := c.late + p.batch)
  }

  ghost predicate CutFits(c: Cut, file: seq<byte>, acked: seq<Bytes>, index: seq<MessageIndex>) {
    && AllShort(c.before) && file == Encode(c.before) + c.rest && acked == c.before + c.late
    && (c.rest == [] ==> c.late == [])
    && |index| == |c.before| + |c.late| && Canonical(index[..|c.before|], c.before)
    && (c.late != [] ==> index[|c.before|].filePos > |Encode(c.before)| + HEADER)
  }

  lemma CutLeftover(c: Cut, file: seq<byte>, acked: seq<Bytes>, index: seq<MessageIndex>, bytes: seq<byte>)
    requires CutFits(c, file, acked, index)
    ensures CutFits(c.(rest := c.rest + bytes), file + bytes, acked, index)
  {}

  lemma CutBefore(c: Cut, file: seq<byte>, acked: seq<Bytes>, index: seq<MessageIndex>, batch: seq<Bytes>)
    requires CutFits(c, file, acked, index) && c.rest == [] && AllShort(batch)
    ensures CutFits(c.(before := c.before + batch), file + Encode(batch), acked + batch,
                    index + Entries(|file|, acked, batch))
  {
    assert file == Encode(c.before) && acked == c.before && index == index[..|c.before|];
    CleanAppend(c.before, index, batch);
    EncodeAppend(c.before, batch);
    var index' := index + Entries(|file|, acked, batch);
    assert index' == index'[..|c.before + batch|];
    assert Encode(c.before + batch) + [] == Encode(c.before + batch) && (c.before + batch) + [] == c.before + batch;
  }

  lemma CutLate(c: Cut, file: seq<byte>, acked: seq<Bytes>, index: seq<MessageIndex>, batch: seq<Bytes>)
    requires CutFits(c, file, acked, index) && c.rest != [] && AllShort(batch)
    ensures CutFits(c.(rest := c.rest + Encode(batch), late := c.late + batch), file + Encode(batch), acked + batch,
                    index + Entries(|file|, acked, batch))
  {
    var index' := index + Entries(|file|, acked, batch);
    LateEntries(c, file, acked, index, batch);
    Reassociate(Encode(c.before), c.rest, Encode(batch));
    JoinLate(c.before, c.late, batch);
    assert |index'| == |c.before| + |c.late + batch|;
  }

  lemma JoinLate(a: seq<Bytes>, b: seq<Bytes>, c: seq<Bytes>)
    ensures (a + b) + c == a + (b + c)
  {}

  lemma LateEntries(c: Cut, file: seq<byte>, acked: seq<Bytes>, index: seq<MessageIndex>, batch: seq<Bytes>)
    requires CutFits(c, file, acked, index) && c.rest != [] && AllShort(batch)
    ensures var index' := index + Entries(|file|, acked, batch);
            && index'[..|c.before|] == index[..|c.before|]
            && (c.late + batch != [] ==> index'[|c.before|].filePos > |Encode(c.before)| + HEADER)
  {
    var entries := Entries(|file|, acked, batch);
    KeptPart(index, entries, |c.before|);
    if c.late == [] && batch != [] {
      assert batch[..0] == [];
      assert entries[0].filePos == |file| + HEADER;
    }
  }

  lemma KeptPart(index: seq<MessageIndex>, entries: seq<MessageIndex>, n: nat)
    requires n <= |index|
    ensures (index + entries)[..n] == index[..n]
    ensures n < |index + entries| ==> (index + entries)[n] == if n < |index| then index[n] else entries[0]
  {}

  lemma {:induction false} CutIs(ps: seq<Piece>)
    requires Proper(ps)
    ensures CutFits(CutOf(ps), FileOf(ps), AckedOf(ps), LiveIndex(ps))
  {
    if ps != [] {
      var init, p := ps[..|ps| - 1], ps[|ps| - 1];
      CutIs(init);
      var c := CutOf(init);
      if p.Leftover? {
        CutLeftover(c, FileOf(init), AckedOf(init), LiveIndex(init), p.bytes);
        assert AckedOf(init) + [] == AckedOf(init) && LiveIndex(init) + [] == LiveIndex(init);
      } else if c.rest == [] {
        CutBefore(c, FileOf(init), AckedOf(init), LiveIndex(init), p.batch);
      } else {
        CutLate(c, FileOf(init), AckedOf(init), LiveIndex(init), p.batch);
      }
    }
  }

  /**
    After any number of failed writes and syncs, recovery agrees with the live index exactly when nothing
    was indexed after the first leftover byte and the bytes left over hold no whole record.
   */
  lemma RecoveryEqualsLiveExactly(ps: seq<Piece>, recovered: seq<MessageIndex>)
    requires Proper(ps) && Canonical(recovered, Parse(FileOf(ps)))
    ensures recovered == LiveIndex(ps) <==> CutOf(ps).late == [] && !HasRecord(CutOf(ps).rest)
  {
    var c, live := CutOf(ps), LiveIndex(ps);
    CutIs(ps);
    ParseEncoded(c.before, c.rest);
    if c.late != [] {
      LateDiffers(c, FileOf(ps), AckedOf(ps), live, recovered);
    } else if HasRecord(c.rest) {
      assert |recovered| > |live|;
    } else {
      assert c.before + [] == c.before && live[..|c.before|] == live;
      CanonicalUnique(recovered, live, c.before);
    }
  }

  lemma LateDiffers(c: Cut, file: seq<byte>, acked: seq<Bytes>, live: seq<MessageIndex>, recovered: seq<MessageIndex>)
    requires CutFits(c, file, acked, live) && c.late != []
    requires Canonical(recovered, Parse(file)) && Parse(file) == c.before + Parse(c.rest)
    ensures recovered != live
  {
    if |recovered| == |live| {
      assert Parse(file)[..|c.before|] == c.before;
      assert recovered[|c.before|].filePos == |Encode(c.before)| + HEADER;
    }
  }

  lemma {:induction false} FilePrefix(ps: seq<Piece>, i: nat)
    requires Proper(ps) && i <= |ps|
    ensures Proper(ps[..i]) && Begins(FileOf(ps[..i]), FileOf(ps))
  {
    if i < |ps| {
      FilePrefix(ps[..|ps| - 1], i);
      assert ps[..|ps| - 1][..i] == ps[..i];
    } else {
      assert ps[..i] == ps;
    }
  }

  /**
    An acknowledged batch written where the log held whole records only is recovered right behind what
    was recoverable then, whatever was written later, successfully or not.
   */
  lemma AckedRecovered(ps: seq<Piece>, i: nat)
    requires Proper(ps) && i < |ps| && ps[i].Indexed? && Proper(ps[..i]) && Whole(FileOf(ps[..i]))
    ensures Begins(Parse(FileOf(ps[..i])) + ps[i].batch, Parse(FileOf(ps)))
  {
    AckedPrefix(ps, i);
    GoodPrefix(FileOf(ps[..i]), ps[i].batch, FileOf(ps));
  }

  lemma AckedPrefix(ps: seq<Piece>, i: nat)
    requires Proper(ps) && i < |ps| && ps[i].Indexed?
    ensures Proper(ps[..i]) && Begins(FileOf(ps[..i]) + Encode(ps[i].batch), FileOf(ps))
  {
    FilePrefix(ps, i);
    FilePrefix(ps, i + 1);
    TakeNext(ps, i);
    PiecesPush(ps[..i], ps[i]);
  }

  lemma TakeNext(ps: seq<Piece>, i: nat)
    requires i < |ps|
    ensures ps[..i + 1] == ps[..i] + [ps[i]]
  {}

  lemma GoodPrefix(before: seq<byte>, batch: seq<Bytes>, file: seq<byte>)
    requires AllShort(batch) && Whole(before) && Begins(before + Encode(batch), file)
    ensures Begins(Parse(before) + batch, Parse(file))
  {
    var whole := before + Encode(batch);
    RecoveredForGood(before, batch, file[|whole|..]);
    assert file == whole + file[|whole|..];
  }

  /** A leftover header swallows the record written behind it. */
  lemma HeaderSwallows(m: Bytes)
    requires |m| + HEADER < TWO32
    ensures Parse(Le32(HEADER + |m|) + Record(m)) == [Record(m)] && m != Record(m)
  {
    ParseRecord(Record(m), []);
    assert Record(Record(m)) + [] == Le32(HEADER + |m|) + Record(m);
    assert |m| != |Record(m)|;
  }
}
