/**
  The record log of the file backend (src/storage/file.rs): a little-endian 32-bit length
  before each payload, an index kept in memory, and recovery that reads the log back.
 */
module FileLog {
  import opened Types
  import opened LogSpec

  const HEADER: nat := 4

  // ------------------------------------------------------------- records

  function Le32(n: nat): (b: seq<byte>)
    requires n < TWO32
    ensures |b| == HEADER
  {
    [n % 256, n / 256 % 256, n / 256 / 256 % 256, n / 256 / 256 / 256]
  }

  function FromLe32(b: seq<byte>): (n: nat)
    requires |b| == HEADER
    ensures n < TWO32
  {
    Horner(b[0], Horner(b[1], Horner(b[2], b[3])))
  }

  function Horner(low: int, high: int): int {
    low + 256 * high
  }

  lemma HornerSplit(low: byte, high: nat)
    ensures Horner(low, high) % 256 == low && Horner(low, high) / 256 == high
  {}

  lemma Le32RoundTrip(n: nat)
    requires n < TWO32
    ensures FromLe32(Le32(n)) == n
  {}

  lemma Le32Onto(b: seq<byte>)
    requires |b| == HEADER
    ensures Le32(FromLe32(b)) == b
  {
    HornerSplit(b[2], b[3]);
    HornerSplit(b[1], Horner(b[2], b[3]));
    HornerSplit(b[0], Horner(b[1], Horner(b[2], b[3])));
  }

  predicate Short(m: Bytes) {
    |m| < TWO32
  }

  predicate AllShort(ms: seq<Bytes>) {
    forall i :: 0 <= i < |ms| ==> Short(ms[i])
  }

  function Record(m: Bytes): (r: seq<byte>)
    requires Short(m)
    ensures |r| == HEADER + |m|
  {
    Le32(|m|) + m
  }

  /** On disk: four bytes that give the length, the lowest first, and the message behind them. */
  lemma RecordLayout(m: Bytes)
    requires Short(m)
    ensures var r := Record(m);
            && |r| == 4 + |m| && r[4..] == m
            && |m| == (r[0] as int) + 256 * (r[1] as int) + 65_536 * (r[2] as int) + 16_777_216 * (r[3] as int)
  {
    Le32Places(|m|);
    assert Record(m)[..4] == Le32(|m|);
  }

  lemma Le32Places(n: nat)
    requires n < TWO32
    ensures var b := Le32(n);
            n == (b[0] as int) + 256 * (b[1] as int) + 65_536 * (b[2] as int) + 16_777_216 * (b[3] as int)
  {
    assert n / 256 / 256 % 256 + 256 * (n / 256 / 256 / 256) == n / 256 / 256;
  }

  /** The log file of a stream holding `ms`. */
  function Encode(ms: seq<Bytes>): seq<byte>
    requires AllShort(ms)
  {
    if ms == [] then [] else Encode(ms[..|ms| - 1]) + Record(ms[|ms| - 1])
  }

  lemma EncodePush(ms: seq<Bytes>, m: Bytes)
    requires AllShort(ms) && Short(m)
    ensures AllShort(ms + [m]) && Encode(ms + [m]) == Encode(ms) + Record(m)
  {
    assert (ms + [m])[..|ms|] == ms;
  }

  lemma Reassociate(a: seq<byte>, b: seq<byte>, c: seq<byte>)
    ensures (a + b) + c == a + (b + c)
  {}

  lemma {:induction false} EncodeAppend(a: seq<Bytes>, b: seq<Bytes>)
    requires AllShort(a) && AllShort(b)
    ensures AllShort(a + b) && Encode(a + b) == Encode(a) + Encode(b)
  {
    if b == [] {
      assert a + b == a;
    } else {
      var c, m := b[..|b| - 1], b[|b| - 1];
      EncodeAppend(a, c);
      EncodePush(a + c, m);
      assert (a + c) + [m] == a + b by { assert b == c + [m]; }
      Reassociate(Encode(a), Encode(c), Record(m));
    }
  }

  // ------------------------------------------------------------- parsing

  /** Whether a whole record stands at the front of `file`. */
  predicate HasRecord(file: seq<byte>) {
    |file| >= HEADER && HEADER + FromLe32(file[..HEADER]) <= |file|
  }

  function FirstLength(file: seq<byte>): nat
    requires HasRecord(file)
  {
    HEADER + FromLe32(file[..HEADER])
  }

  /** The whole records at the front of any byte sequence. */
  function Parse(file: seq<byte>): (ms: seq<Bytes>)
    ensures AllShort(ms)
    decreases |file|
  {
    if !HasRecord(file) then []
    else [file[HEADER..FirstLength(file)]] + Parse(file[FirstLength(file)..])
  }

  lemma ParseRecord(m: Bytes, rest: seq<byte>)
    requires Short(m)
    ensures Parse(Record(m) + rest) == [m] + Parse(rest)
  {
    var file := Record(m) + rest;
    Le32RoundTrip(|m|);
    assert file[..HEADER] == Le32(|m|);
    assert file[HEADER..HEADER + |m|] == m;
    assert file[HEADER + |m|..] == rest;
  }

  /** Parsing undoes encoding, whatever follows. */
  lemma {:induction false} ParseEncoded(ms: seq<Bytes>, rest: seq<byte>)
    requires AllShort(ms)
    ensures Parse(Encode(ms) + rest) == ms + Parse(rest)
  {
    if ms == [] {
      assert Encode(ms) + rest == rest;
      assert ms + Parse(rest) == Parse(rest);
    } else {
      var init, m := ms[..|ms| - 1], ms[|ms| - 1];
      Reassociate(Encode(init), Record(m), rest);
      ParseEncoded(init, Record(m) + rest);
      ParseRecord(m, rest);
      PrependParsed(init, m, Parse(rest));
      assert init + [m] == ms;
    }
  }

  /** Recovery keeps a prefix of the file and leaves no whole record behind. */
  lemma {:induction false} ParsePrefix(file: seq<byte>)
    ensures var e := Encode(Parse(file));
            |e| <= |file| && file[..|e|] == e && !HasRecord(file[|e|..])
    decreases |file|
  {
    if HasRecord(file) {
      var n := FirstLength(file);
      var m, rest := file[HEADER..n], file[n..];
      ParsePrefix(rest);
      Le32Onto(file[..HEADER]);
      assert Record(m) == file[..n];
      EncodeCons(m, Parse(rest));
      PrefixJoins(file, n, Encode(Parse(rest)));
    }
  }

  lemma EncodeCons(m: Bytes, ms: seq<Bytes>)
    requires Short(m) && AllShort(ms)
    ensures AllShort([m] + ms) && Encode([m] + ms) == Record(m) + Encode(ms)
  {
    EncodeAppend([m], ms);
    EncodePush([], m);
    assert [] + [m] == [m] && [] + Record(m) == Record(m);
  }

  lemma PrefixJoins(file: seq<byte>, n: nat, e: seq<byte>)
    requires n + |e| <= |file| && file[n..][..|e|] == e
    ensures file[..n + |e|] == file[..n] + e && file[n + |e|..] == file[n..][|e|..]
  {}

  // ------------------------------------------------------------ the index

  datatype MessageIndex = MessageIndex(offset: Offset, filePos: nat, byteLen: nat)

  /** The index of a log written without gaps. */
  ghost predicate Canonical(index: seq<MessageIndex>, ms: seq<Bytes>)
    requires AllShort(ms)
  {
    && |index| == |ms|
    && forall i {:trigger index[i]} :: 0 <= i < |ms| ==>
         index[i] == MessageIndex(OffsetOf(ms, i), |Encode(ms[..i])| + HEADER, |ms[i]|)
  }

  lemma CanonicalPush(index: seq<MessageIndex>, ms: seq<Bytes>, m: Bytes)
    requires AllShort(ms) && Short(m) && Canonical(index, ms)
    ensures AllShort(ms + [m])
    ensures Canonical(index + [MessageIndex(NextOffset(ms), |Encode(ms)| + HEADER, |m|)], ms + [m])
  {
    var ms' := ms + [m];
    forall i | 0 <= i <= |ms| ensures ms'[..i] == ms[..i] {}
    assert ms[..|ms|] == ms;
  }

  lemma CanonicalPrefix(index: seq<MessageIndex>, ms: seq<Bytes>, j: nat)
    requires AllShort(ms) && Canonical(index, ms) && j <= |ms|
    ensures AllShort(ms[..j]) && Canonical(index[..j], ms[..j])
  {
    forall i | 0 <= i < j ensures ms[..j][..i] == ms[..i] {}
  }

  /** What recovery knows once it has read `ms` and stands at `cursor`. */
  ghost predicate Scanned(file: seq<byte>, cursor: nat, ms: seq<Bytes>, index: seq<MessageIndex>, next: Offset) {
    && cursor <= |file| && AllShort(ms)
    && Encode(ms) == file[..cursor]
    && Parse(file) == ms + Parse(file[cursor..])
    && Canonical(index, ms) && next == NextOffset(ms)
  }

  lemma ScanStep(file: seq<byte>, cursor: nat, ms: seq<Bytes>, index: seq<MessageIndex>, next: Offset, n: nat)
    requires Scanned(file, cursor, ms, index, next) && RecordAt(file, cursor) == Some(n)
    ensures var m := file[cursor + HEADER..cursor + HEADER + n];
            Scanned(file, cursor + HEADER + n, ms + [m], index + [MessageIndex(next, cursor + HEADER, n)],
                    At(next.readSeq + 1, next.byteOffset + n))
  {
    var m := file[cursor + HEADER..cursor + HEADER + n];
    NextEncoded(file, cursor, n, ms);
    NextParsed(file, cursor, n, ms);
    CanonicalPush(index, ms, m);
    SumLenPush(ms, m);
  }

  lemma ScanStart(file: seq<byte>)
    ensures Scanned(file, 0, [], [], At(0, 0))
  {
    assert file[0..] == file && [] + Parse(file) == Parse(file);
  }

  /** The length of the record at `cursor`, if a whole one lies there. */
  function RecordAt(file: seq<byte>, cursor: nat): Option<nat> {
    if cursor + HEADER > |file| then None
    else
      var n := FromLe32(file[cursor..cursor + HEADER]);
      if cursor + HEADER + n > |file| then None else Some(n)
  }

  lemma NoRecordThere(file: seq<byte>, cursor: nat)
    requires cursor <= |file| && RecordAt(file, cursor).None?
    ensures Parse(file[cursor..]) == []
  {
    var rest := file[cursor..];
    if |rest| >= HEADER { assert rest[..HEADER] == file[cursor..cursor + HEADER]; }
  }

  lemma ScanEnd(file: seq<byte>, cursor: nat, ms: seq<Bytes>, index: seq<MessageIndex>, next: Offset)
    requires Scanned(file, cursor, ms, index, next) && RecordAt(file, cursor).None?
    ensures Canonical(index, Parse(file)) && next == NextOffset(Parse(file)) && file[..cursor] == Encode(Parse(file))
  {
    NoRecordThere(file, cursor);
    assert ms + [] == ms;
  }

  /** `rebuild_index`: walk the file record by record and cut it at the first incomplete one. */
  method RebuildIndex(file: seq<byte>)
    returns (index: seq<MessageIndex>, nextReadSeq: nat, nextByteOffset: nat, kept: seq<byte>)
    ensures Canonical(index, Parse(file))
    ensures NextOffset(Parse(file)) == At(nextReadSeq, nextByteOffset)
    ensures kept == Encode(Parse(file))
  {
    index, nextReadSeq, nextByteOffset := [], 0, 0;
    var cursor := 0;
    ghost var ms: seq<Bytes> := [];
    kept := file;
    ScanStart(file);
    while cursor < |file|
      invariant Scanned(file, cursor, ms, index, At(nextReadSeq, nextByteOffset)) && kept == file
      decreases |file| - cursor
    {
      var record := RecordAt(file, cursor);
      if record.None? {
        ScanEnd(file, cursor, ms, index, At(nextReadSeq, nextByteOffset));
        kept := file[..cursor];
        return;
      }
      var recordLen := record.value;
      ScanStep(file, cursor, ms, index, At(nextReadSeq, nextByteOffset), recordLen);
      ms := ms + [file[cursor + HEADER..cursor + HEADER + recordLen]];
      index := index + [MessageIndex(At(nextReadSeq, nextByteOffset), cursor + HEADER, recordLen)];
      nextReadSeq := nextReadSeq + 1;
      nextByteOffset := nextByteOffset + recordLen;
      cursor := cursor + HEADER + recordLen;
    }
    ScanEnd(file, cursor, ms, index, At(nextReadSeq, nextByteOffset));
    assert file[..cursor] == file;
  }

  /** The record of length `n` that starts at `cursor`. */
  lemma NextEncoded(file: seq<byte>, cursor: nat, n: nat, ms: seq<Bytes>)
    requires cursor + HEADER + n <= |file| && AllShort(ms) && Encode(ms) == file[..cursor]
    requires n == FromLe32(file[cursor..cursor + HEADER])
    ensures var m := file[cursor + HEADER..cursor + HEADER + n];
            AllShort(ms + [m]) && Encode(ms + [m]) == file[..cursor + HEADER + n]
  {
    var header, m := file[cursor..cursor + HEADER], file[cursor + HEADER..cursor + HEADER + n];
    Le32Onto(header);
    EncodePush(ms, m);
    assert header + m == file[cursor..cursor + HEADER + n];
    assert file[..cursor] + file[cursor..cursor + HEADER + n] == file[..cursor + HEADER + n];
  }

  lemma NextParsed(file: seq<byte>, cursor: nat, n: nat, ms: seq<Bytes>)
    requires cursor + HEADER + n <= |file| && n == FromLe32(file[cursor..cursor + HEADER])
    ensures var end := cursor + HEADER + n;
            ms + Parse(file[cursor..]) == (ms + [file[cursor + HEADER..end]]) + Parse(file[end..])
  {
    var end := cursor + HEADER + n;
    var m, rest := file[cursor + HEADER..end], file[cursor..];
    assert rest[..HEADER] == file[cursor..cursor + HEADER];
    assert FirstLength(rest) == HEADER + n;
    assert rest[HEADER..HEADER + n] == m;
    assert rest[HEADER + n..] == file[end..];
    PrependParsed(ms, m, Parse(file[end..]));
  }

  lemma PrependParsed(ms: seq<Bytes>, m: Bytes, more: seq<Bytes>)
    ensures ms + ([m] + more) == (ms + [m]) + more
  {}

  // -------------------------------------------------------- torn suffixes

  /** How many of the records of `ms` lie wholly within the first `k` bytes of their encoding. */
  function WholeRecords(ms: seq<Bytes>, k: nat): (j: nat)
    requires AllShort(ms)
    ensures j <= |ms|
  {
    if ms == [] then 0
    else if |Encode(ms)| <= k then |ms|
    else WholeRecords(ms[..|ms| - 1], k)
  }

  /** A strict prefix of one record holds no record. */
  lemma TornRecord(m: Bytes, k: nat)
    requires Short(m) && k < |Record(m)|
    ensures Parse(Record(m)[..k]) == []
  {
    var file := Record(m)[..k];
    if k >= HEADER {
      Le32RoundTrip(|m|);
      assert file[..HEADER] == Le32(|m|);
    }
  }

  lemma {:induction false} TornPrefix(ms: seq<Bytes>, k: nat)
    requires AllShort(ms) && k <= |Encode(ms)|
    ensures var j := WholeRecords(ms, k);
            && Parse(Encode(ms)[..k]) == ms[..j]
            && |Encode(ms[..j])| <= k
            && (j < |ms| ==> k < |Encode(ms[..j + 1])|)
  {
    if k == |Encode(ms)| {
      WholeLog(ms);
    } else {
      var init, m := ms[..|ms| - 1], ms[|ms| - 1];
      if k < |Encode(init)| {
        TakeLeft(Encode(init), Record(m), k);
        TornPrefix(init, k);
        var j := WholeRecords(init, k);
        TakeTwice(ms, |init|, j);
        if j < |init| { TakeTwice(ms, |init|, j + 1); }
      } else {
        TornLast(init, m, k);
        TakeTwice(ms, |ms|, |ms|);
      }
    }
  }

  lemma TakeLeft(a: seq<byte>, b: seq<byte>, k: nat)
    requires k <= |a|
    ensures (a + b)[..k] == a[..k]
  {}

  lemma TakeTwice(ms: seq<Bytes>, i: nat, j: nat)
    requires j <= i <= |ms|
    ensures ms[..i][..j] == ms[..j] && ms[..|ms|] == ms
  {}

  lemma WholeLog(ms: seq<Bytes>)
    requires AllShort(ms)
    ensures Parse(Encode(ms)[..|Encode(ms)|]) == ms && WholeRecords(ms, |Encode(ms)|) == |ms| && ms[..|ms|] == ms
  {
    assert Encode(ms)[..|Encode(ms)|] == Encode(ms) + [];
    ParseEncoded(ms, []);
    assert ms + [] == ms;
  }

  /** When only the last record is torn, the ones before it are all there is. */
  lemma TornLast(init: seq<Bytes>, m: Bytes, k: nat)
    requires AllShort(init) && Short(m) && |Encode(init)| <= k < |Encode(init) + Record(m)|
    ensures Parse((Encode(init) + Record(m))[..k]) == init && WholeRecords(init, k) == |init|
  {
    var e := Encode(init);
    assert (e + Record(m))[..k] == e + Record(m)[..k - |e|];
    ParseEncoded(init, Record(m)[..k - |e|]);
    TornRecord(m, k - |e|);
    assert init + [] == init;
  }

  /**
    Torn-log recovery: whatever prefix of a cleanly written log survives, recovery yields exactly
    the records wholly inside it, with the offsets, positions and counters the live index had.
   */
  lemma TornRecovery(ms: seq<Bytes>, live: seq<MessageIndex>, k: nat, index: seq<MessageIndex>)
    requires AllShort(ms) && Canonical(live, ms) && k <= |Encode(ms)|
    requires Canonical(index, Parse(Encode(ms)[..k]))
    ensures var j := WholeRecords(ms, k);
            && Parse(Encode(ms)[..k]) == ms[..j]
            && index == live[..j]
            && |Encode(ms[..j])| <= k
            && (j < |ms| ==> k < |Encode(ms[..j + 1])|)
  {
    TornPrefix(ms, k);
    var j := WholeRecords(ms, k);
    CanonicalPrefix(live, ms, j);
    CanonicalUnique(index, live[..j], ms[..j]);
  }

  lemma CanonicalUnique(a: seq<MessageIndex>, b: seq<MessageIndex>, ms: seq<Bytes>)
    requires AllShort(ms) && Canonical(a, ms) && Canonical(b, ms)
    ensures a == b
  {
    forall i | 0 <= i < |a| ensures a[i] == b[i] {}
  }

  /** Recovering a recovered file changes nothing, for any bytes at all. */
  lemma RecoveryIdempotent(file: seq<byte>)
    ensures Parse(Encode(Parse(file))) == Parse(file)
  {
    ParseEncoded(Parse(file), []);
    assert Encode(Parse(file)) + [] == Encode(Parse(file));
    assert Parse(file) + [] == Parse(file);
  }

  /** Every message whose record was synced is still there after a crash that keeps at least the synced bytes. */
  lemma SyncedSurvive(acked: seq<Bytes>, more: seq<byte>, k: nat)
    requires AllShort(acked) && |Encode(acked)| <= k <= |Encode(acked) + more|
    ensures var ms := Parse((Encode(acked) + more)[..k]);
            |acked| <= |ms| && ms[..|acked|] == acked
  {
    var e := Encode(acked);
    assert (e + more)[..k] == e + more[..k - |e|];
    ParseEncoded(acked, more[..k - |e|]);
  }

  // -------------------------------------------------- appending to any bytes

  predicate Begins<T(==)>(part: seq<T>, whole: seq<T>) {
    |part| <= |whole| && whole[..|part|] == part
  }

  /** Nothing but whole records. */
  predicate Whole(file: seq<byte>) {
    Encode(Parse(file)) == file
  }

  /** The records of a prefix are the first records of the whole, whatever the bytes. */
  lemma PrefixKept(file: seq<byte>, n: nat, k: nat)
    requires n <= k <= |file|
    ensures Begins(Parse(file[..n]), Parse(file[..k]))
  {
    var ms := Parse(file[..n]);
    var e := Encode(ms);
    ParsePrefix(file[..n]);
    SplitAt(file, |e|, n, k);
    ParseEncoded(ms, file[|e|..k]);
  }

  lemma SplitAt(file: seq<byte>, i: nat, n: nat, k: nat)
    requires i <= n <= k <= |file|
    ensures file[..k] == file[..n][..i] + file[i..k]
  {}

  lemma WrittenBatch(file: seq<byte>, batch: seq<Bytes>)
    requires Whole(file) && AllShort(batch)
    ensures Whole(file + Encode(batch)) && Parse(file + Encode(batch)) == Parse(file) + batch
  {
    ParseEncoded(Parse(file), Encode(batch));
    ParseEncoded(batch, []);
    assert Encode(batch) + [] == Encode(batch) && batch + [] == batch;
    EncodeAppend(Parse(file), batch);
  }

  /** What a log holds beyond its whole records, if anything, is torn. */
  lemma TornRest(file: seq<byte>) returns (torn: seq<byte>)
    ensures file == Encode(Parse(file)) + torn && !HasRecord(torn)
    ensures Whole(file) <==> torn == []
  {
    ParsePrefix(file);
    var n := |Encode(Parse(file))|;
    torn := file[n..];
    SplitOff(file, n);
  }

  lemma SplitOff(file: seq<byte>, n: nat)
    requires n <= |file|
    ensures file == file[..n] + file[n..]
    ensures file == file[..n] <==> file[n..] == []
  {}

  lemma EncodeOne(m: Bytes)
    requires Short(m)
    ensures Encode([m]) == Record(m) && Record(m)[..HEADER] == Le32(|m|)
  {
    EncodePush([], m);
    assert [] + [m] == [m] && [] + Record(m) == Record(m);
  }

  /** One zero byte. */
  const ZERO: Bytes := [0]

  /** Behind torn bytes the first record, if it is one byte long, holds the header byte of what was written. */
  lemma HeaderByteFirst(torn: seq<byte>, file: seq<byte>)
    requires torn != [] && !HasRecord(torn) && file == torn + [1, 0, 0, 0, 0]
    ensures HasRecord(file) && FromLe32(file[..HEADER]) == 1 ==> file[HEADER] == 1
  {
    if |torn| < HEADER {
      assert file[|torn|] == 1;
    } else {
      assert file[..HEADER] == torn[..HEADER];
    }
  }

  /** Behind torn bytes, whatever they are, a message of one zero byte is not what recovery finds first. */
  lemma LostBehind(torn: seq<byte>)
    requires torn != [] && !HasRecord(torn)
    ensures var ms := Parse(torn + Record(ZERO)); ms == [] || ms[0] != ZERO
  {
    ZeroRecord(ZERO);
    HeaderByteFirst(torn, torn + Record(ZERO));
    FirstIsNot(torn + Record(ZERO), 0);
  }

  lemma ZeroRecord(m: Bytes)
    requires m == [0]
    ensures Record(m) == [1, 0, 0, 0, 0]
  {
    assert Le32(|m|) == [1, 0, 0, 0];
  }

  lemma FirstIsNot(file: seq<byte>, b: byte)
    requires HasRecord(file) && FromLe32(file[..HEADER]) == 1 ==> file[HEADER] != b
    ensures Parse(file) == [] || Parse(file)[0] != [b]
  {
    if HasRecord(file) {
      var first := file[HEADER..FirstLength(file)];
      assert Parse(file)[0] == first;
      assert |first| == 1 ==> first[0] == file[HEADER];
    }
  }

  /** The batch is recovered right behind everything recovered before it. */
  ghost predicate Lands(file: seq<byte>, batch: seq<Bytes>)
    requires AllShort(batch)
  {
    Begins(Parse(file) + batch, Parse(file + Encode(batch)))
  }

  /**
    Appended to any log file, whatever failed writes have left in it, every batch is recovered exactly
    when the file holds whole records only.
   */
  lemma LaterBatchesRecoveredExactly(file: seq<byte>)
    ensures (forall batch :: AllShort(batch) ==> Lands(file, batch)) <==> Whole(file)
  {
    if Whole(file) {
      forall batch | AllShort(batch) ensures Lands(file, batch) { WrittenBatch(file, batch); }
    } else {
      var torn := TornRest(file);
      LostAfter(file, torn);
    }
  }

  lemma LostAfter(file: seq<byte>, torn: seq<byte>)
    requires torn != [] && !HasRecord(torn) && file == Encode(Parse(file)) + torn
    ensures var ms, ms' := Parse(file), Parse(file + Encode([ZERO]));
            Begins(ms, ms') && (|ms'| == |ms| || ms'[|ms|] != ZERO)
    ensures !Lands(file, [ZERO])
  {
    var ms, m := Parse(file), ZERO;
    EncodeOne(m);
    Reassociate(Encode(ms), torn, Record(m));
    ParseEncoded(ms, torn + Record(m));
    LostBehind(torn);
    assert (ms + [m])[|ms|] == m;
  }

  /** What is recovered stays recovered, whatever is written after it. */
  lemma RecoveredForGood(file: seq<byte>, batch: seq<Bytes>, more: seq<byte>)
    requires AllShort(batch) && Whole(file)
    ensures Begins(Parse(file) + batch, Parse((file + Encode(batch)) + more))
  {
    WrittenBatch(file, batch);
    ParseEncoded(Parse(file) + batch, more);
    EncodeAppend(Parse(file), batch);
  }

  /** A write that stops after `n` bytes leaves whole records exactly when it stops at the end of one. */
  lemma TornWriteWholeExactly(file: seq<byte>, batch: seq<Bytes>, n: nat)
    requires Whole(file) && AllShort(batch) && n <= |Encode(batch)|
    ensures Whole(file + Encode(batch)[..n]) <==> n == |Encode(batch[..WholeRecords(batch, n)])|
  {
    var ms, left := batch[..WholeRecords(batch, n)], Encode(batch)[..n];
    TornPrefix(batch, n);
    ParsePrefix(left);
    ParseEncoded(Parse(file), left);
    EncodeAppend(Parse(file), ms);
    assert |file + left| == |file| + n;
    if n == |Encode(ms)| { assert left[..n] == left; }
  }
}
