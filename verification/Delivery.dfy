/**
  What an SSE client receives: the items a live reader sends, framed, written to the wire
  and read back by the event stream rules.
 */
module Delivery {
  import opened Types
  import opened LogSpec
  import opened Runs
  import opened Reading
  import opened OffsetCodec
  import opened LiveReader
  import opened Chunks
  import S = Sse

  // ------------------------------------------------------ the control payload

  function Decimal(n: nat): string {
    (if n < 10 then "" else Decimal(n / 10)) + ['0' + (n % 10) as char]
  }

  /** The number a row of decimal digits stands for. */
  function NumberIn(digits: string): int {
    if digits == "" then 0
    else 10 * NumberIn(digits[..|digits| - 1]) + (digits[|digits| - 1] as int - '0' as int)
  }

  lemma {:induction false} DecimalRead(n: nat)
    ensures Decimal(n) != "" && NumberIn(Decimal(n)) == n
    ensures forall i :: 0 <= i < |Decimal(n)| ==> '0' <= Decimal(n)[i] <= '9'
  {
    DigitRead(n);
    var c, high := '0' + (n % 10) as char, if n < 10 then "" else Decimal(n / 10);
    NumberPush(high, c);
    if n >= 10 { DecimalRead(n / 10); }
    assert Decimal(n) == high + [c];
  }

  lemma DigitRead(n: nat)
    ensures var c := '0' + (n % 10) as char; '0' <= c <= '9' && c as int - '0' as int == n % 10
  {}

  lemma NumberPush(digits: string, c: char)
    ensures NumberIn(digits + [c]) == 10 * NumberIn(digits) + (c as int - '0' as int)
  {
    assert (digits + [c])[..|digits|] == digits;
  }

  lemma {:induction false} DecimalOneLine(n: nat)
    ensures S.OneLine(Decimal(n))
  {
    if n >= 10 { DecimalOneLine(n / 10); }
  }

  const HEAD := "{\"streamNextOffset\":\""
  const CLOSED_TAIL := "\",\"upToDate\":true,\"streamClosed\":true}"
  const CURSOR_HEAD := "\",\"streamCursor\":\""
  const OPEN_TAIL := "\",\"upToDate\":true}"

  /** `build_sse_control`, serialised: an open stream carries a cursor, a closed one says so. */
  function ControlText(next: Offset, closed: bool, cursor: nat): string
    requires Fits64(next)
  {
    HEAD + Chars(Show(next)) + if closed then CLOSED_TAIL else CURSOR_HEAD + Decimal(cursor) + OPEN_TAIL
  }

  /** An open and a closed stream as a client sees them. */
  lemma ControlsPrinted(next: Offset)
    requires Fits64(next)
    ensures ControlText(next, false, 7) ==
            "{\"streamNextOffset\":\"" + Chars(Show(next)) + "\",\"streamCursor\":\"7\",\"upToDate\":true}"
    ensures ControlText(next, true, 7) ==
            "{\"streamNextOffset\":\"" + Chars(Show(next)) + "\",\"upToDate\":true,\"streamClosed\":true}"
  {
    assert Decimal(7) == "7";
    assert CURSOR_HEAD + "7" + OPEN_TAIL == "\",\"streamCursor\":\"7\",\"upToDate\":true}";
  }

  lemma HexOneLine(v: nat, n: nat)
    ensures S.OneLine(Chars(Hex(v, n)))
  {
    forall i | 0 <= i < n ensures Chars(Hex(v, n))[i] != '\r' && Chars(Hex(v, n))[i] != '\n' {
      assert IsHex(Hex(v, n)[i]);
    }
  }

  lemma ShowOneLine(o: Offset)
    requires Fits64(o)
    ensures S.OneLine(Chars(Show(o)))
  {
    if o.At? {
      HexOneLine(o.readSeq, 16);
      HexOneLine(o.byteOffset, 16);
      var u: seq<byte> := [UNDERSCORE];
      assert Chars(Show(o)) == Chars(Hex(o.readSeq, 16)) + Chars(u) + Chars(Hex(o.byteOffset, 16));
    }
  }

  lemma OneLineConcat(a: string, b: string)
    requires S.OneLine(a) && S.OneLine(b)
    ensures S.OneLine(a + b)
  {}

  lemma LabelsOneLine()
    ensures S.OneLine(HEAD) && S.OneLine(CLOSED_TAIL) && S.OneLine(CURSOR_HEAD) && S.OneLine(OPEN_TAIL)
  {}

  lemma ControlOneLine(next: Offset, closed: bool, cursor: nat)
    requires Fits64(next)
    ensures S.OneLine(ControlText(next, closed, cursor))
  {
    LabelsOneLine();
    ShowOneLine(next);
    OneLineConcat(HEAD, Chars(Show(next)));
    DecimalOneLine(cursor);
    OneLineConcat(CURSOR_HEAD, Decimal(cursor));
    OneLineConcat(CURSOR_HEAD + Decimal(cursor), OPEN_TAIL);
    OneLineConcat(HEAD + Chars(Show(next)),
                  if closed then CLOSED_TAIL else CURSOR_HEAD + Decimal(cursor) + OPEN_TAIL);
  }

  /** The offset a client finds in a control payload. */
  function OffsetIn(text: string): string {
    if |text| < 54 then "" else text[21..54]
  }

  /** The payload says that the stream is closed. */
  predicate ClosedIn(text: string) {
    |text| >= 58 && text[56..58] == "\"u"
  }

  /** A client finds the offset and the closed mark in the payload, whatever the cursor. */
  lemma ControlReads(next: Offset, closed: bool, cursor: nat)
    requires Fits64(next) && next.At?
    ensures var text := ControlText(next, closed, cursor);
            text[0] == '{' && OffsetIn(text) == Chars(Show(next)) && (ClosedIn(text) <==> closed)
  {
    var shown := Chars(Show(next));
    var tail := if closed then CLOSED_TAIL else CURSOR_HEAD + Decimal(cursor) + OPEN_TAIL;
    HeadLabel();
    TailLabels();
    assert |shown| == 33;
    ThreeParts(HEAD, shown, tail);
  }

  lemma HeadLabel()
    ensures |HEAD| == 21 && HEAD[0] == '{'
  {}

  lemma TailLabels()
    ensures |CLOSED_TAIL| >= 4 && CLOSED_TAIL[2] == '"' && CLOSED_TAIL[3] == 'u'
    ensures |CURSOR_HEAD| >= 4 && CURSOR_HEAD[2] == '"' && CURSOR_HEAD[3] == 's'
  {}

  lemma ThreeParts(head: string, shown: string, tail: string)
    requires |head| == 21 && |shown| == 33 && |tail| >= 4 && tail[2] == '"'
    ensures var text := head + shown + tail;
            && text[0] == head[0] && OffsetIn(text) == shown && (ClosedIn(text) <==> tail[3] == 'u')
  {
    var text := head + shown + tail;
    assert text[21..54] == shown && text[56] == tail[2] && text[57] == tail[3];
    assert text[56..58] == [tail[2], tail[3]];
  }

  /** How a reader's items are framed; `cursor` gives the cursor issued for each item of an open stream. */
  datatype Framing = Framing(isBinary: bool, isJson: bool, codec: S.Codec, cursor: nat -> nat)

  function Texts(f: Framing, i: Item): seq<string> {
    if i.Chunk? then S.EventTexts(i.messages, f.isBinary, f.isJson, f.codec) else []
  }

  /** Every offset the items carry is one the wire format can hold. */
  predicate Printable(items: seq<Item>) {
    forall k :: 0 <= k < |items| && items[k].Chunk? ==> Fits64(items[k].next)
  }

  /** The data events of one read and the control event behind them; `k` is the place of the item. */
  function Frames(f: Framing, i: Item, k: nat): seq<S.Frame>
    requires i.Chunk? ==> Fits64(i.next)
  {
    match i
    case Chunk(_, next, closed) => S.Datas(Texts(f, i)) + [S.Control(ControlText(next, closed, f.cursor(k)))]
    case Empty(_, _) => []
    case Tick => [S.KeepAlive]
  }

  function AllFrames(f: Framing, items: seq<Item>): seq<S.Frame>
    requires Printable(items)
  {
    if items == [] then []
    else
      var n := |items| - 1;
      AllFrames(f, items[..n]) + Frames(f, items[n], n)
  }

  function AllTexts(f: Framing, items: seq<Item>): seq<string> {
    if items == [] then [] else AllTexts(f, items[..|items| - 1]) + Texts(f, items[|items| - 1])
  }

  /** The payloads of the data events, in order. */
  function DataOf(events: seq<S.Event>): seq<string> {
    if events == [] then []
    else (if events[0].kind == "data" then [events[0].data] else []) + DataOf(events[1..])
  }

  /** The texts as a client reads them: breaks made LF, one leading space per line gone. */
  function Readable(texts: seq<string>): seq<string> {
    seq(|texts|, i requires 0 <= i < |texts| => S.DropLineSpaces(S.NormaliseBreaks(texts[i]), true))
  }

  lemma {:induction false} DataOfConcat(a: seq<S.Event>, b: seq<S.Event>)
    ensures DataOf(a + b) == DataOf(a) + DataOf(b)
  {
    if a == [] {
      assert a + b == b;
    } else {
      assert (a + b)[1..] == a[1..] + b;
      DataOfConcat(a[1..], b);
    }
  }

  lemma {:induction false} DeliveredConcat(a: seq<S.Frame>, b: seq<S.Frame>)
    ensures S.DeliveredAll(a + b) == S.DeliveredAll(a) + S.DeliveredAll(b)
  {
    if a == [] {
      assert a + b == b;
    } else {
      assert (a + b)[1..] == a[1..] + b;
      DeliveredConcat(a[1..], b);
    }
  }

  lemma {:induction false} DataOfDatas(texts: seq<string>)
    ensures DataOf(S.DeliveredAll(S.Datas(texts))) == Readable(texts)
  {
    if texts != [] {
      DataOfDatas(texts[1..]);
      assert S.Datas(texts)[1..] == S.Datas(texts[1..]);
      S.ReceivedText(texts[0]);
      var d := S.Delivered(S.Data(texts[0]));
      assert d == [S.Event("data", S.Received(texts[0]))];
      DataOfConcat(d, S.DeliveredAll(S.Datas(texts[1..])));
      assert DataOf(d) == [S.Received(texts[0])] by { assert d[1..] == []; }
    }
  }

  lemma {:induction false} DataOfFrames(f: Framing, items: seq<Item>)
    requires Printable(items)
    ensures DataOf(S.DeliveredAll(AllFrames(f, items))) == Readable(AllTexts(f, items))
  {
    if items != [] {
      var n := |items| - 1;
      var init, fs := items[..n], Frames(f, items[n], n);
      DataOfFrames(f, init);
      DeliveredConcat(AllFrames(f, init), fs);
      DataOfConcat(S.DeliveredAll(AllFrames(f, init)), S.DeliveredAll(fs));
      DataOfItem(f, items[n], n);
      ReadableConcat(AllTexts(f, init), Texts(f, items[n]));
    }
  }

  lemma ReadableConcat(a: seq<string>, b: seq<string>)
    ensures Readable(a + b) == Readable(a) + Readable(b)
  {}

  lemma DataOfItem(f: Framing, i: Item, k: nat)
    requires i.Chunk? ==> Fits64(i.next)
    ensures DataOf(S.DeliveredAll(Frames(f, i, k))) == Readable(Texts(f, i))
  {
    if i.Chunk? {
      var c := [S.Control(ControlText(i.next, i.closed, f.cursor(k)))];
      DeliveredConcat(S.Datas(Texts(f, i)), c);
      DataOfConcat(S.DeliveredAll(S.Datas(Texts(f, i))), S.DeliveredAll(c));
      DataOfDatas(Texts(f, i));
      assert c[1..] == [];
    }
  }

  lemma {:induction false} FramesWellFormed(f: Framing, items: seq<Item>)
    requires Printable(items)
    ensures forall k :: 0 <= k < |AllFrames(f, items)| ==> S.WellFormed(AllFrames(f, items)[k])
  {
    if items != [] {
      var n := |items| - 1;
      FramesWellFormed(f, items[..n]);
      if items[n].Chunk? { ControlOneLine(items[n].next, items[n].closed, f.cursor(n)); }
    }
  }

  /** The client sees one data event per framed text, in order, whatever the texts are. */
  lemma ClientReads(f: Framing, items: seq<Item>)
    requires Printable(items)
    ensures DataOf(S.Parse(S.WireAll(AllFrames(f, items)))) == Readable(AllTexts(f, items))
  {
    FramesWellFormed(f, items);
    S.ParseUndoesWire(AllFrames(f, items));
    DataOfFrames(f, items);
  }

  function Decoder(f: Framing): Bytes -> string {
    if f.isBinary then f.codec.base64 else f.codec.utf8
  }

  lemma {:induction false} TextsOfMessages(f: Framing, items: seq<Item>)
    requires !f.isJson
    ensures AllTexts(f, items) == S.Decoded(Emitted(items), Decoder(f))
  {
    if items != [] { TextsOfMessages(f, items[..|items| - 1]); }
  }

  lemma NextFits(ms: seq<Bytes>, n: nat)
    requires n <= |ms| && Fits64(NextOffset(ms))
    ensures Fits64(NextOffset(ms[..n]))
  {
    assert ms == ms[..n] + ms[n..];
    SumLenAppend(ms[..n], ms[n..]);
  }

  /** As long as the stream itself fits the offset format, so does every offset a reader sends. */
  lemma SentPrintable(p: Setup, steps: seq<Step>, name: string)
    requires Run(p, steps).Some? && name in Run(p, steps).value.readers
    requires var s := Run(p, steps).value;
             InThisLife(p, s, s.readers[name]) && Fits64(NextOffset(s.store[p.name].messages))
    ensures Printable(Run(p, steps).value.readers[name].sent)
  {
    var s := Run(p, steps).value;
    var r, ms := s.readers[name], s.store[p.name].messages;
    forall k | 0 <= k < |r.sent| && r.sent[k].Chunk? ensures Fits64(r.sent[k].next) {
      ChunksPoint(p, steps, name, k);
      NextFits(ms, BeforeNext(r, k));
    }
  }

  /**
    From the store to the client: over every run, the data events a client reads from an SSE
    response are exactly the messages of the stream from the requested position on, each once and
    in order, up to the last read, as long as the stream was not re-created under the reader.
   */
  lemma ClientReceivesLog(p: Setup, steps: seq<Step>, name: string, f: Framing)
    requires Run(p, steps).Some? && name in Run(p, steps).value.readers
    requires var s := Run(p, steps).value;
             InThisLife(p, s, s.readers[name]) && Fits64(NextOffset(s.store[p.name].messages)) && !f.isJson
    ensures var s := Run(p, steps).value;
            var r, ms := s.readers[name], s.store[p.name].messages;
            && r.start <= |r.seen| <= |ms| && Printable(r.sent)
            && DataOf(S.Parse(S.WireAll(AllFrames(f, r.sent)))) ==
               Readable(S.Decoded(ms[r.start..|r.seen|], Decoder(f)))
  {
    var s := Run(p, steps).value;
    var r, ms := s.readers[name], s.store[p.name].messages;
    SentExactlyOnce(p, steps, name);
    SentPrintable(p, steps, name);
    ClientReads(f, r.sent);
    TextsOfMessages(f, r.sent);
    assert r.seen[r.start..] + [] == r.seen[r.start..];
    assert ms[r.start..|r.seen|] == ms[..|r.seen|][r.start..];
  }

  // ------------------------------------------------------ resuming from the wire

  /** The payloads of the control events, in order. */
  function ControlsOf(events: seq<S.Event>): seq<string> {
    if events == [] then []
    else (if events[0].kind == "control" then [events[0].data] else []) + ControlsOf(events[1..])
  }

  lemma {:induction false} ControlsOfConcat(a: seq<S.Event>, b: seq<S.Event>)
    ensures ControlsOf(a + b) == ControlsOf(a) + ControlsOf(b)
  {
    if a == [] {
      assert a + b == b;
    } else {
      assert (a + b)[1..] == a[1..] + b;
      ControlsOfConcat(a[1..], b);
    }
  }

  lemma {:induction false} NoControlInData(texts: seq<string>)
    ensures ControlsOf(S.DeliveredAll(S.Datas(texts))) == []
  {
    if texts != [] {
      NoControlInData(texts[1..]);
      assert S.Datas(texts)[1..] == S.Datas(texts[1..]);
      var d := S.Delivered(S.Data(texts[0]));
      ControlsOfConcat(d, S.DeliveredAll(S.Datas(texts[1..])));
      assert d[1..] == [];
    }
  }

  lemma ControlOfItem(f: Framing, i: Item, k: nat)
    requires i.Chunk? ==> Fits64(i.next)
    ensures ControlsOf(S.DeliveredAll(Frames(f, i, k))) ==
            if i.Chunk? then [ControlText(i.next, i.closed, f.cursor(k))] else []
  {
    if i.Chunk? {
      var text := ControlText(i.next, i.closed, f.cursor(k));
      var c := [S.Control(text)];
      DeliveredConcat(S.Datas(Texts(f, i)), c);
      ControlsOfConcat(S.DeliveredAll(S.Datas(Texts(f, i))), S.DeliveredAll(c));
      NoControlInData(Texts(f, i));
      assert text[0] == '{' && c[1..] == [];
      OneControl(text);
    }
  }

  lemma OneControl(text: string)
    requires text != "" && text[0] == '{'
    ensures ControlsOf(S.DeliveredAll([S.Control(text)])) == [text]
  {
    assert S.DeliveredAll([S.Control(text)]) == [S.Event("control", text)] by { assert [S.Control(text)][1..] == []; }
    assert [S.Event("control", text)][1..] == [];
  }

  /** One control payload per read, with its offset and closed mark. */
  function Controls(f: Framing, items: seq<Item>): seq<string>
    requires Printable(items)
  {
    if items == [] then []
    else
      var n := |items| - 1;
      Controls(f, items[..n]) +
      if items[n].Chunk? then [ControlText(items[n].next, items[n].closed, f.cursor(n))] else []
  }

  lemma {:induction false} ControlsOfFrames(f: Framing, items: seq<Item>)
    requires Printable(items)
    ensures ControlsOf(S.DeliveredAll(AllFrames(f, items))) == Controls(f, items)
  {
    if items != [] {
      var n := |items| - 1;
      ControlsOfFrames(f, items[..n]);
      DeliveredConcat(AllFrames(f, items[..n]), Frames(f, items[n], n));
      ControlsOfConcat(S.DeliveredAll(AllFrames(f, items[..n])), S.DeliveredAll(Frames(f, items[n], n)));
      ControlOfItem(f, items[n], n);
    }
  }

  /**
    What an SSE reader has sent: a chunk first, then chunks and keep-alives; every chunk carries a concrete
    offset that can be printed, and only the last item says closed.
   */
  ghost predicate Sendable(items: seq<Item>) {
    && Printable(items) && items != [] && items[0].Chunk?
    && (forall k :: 0 <= k < |items| ==> !items[k].Empty?)
    && (forall k :: 0 <= k < |items| && items[k].Chunk? ==> items[k].next.At?)
    && (forall k :: 0 <= k < |items| - 1 ==> !SaysClosed(items[k]))
  }

  /** The last control payload carries the offset the reader sent last, and whether it said closed. */
  lemma {:induction false} LastControl(f: Framing, items: seq<Item>)
    requires Sendable(items)
    ensures var cs := Controls(f, items);
            cs != [] && LastNext(items).At? && Fits64(LastNext(items))
            && OffsetIn(cs[|cs| - 1]) == Chars(Show(LastNext(items)))
            && (ClosedIn(cs[|cs| - 1]) <==> SaysClosed(items[|items| - 1]))
  {
    var n := |items| - 1;
    if items[n].Chunk? {
      ControlReads(items[n].next, items[n].closed, f.cursor(n));
    } else {
      LastControl(f, items[..n]);
    }
  }

  /** The payload holds the printed form of this offset and of no other. */
  ghost predicate Names(text: string, o: Offset) {
    Fits64(o) && Chars(Show(o)) == OffsetIn(text)
  }

  /** A client finds the last offset sent in the last control event, and whether it said closed. */
  lemma ClientFinds(f: Framing, items: seq<Item>, o: Offset)
    requires Sendable(items)
    ensures var controls := ControlsOf(S.Parse(S.WireAll(AllFrames(f, items))));
            && controls != []
            && (Names(controls[|controls| - 1], o) <==> o == LastNext(items))
            && (ClosedIn(controls[|controls| - 1]) <==> SaysClosed(items[|items| - 1]))
  {
    FramesWellFormed(f, items);
    S.ParseUndoesWire(AllFrames(f, items));
    ControlsOfFrames(f, items);
    LastNames(f, items, o);
  }

  lemma LastNames(f: Framing, items: seq<Item>, o: Offset)
    requires Sendable(items)
    ensures var controls := Controls(f, items);
            && controls != []
            && (Names(controls[|controls| - 1], o) <==> o == LastNext(items))
            && (ClosedIn(controls[|controls| - 1]) <==> SaysClosed(items[|items| - 1]))
  {
    LastControl(f, items);
    var controls := Controls(f, items);
    NamesOne(controls[|controls| - 1], LastNext(items), o);
  }

  lemma NamesOne(text: string, a: Offset, b: Offset)
    requires Names(text, a)
    ensures Names(text, b) <==> b == a
  {
    if Names(text, b) {
      CharsInjective(Show(a), Show(b));
      ShowInjective(a, b);
    }
  }

  /** In the stream's life, what an SSE reader sends has this shape, and an item that says closed is right. */
  lemma SentShape(p: Setup, steps: seq<Step>, name: string)
    requires Run(p, steps).Some? && name in Run(p, steps).value.readers
    requires var s := Run(p, steps).value;
             var r := s.readers[name];
             InThisLife(p, s, r) && Fits64(NextOffset(s.store[p.name].messages)) && r.mode.Sse? && r.sent != []
    ensures var sent := Run(p, steps).value.readers[name].sent;
            Sendable(sent) && (SaysClosed(sent[|sent| - 1]) ==> Run(p, steps).value.store[p.name].closed)
  {
    RunKeepsItems(p, steps);
    SentPrintable(p, steps, name);
    var s := Run(p, steps).value;
    var r := s.readers[name];
    forall k | 0 <= k < |r.sent| && r.sent[k].Chunk? ensures r.sent[k].next.At? {
      ChunksPoint(p, steps, name, k);
    }
    ShapeOf(p, s, r);
  }

  lemma ShapeOf(p: Setup, s: State, r: Reader)
    requires ItemInv(p, s, r) && InThisLife(p, s, r) && r.mode.Sse? && r.sent != [] && Printable(r.sent)
    requires forall k :: 0 <= k < |r.sent| && r.sent[k].Chunk? ==> r.sent[k].next.At?
    ensures Sendable(r.sent) && (SaysClosed(r.sent[|r.sent| - 1]) ==> s.store[p.name].closed)
  {}

  /**
    A client that has read what the reader sent, and finds `o` in the last control event, gets the rest of the
    log by a read from `o`; when that event says closed, the log is closed.
   */
  ghost predicate ResumesFrom(f: Framing, r: Reader, log: StreamLog, o: Offset) {
    && Printable(r.sent) && r.start <= |log.messages|
    && var controls := ControlsOf(S.Parse(S.WireAll(AllFrames(f, r.sent))));
       && controls != []
       && (Names(controls[|controls| - 1], o) ==>
             Emitted(r.sent) + ReadFrom(log.messages, o) == log.messages[r.start..])
       && (ClosedIn(controls[|controls| - 1]) ==> log.closed)
  }

  /**
    From the wire back to the store: over every run, the offset in the last control event a client reads is
    one that leads a later read to exactly the messages of the stream it has not been sent.
   */
  lemma ClientResumes(p: Setup, steps: seq<Step>, name: string, f: Framing, o: Offset)
    requires Run(p, steps).Some? && name in Run(p, steps).value.readers
    requires var s := Run(p, steps).value;
             var r := s.readers[name];
             InThisLife(p, s, r) && Fits64(NextOffset(s.store[p.name].messages)) && r.mode.Sse? && r.sent != []
    ensures var s := Run(p, steps).value;
            ResumesFrom(f, s.readers[name], s.store[p.name], o)
  {
    var s := Run(p, steps).value;
    var r := s.readers[name];
    SentShape(p, steps, name);
    RunKeeps(p, steps);
    RunKeepsItems(p, steps);
    ReaderSlice(p, s, r);
    FindsRest(f, r, s.store[p.name], o);
  }

  lemma FindsRest(f: Framing, r: Reader, log: StreamLog, o: Offset)
    requires Sendable(r.sent) && (SaysClosed(r.sent[|r.sent| - 1]) ==> log.closed) && AllComplete(r, log.messages)
    ensures ResumesFrom(f, r, log, o)
  {
    var n := |r.sent| - 1;
    ClientFinds(f, r.sent, o);
    assert Completes(r, log.messages, n);
    assert r.sent[..n + 1] == r.sent && Emitted(r.sent) + [] == Emitted(r.sent);
  }

  // ---------------------------------------------------------------- JSON streams

  /** The messages of the reads that returned any, one list per read. */
  function Batches(items: seq<Item>): seq<seq<Bytes>> {
    if items == [] then []
    else
      var last := items[|items| - 1];
      Batches(items[..|items| - 1]) + if last.Chunk? && last.messages != [] then [last.messages] else []
  }

  function Flatten(batches: seq<seq<Bytes>>): seq<Bytes> {
    if batches == [] then [] else Flatten(batches[..|batches| - 1]) + batches[|batches| - 1]
  }

  /** One JSON array per list. */
  function Arrays(f: Framing, batches: seq<seq<Bytes>>): seq<string> {
    seq(|batches|, i requires 0 <= i < |batches| => "[" + S.Commas(S.Decoded(batches[i], f.codec.utf8)) + "]")
  }

  lemma BatchPush(f: Framing, batches: seq<seq<Bytes>>, b: seq<Bytes>)
    requires f.isJson && b != []
    ensures Flatten(batches + [b]) == Flatten(batches) + b
    ensures Arrays(f, batches + [b]) == Arrays(f, batches) + S.EventTexts(b, f.isBinary, f.isJson, f.codec)
  {
    assert (batches + [b])[..|batches|] == batches;
  }

  lemma {:induction false} BatchesOfItems(f: Framing, items: seq<Item>)
    requires f.isJson
    ensures Flatten(Batches(items)) == Emitted(items) && AllTexts(f, items) == Arrays(f, Batches(items))
    ensures forall i :: 0 <= i < |Batches(items)| ==> Batches(items)[i] != []
  {
    if items != [] {
      var init, last := items[..|items| - 1], items[|items| - 1];
      BatchesOfItems(f, init);
      if last.Chunk? && last.messages != [] {
        BatchPush(f, Batches(init), last.messages);
      } else {
        assert Texts(f, last) == [] && Batches(items) == Batches(init);
      }
    }
  }

  /**
    A JSON stream: the data events a client reads are arrays, one per read that returned messages, and the
    messages in them are the stream from the requested position up to the last read, cut into
    consecutive pieces in order.
   */
  lemma ClientReceivesArrays(p: Setup, steps: seq<Step>, name: string, f: Framing)
    requires Run(p, steps).Some? && name in Run(p, steps).value.readers
    requires var s := Run(p, steps).value;
             InThisLife(p, s, s.readers[name]) && Fits64(NextOffset(s.store[p.name].messages)) && f.isJson
    ensures var s := Run(p, steps).value;
            var r, ms := s.readers[name], s.store[p.name].messages;
            var pieces := Batches(r.sent);
            && r.start <= |r.seen| <= |ms| && Printable(r.sent) && Flatten(pieces) == ms[r.start..|r.seen|]
            && (forall i :: 0 <= i < |pieces| ==> pieces[i] != [])
            && DataOf(S.Parse(S.WireAll(AllFrames(f, r.sent)))) == Readable(Arrays(f, pieces))
  {
    var s := Run(p, steps).value;
    var r, ms := s.readers[name], s.store[p.name].messages;
    SentExactlyOnce(p, steps, name);
    SentPrintable(p, steps, name);
    ClientReads(f, r.sent);
    BatchesOfItems(f, r.sent);
    assert r.seen[r.start..] + [] == r.seen[r.start..];
    assert ms[r.start..|r.seen|] == ms[..|r.seen|][r.start..];
  }

  // ------------------------------------------------------- cut off anywhere

  /** Where a cut through the frames falls: behind the items before `k` and `c` frames of item `k`. */
  lemma {:induction false} CutWhere(f: Framing, items: seq<Item>, cut: nat) returns (k: nat, c: nat)
    requires Printable(items) && cut <= |AllFrames(f, items)|
    ensures CutAt(f, items, cut, k, c)
    decreases |items|
  {
    if items == [] {
      k, c := 0, 0;
    } else {
      var n := |items| - 1;
      var init, last := AllFrames(f, items[..n]), Frames(f, items[n], n);
      if cut < |init| {
        k, c := CutWhere(f, items[..n], cut);
        assert items[..n][..k] == items[..k] && AllFrames(f, items)[..cut] == init[..cut];
      } else if cut < |init| + |last| {
        k, c := n, cut - |init|;
        assert (init + last)[..cut] == init + last[..c];
      } else {
        k, c := |items|, 0;
        assert items[..k] == items && (init + last)[..cut] == init + last;
      }
    }
  }

  predicate CutAt(f: Framing, items: seq<Item>, cut: nat, k: nat, c: nat)
    requires Printable(items) && cut <= |AllFrames(f, items)|
  {
    && k <= |items|
    && if k == |items| then c == 0 && AllFrames(f, items)[..cut] == AllFrames(f, items[..k])
       else c < |Frames(f, items[k], k)| &&
            AllFrames(f, items)[..cut] == AllFrames(f, items[..k]) + Frames(f, items[k], k)[..c]
  }

  /** The messages in the first `c` frames of an item that is not complete. */
  function Partial(items: seq<Item>, k: nat, c: nat): seq<Bytes> {
    if k < |items| && items[k].Chunk? && c <= |items[k].messages| then items[k].messages[..c] else []
  }

  /** The control event of a read comes last, so that an incomplete item has only data. */
  lemma PartialFrames(f: Framing, items: seq<Item>, k: nat, c: nat)
    requires Printable(items) && k < |items| && c < |Frames(f, items[k], k)| && !f.isJson
    ensures Frames(f, items[k], k)[..c] == S.Datas(S.Decoded(Partial(items, k, c), Decoder(f)))
    ensures items[k].Chunk? ==> c <= |items[k].messages|
  {
    if items[k].Chunk? {
      var texts := Texts(f, items[k]);
      assert |S.Datas(texts)| == |texts| == |items[k].messages|;
      assert Frames(f, items[k], k)[..c] == S.Datas(texts)[..c];
    }
  }

  /** What a client has read when the connection is cut behind any frame. */
  lemma CutReads(f: Framing, items: seq<Item>, cut: nat, k: nat, c: nat)
    requires Printable(items) && cut <= |AllFrames(f, items)| && CutAt(f, items, cut, k, c) && !f.isJson
    ensures var events := S.Parse(S.WireAll(AllFrames(f, items)[..cut]));
            && DataOf(events) == Readable(S.Decoded(Emitted(items[..k]) + Partial(items, k, c), Decoder(f)))
            && Printable(items[..k]) && ControlsOf(events) == Controls(f, items[..k])
  {
    var whole, part := AllFrames(f, items), Partial(items, k, c);
    FramesWellFormed(f, items);
    S.ParseUndoesWire(whole[..cut]);
    CutFrames(f, items, cut, k, c);
    ItemsThenData(f, items[..k], S.Decoded(part, Decoder(f)));
    TextsOfMessages(f, items[..k]);
    DecodedConcat(Emitted(items[..k]), part, Decoder(f));
  }

  lemma DecodedConcat(a: seq<Bytes>, b: seq<Bytes>, decode: Bytes -> string)
    ensures S.Decoded(a + b, decode) == S.Decoded(a, decode) + S.Decoded(b, decode)
  {}

  lemma CutFrames(f: Framing, items: seq<Item>, cut: nat, k: nat, c: nat)
    requires Printable(items) && cut <= |AllFrames(f, items)| && CutAt(f, items, cut, k, c) && !f.isJson
    ensures AllFrames(f, items)[..cut] ==
            AllFrames(f, items[..k]) + S.Datas(S.Decoded(Partial(items, k, c), Decoder(f)))
  {
    if k < |items| {
      PartialFrames(f, items, k, c);
    } else {
      assert S.Datas(S.Decoded([], Decoder(f))) == [];
    }
  }

  /** Whole items, then some data events. */
  lemma ItemsThenData(f: Framing, items: seq<Item>, texts: seq<string>)
    requires Printable(items)
    ensures var events := S.DeliveredAll(AllFrames(f, items) + S.Datas(texts));
            DataOf(events) == Readable(AllTexts(f, items) + texts) && ControlsOf(events) == Controls(f, items)
  {
    var fs, ds := AllFrames(f, items), S.Datas(texts);
    DeliveredConcat(fs, ds);
    DataOfConcat(S.DeliveredAll(fs), S.DeliveredAll(ds));
    ControlsOfConcat(S.DeliveredAll(fs), S.DeliveredAll(ds));
    DataOfFrames(f, items);
    ControlsOfFrames(f, items);
    DataOfDatas(texts);
    NoControlInData(texts);
    ReadableConcat(AllTexts(f, items), texts);
    assert Controls(f, items) + [] == Controls(f, items);
  }

  /**
    Cut off anywhere, a client loses nothing: over every run, whatever frame of the response is the last it
    reads, it has been sent the first `m` messages from its start on, and the last control event among them
    leads a later read to everything from the `n`th on, where `n` is at most `m`; before the first control
    event it asks again from where it began.
   */
  lemma CutAnywhere(p: Setup, steps: seq<Step>, name: string, f: Framing, cut: nat, o: Offset)
    requires Run(p, steps).Some? && name in Run(p, steps).value.readers
    requires var s := Run(p, steps).value;
             var r := s.readers[name];
             InThisLife(p, s, r) && Fits64(NextOffset(s.store[p.name].messages)) && r.mode.Sse? && r.sent != []
    ensures var s := Run(p, steps).value;
            LosesNothing(f, s.readers[name], s.store[p.name].messages, cut, o)
  {
    var s := Run(p, steps).value;
    SentShape(p, steps, name);
    RunKeeps(p, steps);
    RunKeepsItems(p, steps);
    ReaderSlice(p, s, s.readers[name]);
    CutReader(f, s.readers[name], s.store[p.name].messages, cut, o);
  }

  ghost predicate LosesNothing(f: Framing, r: Reader, ms: seq<Bytes>, cut: nat, o: Offset) {
    && Printable(r.sent)
    && (cut <= |AllFrames(f, r.sent)| ==> exists n, m :: CutLeaves(f, r, ms, cut, o, n, m))
  }

  /** The data of the first `m` messages has been read, and the last control event leads to the `n`th. */
  ghost predicate CutLeaves(f: Framing, r: Reader, ms: seq<Bytes>, cut: nat, o: Offset, n: nat, m: nat)
    requires Printable(r.sent) && cut <= |AllFrames(f, r.sent)|
  {
    var events := S.Parse(S.WireAll(AllFrames(f, r.sent)[..cut]));
    n <= m && DataRead(f, r, ms, events, m) && LeadsTo(r, ms, ControlsOf(events), o, n)
  }

  ghost predicate DataRead(f: Framing, r: Reader, ms: seq<Bytes>, events: seq<S.Event>, m: nat) {
    && r.start + m <= |ms|
    && var got := ms[r.start..r.start + m];
       if f.isJson then exists pieces :: ArraysRead(f, events, pieces, got)
       else DataOf(events) == Readable(S.Decoded(got, Decoder(f)))
  }

  /** The data events are the arrays of these pieces, which make up `ms`. */
  ghost predicate ArraysRead(f: Framing, events: seq<S.Event>, pieces: seq<seq<Bytes>>, ms: seq<Bytes>) {
    Flatten(pieces) == ms && DataOf(events) == Readable(Arrays(f, pieces))
  }

  ghost predicate LeadsTo(r: Reader, ms: seq<Bytes>, controls: seq<string>, o: Offset, n: nat) {
    && r.start + n <= |ms|
    && if controls == [] then n == 0
       else Names(controls[|controls| - 1], o) ==> ReadFrom(ms, o) == ms[r.start + n..]
  }

  /** After every item, the last offset leads to the rest of the stream. */
  ghost predicate AllComplete(r: Reader, ms: seq<Bytes>) {
    forall k :: 0 <= k < |r.sent| ==> Completes(r, ms, k)
  }

  predicate SentSlice(r: Reader, ms: seq<Bytes>) {
    r.start <= |r.seen| && Emitted(r.sent) == r.seen[r.start..] && IsPrefix(r.seen, ms)
  }

  lemma ReaderSlice(p: Setup, s: State, r: Reader)
    requires SentInv(p, s, r) && ItemInv(p, s, r) && InThisLife(p, s, r)
    ensures AllComplete(r, s.store[p.name].messages) && SentSlice(r, s.store[p.name].messages)
  {
    forall k | 0 <= k < |r.sent| ensures Completes(r, s.store[p.name].messages, k) {
      ItemCompletes(p, s, r, k);
    }
    NothingLost(r);
    PrefixTransitive(r.seen, r.seen + r.lost, s.store[p.name].messages);
  }

  lemma CutReader(f: Framing, r: Reader, ms: seq<Bytes>, cut: nat, o: Offset)
    requires AllComplete(r, ms) && SentSlice(r, ms) && Sendable(r.sent)
    ensures LosesNothing(f, r, ms, cut, o)
  {
    if cut <= |AllFrames(f, r.sent)| {
      var k, c := CutWhere(f, r.sent, cut);
      assert k > 0 ==> Completes(r, ms, k - 1);
      CutNames(f, r, ms, k, o);
      var events := S.Parse(S.WireAll(AllFrames(f, r.sent)[..cut]));
      var m;
      if f.isJson {
        var j := CutReadsArrays(f, r.sent, cut, k, c);
        m := CutArrays(f, r, ms, events, k, j);
      } else {
        CutReads(f, r.sent, cut, k, c);
        m := CutData(f, r, ms, events, k, c);
      }
      Leaves(f, r, ms, cut, o, events, |Emitted(r.sent[..k])|, m);
    }
  }

  /** On a JSON stream the one data event of a read has come or has not. */
  lemma CutReadsArrays(f: Framing, items: seq<Item>, cut: nat, k: nat, c: nat) returns (j: nat)
    requires Printable(items) && cut <= |AllFrames(f, items)| && CutAt(f, items, cut, k, c) && f.isJson
    ensures var events := S.Parse(S.WireAll(AllFrames(f, items)[..cut]));
            && k <= j <= |items| && DataOf(events) == Readable(AllTexts(f, items[..j]))
            && Printable(items[..k]) && ControlsOf(events) == Controls(f, items[..k])
  {
    j := if c == 0 then k else k + 1;
    var texts := FirstTexts(f, items, k, c);
    FramesWellFormed(f, items);
    S.ParseUndoesWire(AllFrames(f, items)[..cut]);
    CutArrayFrames(f, items, cut, k, c);
    ItemsThenData(f, items[..k], texts);
    TextsUpTo(f, items, k, c);
  }

  function FirstTexts(f: Framing, items: seq<Item>, k: nat, c: nat): seq<string> {
    if c == 0 || k >= |items| then [] else Texts(f, items[k])
  }

  lemma TextsUpTo(f: Framing, items: seq<Item>, k: nat, c: nat)
    requires k < |items| || (k == |items| && c == 0)
    ensures AllTexts(f, items[..if c == 0 then k else k + 1]) == AllTexts(f, items[..k]) + FirstTexts(f, items, k, c)
  {
    if c > 0 { assert items[..k + 1][..k] == items[..k]; }
  }

  lemma CutArrayFrames(f: Framing, items: seq<Item>, cut: nat, k: nat, c: nat)
    requires Printable(items) && cut <= |AllFrames(f, items)| && CutAt(f, items, cut, k, c) && f.isJson
    ensures AllFrames(f, items)[..cut] == AllFrames(f, items[..k]) + S.Datas(FirstTexts(f, items, k, c))
  {
    if k < |items| { PartialArray(f, items, k, c); }
  }

  lemma PartialArray(f: Framing, items: seq<Item>, k: nat, c: nat)
    requires Printable(items) && k < |items| && c < |Frames(f, items[k], k)| && f.isJson
    ensures Frames(f, items[k], k)[..c] == S.Datas(FirstTexts(f, items, k, c))
  {
    if items[k].Chunk? {
      var texts := Texts(f, items[k]);
      assert |S.Datas(texts)| == |texts| <= 1;
      assert Frames(f, items[k], k)[..c] == S.Datas(texts)[..c];
    }
  }

  lemma CutArrays(f: Framing, r: Reader, ms: seq<Bytes>, events: seq<S.Event>, k: nat, j: nat) returns (m: nat)
    requires k <= j <= |r.sent| && SentSlice(r, ms) && f.isJson && DataOf(events) == Readable(AllTexts(f, r.sent[..j]))
    ensures DataRead(f, r, ms, events, m) && m >= |Emitted(r.sent[..k])|
  {
    m := |Emitted(r.sent[..j])|;
    EmittedSlice(r, ms, j);
    BatchesOfItems(f, r.sent[..j]);
    assert ArraysRead(f, events, Batches(r.sent[..j]), ms[r.start..r.start + m]);
    assert r.sent[..j][..k] == r.sent[..k];
    EmittedPrefix(r.sent[..j], k);
  }

  lemma EmittedSlice(r: Reader, ms: seq<Bytes>, j: nat)
    requires j <= |r.sent| && SentSlice(r, ms)
    ensures var m := |Emitted(r.sent[..j])|; r.start + m <= |ms| && Emitted(r.sent[..j]) == ms[r.start..r.start + m]
  {
    GotIsSlice(r, ms, j, 0);
    assert Partial(r.sent, j, 0) == [] && Emitted(r.sent[..j]) + [] == Emitted(r.sent[..j]);
  }

  lemma Leaves(f: Framing, r: Reader, ms: seq<Bytes>, cut: nat, o: Offset, events: seq<S.Event>, n: nat, m: nat)
    requires Printable(r.sent) && cut <= |AllFrames(f, r.sent)| && n <= m
    requires events == S.Parse(S.WireAll(AllFrames(f, r.sent)[..cut]))
    requires DataRead(f, r, ms, events, m) && LeadsTo(r, ms, ControlsOf(events), o, n)
    ensures LosesNothing(f, r, ms, cut, o)
  {
    assert CutLeaves(f, r, ms, cut, o, n, m);
  }

  lemma CutData(f: Framing, r: Reader, ms: seq<Bytes>, events: seq<S.Event>, k: nat, c: nat) returns (m: nat)
    requires k <= |r.sent| && SentSlice(r, ms) && !f.isJson
    requires DataOf(events) == Readable(S.Decoded(Emitted(r.sent[..k]) + Partial(r.sent, k, c), Decoder(f)))
    ensures DataRead(f, r, ms, events, m) && m >= |Emitted(r.sent[..k])|
  {
    m := |Emitted(r.sent[..k])| + |Partial(r.sent, k, c)|;
    GotIsSlice(r, ms, k, c);
  }

  lemma CutNames(f: Framing, r: Reader, ms: seq<Bytes>, k: nat, o: Offset)
    requires Sendable(r.sent) && k <= |r.sent| && r.start <= |ms| && (k > 0 ==> Completes(r, ms, k - 1))
    ensures Printable(r.sent[..k]) && LeadsTo(r, ms, Controls(f, r.sent[..k]), o, |Emitted(r.sent[..k])|)
  {
    if k > 0 {
      SendablePrefix(r.sent, k);
      LastNames(f, r.sent[..k], o);
      RestIs(Emitted(r.sent[..k]), ReadFrom(ms, LastNext(r.sent[..k])), ms, r.start);
    } else {
      assert r.sent[..k] == [];
    }
  }

  lemma SendablePrefix(items: seq<Item>, k: nat)
    requires Sendable(items) && 0 < k <= |items|
    ensures Sendable(items[..k])
  {}

  lemma RestIs(got: seq<Bytes>, rest: seq<Bytes>, ms: seq<Bytes>, start: nat)
    requires start <= |ms| && got + [] + rest == ms[start..]
    ensures start + |got| <= |ms| && rest == ms[start + |got|..]
  {
    assert rest == (got + [] + rest)[|got|..];
  }

  /** What a cut leaves of the messages is the first ones of the stream from the start on. */
  lemma GotIsSlice(r: Reader, ms: seq<Bytes>, k: nat, c: nat)
    requires k <= |r.sent| && r.start <= |r.seen| && Emitted(r.sent) == r.seen[r.start..] && IsPrefix(r.seen, ms)
    ensures var got, part := Emitted(r.sent[..k]), Partial(r.sent, k, c);
            var m := |got| + |part|;
            r.start + m <= |ms| && got + part == ms[r.start..r.start + m]
  {
    var got := Emitted(r.sent[..k]) + Partial(r.sent, k, c);
    EmittedPrefix(r.sent, k);
    if k < |r.sent| {
      UpTo(r, k);
      EmittedPrefix(r.sent, k + 1);
      assert IsPrefix(got, Emitted(r.sent[..k + 1]));
      PrefixTransitive(got, Emitted(r.sent[..k + 1]), Emitted(r.sent));
    } else {
      assert got == Emitted(r.sent[..k]);
    }
    SliceOf(got, r.seen, ms, r.start);
  }

  lemma SliceOf(got: seq<Bytes>, seen: seq<Bytes>, ms: seq<Bytes>, start: nat)
    requires start <= |seen| && IsPrefix(got, seen[start..]) && IsPrefix(seen, ms)
    ensures start + |got| <= |ms| && got == ms[start..start + |got|]
  {
    assert ms[..|seen|][start..start + |got|] == ms[start..start + |got|];
    assert seen[start..][..|got|] == seen[start..start + |got|];
  }
}
