/**
  Server-Sent Events framing (src/protocol/sse.rs), proved against the event stream
  interpretation of sections 9.2.5 and 9.2.6 of the WHATWG HTML Standard.
 */
module Sse {
  import opened Types

  // ------------------------------------------------------------ lines

  predicate IsBreak(c: char) {
    c == '\r' || c == '\n'
  }

  /** CRLF counts as one line ending. */
  function BreakLength(t: string): (n: nat)
    requires t != ""
    ensures 1 <= n <= |t|
  {
    if t[0] == '\r' && |t| > 1 && t[1] == '\n' then 2 else 1
  }

  /** The pieces of `t` between line endings CRLF, CR and LF. */
  function Lines(t: string): (ls: seq<string>)
    ensures ls != []
  {
    if t == "" then [""]
    else if IsBreak(t[0]) then [""] + Lines(t[BreakLength(t)..])
    else
      var rest := Lines(t[1..]);
      [[t[0]] + rest[0]] + rest[1..]
  }

  predicate OneLine(l: string) {
    forall i :: 0 <= i < |l| ==> l[i] != '\r' && l[i] != '\n'
  }

  lemma {:induction false} LinesAreLines(t: string)
    ensures forall i :: 0 <= i < |Lines(t)| ==> OneLine(Lines(t)[i])
  {
    if t != "" {
      if IsBreak(t[0]) {
        LinesAreLines(t[BreakLength(t)..]);
      } else {
        LinesAreLines(t[1..]);
      }
    }
  }

  lemma {:induction false} LinesAfterText(p: string, q: string)
    requires OneLine(p)
    ensures Lines(p + q) == [p + Lines(q)[0]] + Lines(q)[1..]
  {
    if p == "" {
      assert p + q == q && p + Lines(q)[0] == Lines(q)[0];
      assert Lines(q) == [Lines(q)[0]] + Lines(q)[1..];
    } else {
      var t := p + q;
      assert t[0] == p[0] && !IsBreak(p[0]) && t[1..] == p[1..] + q;
      LinesAfterText(p[1..], q);
      var rest := Lines(t[1..]);
      assert Lines(t) == [[t[0]] + rest[0]] + rest[1..];
      assert [p[0]] + (p[1..] + Lines(q)[0]) == p + Lines(q)[0];
    }
  }

  // ------------------------------------ lines, said without how they are found

  /** The pieces with the line endings between them put back. */
  function Reassembled(ls: seq<string>, ends: seq<string>): string
    requires |ls| == |ends| + 1
  {
    if ends == [] then ls[0] else ls[0] + ends[0] + Reassembled(ls[1..], ends[1..])
  }

  /** Pieces without a break, line endings CRLF, CR or LF, and no CRLF taken for two endings. */
  ghost predicate CutInto(t: string, ls: seq<string>, ends: seq<string>) {
    && |ls| == |ends| + 1 && Reassembled(ls, ends) == t
    && (forall i :: 0 <= i < |ls| ==> OneLine(ls[i]))
    && (forall i :: 0 <= i < |ends| ==> ends[i] == "\r\n" || ends[i] == "\r" || ends[i] == "\n")
    && (forall i :: 0 <= i < |ends| - 1 ==> !(ends[i] == "\r" && ls[i + 1] == "" && ends[i + 1] == "\n"))
  }

  /** The line ending at the front of a text that begins with one. */
  function EndingOf(t: string): string
    requires t != "" && (t[0] == '\r' || t[0] == '\n')
  {
    if |t| > 1 && t[0] == '\r' && t[1] == '\n' then "\r\n" else [t[0]]
  }

  lemma CutMore(t: string, l: string, ls: seq<string>, ends: seq<string>)
    requires t != "" && (t[0] == '\r' || t[0] == '\n') && OneLine(l) && CutInto(t[|EndingOf(t)|..], ls, ends)
    ensures CutInto(l + t, [l] + ls, [EndingOf(t)] + ends)
  {
    var e, rest := EndingOf(t), t[|EndingOf(t)|..];
    assert t == e + rest;
    assert ([l] + ls)[1..] == ls && ([e] + ends)[1..] == ends;
    assert l + e + rest == l + t;
    FirstOf(rest, ls, ends);
  }

  /** Two pieces with nothing before the first ending mean that the text begins with that ending. */
  lemma FirstOf(t: string, ls: seq<string>, ends: seq<string>)
    requires CutInto(t, ls, ends)
    ensures if ls[0] != "" then t != "" && t[0] == ls[0][0] && t[0] != '\r' && t[0] != '\n'
            else if ends == [] then t == ""
            else t != "" && t[0] == ends[0][0]
  {}

  lemma CutLonger(c: char, t: string, ls: seq<string>, ends: seq<string>)
    requires c != '\r' && c != '\n' && CutInto(t, ls, ends)
    ensures CutInto([c] + t, [[c] + ls[0]] + ls[1..], ends)
  {
    var ls' := [[c] + ls[0]] + ls[1..];
    assert ls'[1..] == ls[1..];
    if ends != [] {
      assert [c] + (ls[0] + ends[0] + Reassembled(ls[1..], ends[1..]))
             == [c] + ls[0] + ends[0] + Reassembled(ls[1..], ends[1..]);
    }
    forall i | 0 <= i < |ls'| ensures OneLine(ls'[i]) {
      if i > 0 { assert ls'[i] == ls[i]; }
    }
  }

  /** The pieces found are a cut of the text. */
  lemma {:induction false} LinesCut(t: string) returns (ends: seq<string>)
    ensures CutInto(t, Lines(t), ends)
  {
    if t == "" {
      ends := [];
    } else if IsBreak(t[0]) {
      var n := BreakLength(t);
      assert EndingOf(t) == t[..n];
      var more := LinesCut(t[n..]);
      CutMore(t, "", Lines(t[n..]), more);
      ends := [EndingOf(t)] + more;
      assert "" + t == t;
    } else {
      ends := LinesCut(t[1..]);
      CutLonger(t[0], t[1..], Lines(t[1..]), ends);
      assert [t[0]] + t[1..] == t;
    }
  }

  /** There is one way only to cut a text. */
  lemma {:induction false} CutUnique(t: string, ls: seq<string>, ends: seq<string>)
    requires CutInto(t, ls, ends)
    ensures ls == Lines(t)
    decreases |t|
  {
    FirstOf(t, ls, ends);
    if ls[0] != "" {
      var ls' := [ls[0][1..]] + ls[1..];
      Shortened(t, ls, ends);
      CutUnique(t[1..], ls', ends);
      assert ls == [ls[0]] + ls[1..];
      HeadBack(ls[0], ls[1..]);
    } else if ends != [] {
      Beheaded(t, ls, ends);
      CutUnique(t[|ends[0]|..], ls[1..], ends[1..]);
      assert ls == [""] + ls[1..];
    }
  }

  lemma HeadBack(l: string, ls: seq<string>)
    requires l != ""
    ensures [[l[0]] + ([l[1..]] + ls)[0]] + ([l[1..]] + ls)[1..] == [l] + ls
  {
    assert [l[0]] + l[1..] == l;
  }

  lemma Shortened(t: string, ls: seq<string>, ends: seq<string>)
    requires CutInto(t, ls, ends) && ls[0] != ""
    ensures t != "" && CutInto(t[1..], [ls[0][1..]] + ls[1..], ends)
  {
    var ls' := [ls[0][1..]] + ls[1..];
    assert ls'[1..] == ls[1..];
    FirstOf(t, ls, ends);
    if ends != [] {
      var rest := Reassembled(ls[1..], ends[1..]);
      assert t == ls[0] + ends[0] + rest;
      assert t[1..] == ls[0][1..] + ends[0] + rest;
    }
    forall i | 0 <= i < |ls'| ensures OneLine(ls'[i]) {
      if i > 0 { assert ls'[i] == ls[i]; }
    }
  }

  lemma Beheaded(t: string, ls: seq<string>, ends: seq<string>)
    requires CutInto(t, ls, ends) && ls[0] == "" && ends != []
    ensures t != "" && (t[0] == '\r' || t[0] == '\n') && EndingOf(t) == ends[0]
    ensures |ends[0]| <= |t| && CutInto(t[|ends[0]|..], ls[1..], ends[1..])
  {
    var rest := Reassembled(ls[1..], ends[1..]);
    assert t == ends[0] + rest;
    assert t[|ends[0]|..] == rest;
    RestCut(t, ls, ends);
    FirstOf(rest, ls[1..], ends[1..]);
  }

  lemma RestCut(t: string, ls: seq<string>, ends: seq<string>)
    requires CutInto(t, ls, ends) && ends != []
    ensures CutInto(Reassembled(ls[1..], ends[1..]), ls[1..], ends[1..])
  {
    var ls', ends' := ls[1..], ends[1..];
    forall i | 0 <= i < |ends'| - 1 ensures !(ends'[i] == "\r" && ls'[i + 1] == "" && ends'[i + 1] == "\n") {
      assert ends'[i] == ends[i + 1] && ls'[i + 1] == ls[i + 2] && ends'[i + 1] == ends[i + 2];
    }
  }

  /** Pieces are what the splitter finds exactly when some line endings put the text back together from them. */
  lemma LinesExactly(t: string, ls: seq<string>)
    ensures ls == Lines(t) <==> exists ends :: CutInto(t, ls, ends)
  {
    if ls == Lines(t) { var ends := LinesCut(t); }
    forall ends | CutInto(t, ls, ends) ensures ls == Lines(t) { CutUnique(t, ls, ends); }
  }

  /** `split_lines`: one pass over the text with the start of the current piece remembered. */
  method SplitLines(text: string) returns (lines: seq<string>)
    ensures lines == Lines(text)
    ensures exists ends :: CutInto(text, lines, ends)
  {
    lines := [];
    var start, i := 0, 0;
    assert text[0..] == text && [] + Lines(text) == Lines(text);
    while i < |text|
      invariant 0 <= start <= i <= |text|
      invariant NoBreak(text, start, i)
      invariant lines + Lines(text[start..]) == Lines(text)
    {
      if IsBreak(text[i]) {
        var n := BreakLength(text[i..]);
        PieceDone(text, lines, start, i);
        lines := lines + [text[start..i]];
        i := i + n;
        start := i;
      } else {
        i := i + 1;
      }
    }
    LastPiece(text, start);
    lines := lines + [text[start..]];
    LinesExactly(text, lines);
  }

  predicate NoBreak(text: string, lo: nat, hi: nat)
    requires hi <= |text|
  {
    forall k :: lo <= k < hi ==> !IsBreak(text[k])
  }

  lemma MoveHead(a: seq<string>, x: string, b: seq<string>)
    ensures a + ([x] + b) == a + [x] + b
  {}

  lemma PieceDone(text: string, lines: seq<string>, start: nat, i: nat)
    requires start <= i < |text| && IsBreak(text[i]) && NoBreak(text, start, i)
    requires lines + Lines(text[start..]) == Lines(text)
    ensures var n := BreakLength(text[i..]); lines + [text[start..i]] + Lines(text[i + n..]) == Lines(text)
  {
    BreakHere(text, start, i);
    MoveHead(lines, text[start..i], Lines(text[i + BreakLength(text[i..])..]));
  }

  lemma LastPiece(text: string, start: nat)
    requires start <= |text| && NoBreak(text, start, |text|)
    ensures Lines(text[start..]) == [text[start..]]
  {
    var p := text[start..];
    LinesAfterText(p, "");
    assert p + "" == p;
  }

  lemma BreakHere(text: string, start: nat, i: nat)
    requires start <= i < |text| && IsBreak(text[i]) && NoBreak(text, start, i)
    ensures Lines(text[start..]) == [text[start..i]] + Lines(text[i + BreakLength(text[i..])..])
  {
    var tail := text[i..];
    assert text[start..] == text[start..i] + tail;
    LinesAfterText(text[start..i], tail);
    assert tail[BreakLength(tail)..] == text[i + BreakLength(tail)..];
    assert text[start..i] + "" == text[start..i];
  }

  // ---------------------------------------------------------- the printer

  function DataLines(ls: seq<string>): string {
    if ls == [] then "" else "data:" + ls[0] + "\n" + DataLines(ls[1..])
  }

  function DataFrame(text: string): string {
    "event: data\n" + DataLines(Lines(text)) + "\n"
  }

  method FormatRawDataFrame(text: string) returns (frame: string)
    ensures frame == DataFrame(text)
  {
    frame := "event: data\n";
    var lines := SplitLines(text);
    for i := 0 to |lines|
      invariant frame + DataLines(lines[i..]) == "event: data\n" + DataLines(lines)
    {
      LineWritten(frame, lines, i);
      frame := frame + "data:" + lines[i] + "\n";
    }
    assert DataLines(lines[|lines|..]) == "";
    frame := frame + "\n";
  }

  lemma LineWritten(frame: string, lines: seq<string>, i: nat)
    requires i < |lines|
    ensures frame + DataLines(lines[i..]) == (frame + "data:" + lines[i] + "\n") + DataLines(lines[i + 1..])
  {
    assert lines[i..][1..] == lines[i + 1..];
    assert lines[i..][0] == lines[i];
  }

  function Commas(parts: seq<string>): string {
    if parts == [] then ""
    else if |parts| == 1 then parts[0]
    else Commas(parts[..|parts| - 1]) + "," + parts[|parts| - 1]
  }

  /** How stored bytes become text; base64 and lossy UTF-8 are library functions of the source. */
  datatype Codec = Codec(utf8: Bytes -> string, base64: Bytes -> string)

  function Decoded(messages: seq<Bytes>, f: Bytes -> string): seq<string> {
    seq(|messages|, i requires 0 <= i < |messages| => f(messages[i]))
  }

  /** The text of each data event: one per message, or one array for a JSON stream. */
  function EventTexts(messages: seq<Bytes>, isBinary: bool, isJson: bool, codec: Codec): seq<string> {
    if messages == [] then []
    else if isJson then ["[" + Commas(Decoded(messages, codec.utf8)) + "]"]
    else Decoded(messages, if isBinary then codec.base64 else codec.utf8)
  }

  function DataFrames(texts: seq<string>): string {
    if texts == [] then "" else DataFrames(texts[..|texts| - 1]) + DataFrame(texts[|texts| - 1])
  }

  lemma CommasPush(parts: seq<string>, p: string)
    ensures Commas(parts + [p]) == (if parts == [] then "" else Commas(parts) + ",") + p
  {
    assert (parts + [p])[..|parts|] == parts;
  }

  lemma FramesPush(texts: seq<string>, t: string)
    ensures DataFrames(texts + [t]) == DataFrames(texts) + DataFrame(t)
  {
    assert (texts + [t])[..|texts|] == texts;
  }

  method JoinJson(parts: seq<string>) returns (content: string)
    ensures content == Commas(parts)
  {
    content := "";
    for i := 0 to |parts|
      invariant content == Commas(parts[..i])
    {
      CommasPush(parts[..i], parts[i]);
      assert parts[..i + 1] == parts[..i] + [parts[i]];
      if i > 0 { content := content + ","; }
      content := content + parts[i];
    }
    assert parts[..|parts|] == parts;
  }

  method FormatEach(texts: seq<string>) returns (out: string)
    ensures out == DataFrames(texts)
  {
    out := "";
    for i := 0 to |texts|
      invariant out == DataFrames(texts[..i])
    {
      FramesPush(texts[..i], texts[i]);
      assert texts[..i + 1] == texts[..i] + [texts[i]];
      var frame := FormatRawDataFrame(texts[i]);
      out := out + frame;
    }
    assert texts[..|texts|] == texts;
  }

  method FormatDataFrames(messages: seq<Bytes>, isBinary: bool, isJson: bool, codec: Codec) returns (out: string)
    ensures out == DataFrames(EventTexts(messages, isBinary, isJson, codec))
  {
    if messages == [] { return ""; }
    if isJson {
      var content := JoinJson(Decoded(messages, codec.utf8));
      var text := "[" + content + "]";
      FramesPush([], text);
      assert [] + [text] == [text];
      out := FormatRawDataFrame(text);
      assert "" + DataFrame(text) == DataFrame(text);
    } else {
      out := FormatEach(Decoded(messages, if isBinary then codec.base64 else codec.utf8));
    }
  }

  // ----------------------------------------------------------- the reader

  datatype Event = Event(kind: string, data: string)

  /** The data and event-type buffers, and the events dispatched so far. */
  datatype Reader = Reader(data: string, kind: string, events: seq<Event>)

  function StripSpace(v: string): string {
    if v != "" && v[0] == ' ' then v[1..] else v
  }

  function FirstColon(l: string): (k: nat)
    ensures k <= |l|
  {
    if l == "" || l[0] == ':' then 0 else 1 + FirstColon(l[1..])
  }

  function Field(r: Reader, name: string, value: string): Reader {
    if name == "event" then r.(kind := value)
    else if name == "data" then r.(data := r.data + value + "\n")
    else r
  }

  /** An empty line dispatches; an event with an empty data buffer is dropped. */
  function Dispatch(r: Reader): Reader {
    if r.data == "" then Reader("", "", r.events)
    else Reader("", "", r.events + [Event(if r.kind == "" then "message" else r.kind, r.data[..|r.data| - 1])])
  }

  function Feed(r: Reader, line: string): Reader {
    if line == "" then Dispatch(r)
    else if line[0] == ':' then r
    else
      var k := FirstColon(line);
      if k < |line| then Field(r, line[..k], StripSpace(line[k + 1..])) else Field(r, line, "")
  }

  function FeedAll(r: Reader, ls: seq<string>): Reader
    decreases ls
  {
    if ls == [] then r else FeedAll(Feed(r, ls[0]), ls[1..])
  }

  /** Where the first line of an event stream ends. */
  function FirstEnd(t: string): (k: nat)
    ensures k <= |t|
  {
    if t == "" || t[0] == '\n' || t[0] == '\r' then 0 else 1 + FirstEnd(t[1..])
  }

  /** The terminated lines of an event stream; they end in CRLF, LF or CR. */
  function Terminated(t: string): seq<string>
    decreases |t|
  {
    var k := FirstEnd(t);
    if k == |t| then []
    else if k + 1 < |t| && t[k] == '\r' && t[k + 1] == '\n' then [t[..k]] + Terminated(t[k + 2..])
    else [t[..k]] + Terminated(t[k + 1..])
  }

  /** How many characters end the line at `k`. */
  function EndWidth(t: string, k: nat): (n: nat)
    requires k < |t|
    ensures k + n <= |t|
  {
    if k + 1 < |t| && t[k] == '\r' && t[k + 1] == '\n' then 2 else 1
  }

  lemma {:induction false} FirstLine(t: string)
    ensures var k := FirstEnd(t);
            Lines(t) == if k == |t| then [t] else [t[..k]] + Lines(t[k + EndWidth(t, k)..])
  {
    var k := FirstEnd(t);
    if t != "" && !IsBreak(t[0]) {
      var rest := t[1..];
      FirstLine(rest);
      if k < |t| {
        var n := EndWidth(t, k);
        assert rest[k - 1 + n..] == t[k + n..];
        PrependTo(t[0], rest[..k - 1], Lines(t[k + n..]));
        assert [t[0]] + rest[..k - 1] == t[..k];
      } else {
        PrependTo(t[0], rest, []);
        assert [t[0]] + rest == t;
      }
    }
  }

  lemma PrependTo(c: char, line: string, more: seq<string>)
    ensures var ls := [line] + more; [[c] + ls[0]] + ls[1..] == [[c] + line] + more
  {}

  lemma InitOfCons(l: string, more: seq<string>)
    requires more != []
    ensures var ls := [l] + more; ls[..|ls| - 1] == [l] + more[..|more| - 1]
  {}

  /** Server and client agree on lines: what the client takes in is every line of the text but the last. */
  lemma {:induction false} TerminatedAreLines(t: string)
    ensures Terminated(t) == Lines(t)[..|Lines(t)| - 1]
    decreases |t|
  {
    var k := FirstEnd(t);
    FirstLine(t);
    if k < |t| {
      var rest := t[k + EndWidth(t, k)..];
      TerminatedAreLines(rest);
      InitOfCons(t[..k], Lines(rest));
    }
  }

  /** A leading byte order mark is dropped and an unterminated last line is ignored. */
  function Parse(wire: string): seq<Event> {
    var body := if wire != "" && wire[0] == '\U{FEFF}' then wire[1..] else wire;
    FeedAll(Reader("", "", []), Terminated(body)).events
  }

  // ------------------------------------------------- frames on the wire

  /** Everything the SSE body is made of. */
  datatype Frame = Data(text: string) | Control(json: string) | KeepAlive

  function Wire(f: Frame): string {
    match f
    case Data(t) => DataFrame(t)
    case Control(j) => "event: control\ndata:" + j + "\n\n"
    case KeepAlive => ":\n\n"
  }

  function WireAll(fs: seq<Frame>): string {
    if fs == [] then "" else Wire(fs[0]) + WireAll(fs[1..])
  }

  /** The lines a frame puts on the wire, each terminated. */
  function FrameLines(f: Frame): seq<string> {
    match f
    case Data(t) => ["event: data"] + Prefixed(Lines(t)) + [""]
    case Control(j) => ["event: control", "data:" + j, ""]
    case KeepAlive => [":", ""]
  }

  function Prefixed(ls: seq<string>): seq<string> {
    if ls == [] then [] else ["data:" + ls[0]] + Prefixed(ls[1..])
  }

  /** Serialised control payloads contain no line breaks. */
  predicate WellFormed(f: Frame) {
    f.Control? ==> OneLine(f.json)
  }

  lemma {:induction false} FirstEndAfter(l: string, rest: string)
    requires OneLine(l)
    ensures FirstEnd(l + "\n" + rest) == |l|
  {
    if l == "" {
      assert "" + "\n" + rest == "\n" + rest;
    } else {
      assert (l + "\n" + rest)[1..] == l[1..] + "\n" + rest;
      FirstEndAfter(l[1..], rest);
    }
  }

  lemma TerminatedLine(l: string, rest: string)
    requires OneLine(l)
    ensures Terminated(l + "\n" + rest) == [l] + Terminated(rest)
  {
    var t := l + "\n" + rest;
    FirstEndAfter(l, rest);
    assert t[|l|] == '\n' && t[..|l|] == l && t[|l| + 1..] == rest;
  }

  lemma {:induction false} TerminatedData(ls: seq<string>, rest: string)
    requires forall i :: 0 <= i < |ls| ==> OneLine(ls[i])
    ensures Terminated(DataLines(ls) + rest) == Prefixed(ls) + Terminated(rest)
  {
    if ls == [] {
      assert DataLines(ls) + rest == rest;
    } else {
      var l, tail := "data:" + ls[0], DataLines(ls[1..]);
      assert OneLine(l);
      TerminatedStep(l, tail, rest);
      TerminatedData(ls[1..], rest);
      ConsLine(l, Prefixed(ls[1..]), Terminated(rest));
    }
  }

  lemma TerminatedStep(l: string, tail: string, rest: string)
    requires OneLine(l)
    ensures Terminated(l + "\n" + tail + rest) == [l] + Terminated(tail + rest)
  {
    Nest4(l, tail, rest);
    TerminatedLine(l, tail + rest);
  }

  lemma ConsLine(l: string, a: seq<string>, b: seq<string>)
    ensures [l] + (a + b) == ([l] + a) + b
  {}

  lemma Nest4(l: string, tail: string, rest: string)
    ensures l + "\n" + tail + rest == l + "\n" + (tail + rest)
  {}

  lemma TerminatedBlank(rest: string)
    ensures Terminated("\n" + rest) == [""] + Terminated(rest)
  {
    TerminatedLine("", rest);
    assert "" + "\n" + rest == "\n" + rest;
  }

  lemma TerminatedControl(j: string, rest: string)
    requires OneLine(j)
    ensures Terminated(Wire(Control(j)) + rest) == FrameLines(Control(j)) + Terminated(rest)
  {
    var head, l := "event: control", "data:" + j;
    assert OneLine(l) && Wire(Control(j)) == head + "\n" + (l + "\n" + "\n");
    TerminatedStep(head, l + "\n" + "\n", rest);
    TerminatedStep(l, "\n", rest);
    TerminatedBlank(rest);
    ThreeLines(head, l, Terminated(rest));
  }

  lemma ThreeLines(a: string, b: string, ls: seq<string>)
    ensures [a] + ([b] + ([""] + ls)) == [a, b, ""] + ls
  {}

  lemma TerminatedDataFrame(t: string, rest: string)
    ensures Terminated(Wire(Data(t)) + rest) == FrameLines(Data(t)) + Terminated(rest)
  {
    var head, ls := "event: data", Lines(t);
    LinesAreLines(t);
    DataFrameParts(t);
    TerminatedStep(head, DataLines(ls) + "\n", rest);
    NestTail(DataLines(ls), rest);
    TerminatedData(ls, "\n" + rest);
    TerminatedBlank(rest);
    DataFrameLines(head, Prefixed(ls), Terminated(rest));
  }

  lemma DataFrameParts(t: string)
    ensures Wire(Data(t)) == "event: data" + "\n" + (DataLines(Lines(t)) + "\n")
  {
    assert "event: data" + "\n" == "event: data\n";
  }

  lemma NestTail(a: string, rest: string)
    ensures (a + "\n") + rest == a + ("\n" + rest)
  {}

  lemma DataFrameLines(head: string, ls: seq<string>, rest: seq<string>)
    ensures [head] + (ls + ([""] + rest)) == [head] + ls + [""] + rest
  {}

  lemma TerminatedKeepAlive(rest: string)
    ensures Terminated(Wire(KeepAlive) + rest) == FrameLines(KeepAlive) + Terminated(rest)
  {
    assert Wire(KeepAlive) == ":" + "\n" + "\n";
    TerminatedStep(":", "\n", rest);
    TerminatedBlank(rest);
    TwoLines(":", Terminated(rest));
  }

  lemma TwoLines(a: string, ls: seq<string>)
    ensures [a] + ([""] + ls) == [a, ""] + ls
  {}

  lemma TerminatedFrame(f: Frame, rest: string)
    requires WellFormed(f)
    ensures Terminated(Wire(f) + rest) == FrameLines(f) + Terminated(rest)
  {
    match f {
      case KeepAlive => TerminatedKeepAlive(rest);
      case Control(j) => TerminatedControl(j, rest);
      case Data(t) => TerminatedDataFrame(t, rest);
    }
  }

  lemma {:induction false} TerminatedAll(fs: seq<Frame>)
    requires forall i :: 0 <= i < |fs| ==> WellFormed(fs[i])
    ensures Terminated(WireAll(fs)) == AllLines(fs)
  {
    if fs != [] {
      TerminatedFrame(fs[0], WireAll(fs[1..]));
      TerminatedAll(fs[1..]);
    }
  }

  function AllLines(fs: seq<Frame>): seq<string> {
    if fs == [] then [] else FrameLines(fs[0]) + AllLines(fs[1..])
  }

  // --------------------------------------------------- what the client sees

  function StripAll(ls: seq<string>): seq<string> {
    if ls == [] then [] else [StripSpace(ls[0])] + StripAll(ls[1..])
  }

  function JoinLf(ls: seq<string>): string {
    if ls == [] then "" else if |ls| == 1 then ls[0] else ls[0] + "\n" + JoinLf(ls[1..])
  }

  function Received(text: string): string {
    JoinLf(StripAll(Lines(text)))
  }

  function Delivered(f: Frame): seq<Event> {
    match f
    case Data(t) => [Event("data", Received(t))]
    case Control(j) => [Event("control", StripSpace(j))]
    case KeepAlive => []
  }

  function DeliveredAll(fs: seq<Frame>): seq<Event> {
    if fs == [] then [] else Delivered(fs[0]) + DeliveredAll(fs[1..])
  }

  lemma {:induction false} FeedAllConcat(r: Reader, a: seq<string>, b: seq<string>)
    ensures FeedAll(r, a + b) == FeedAll(FeedAll(r, a), b)
    decreases a
  {
    if a == [] {
      assert a + b == b;
    } else {
      assert (a + b)[1..] == a[1..] + b;
      FeedAllConcat(Feed(r, a[0]), a[1..], b);
    }
  }

  lemma {:induction false} FirstColonAfter(name: string, value: string)
    requires ':' !in name
    ensures FirstColon(name + ":" + value) == |name|
  {
    if name == "" {
      assert "" + ":" + value == ":" + value;
    } else {
      assert (name + ":" + value)[1..] == name[1..] + ":" + value;
      FirstColonAfter(name[1..], value);
    }
  }

  lemma FeedField(r: Reader, name: string, value: string)
    requires name == "data" || name == "event"
    ensures Feed(r, name + ":" + value) == Field(r, name, StripSpace(value))
  {
    var l := name + ":" + value;
    FirstColonAfter(name, value);
    assert l[..|name|] == name && l[|name| + 1..] == value;
  }

  function Terminate(ls: seq<string>): string {
    if ls == [] then "" else ls[0] + "\n" + Terminate(ls[1..])
  }

  lemma FeedSplit(r: Reader, a: seq<string>, m: Reader, b: seq<string>, r': Reader)
    requires FeedAll(r, a) == m && FeedAll(m, b) == r'
    ensures FeedAll(r, a + b) == r'
  {
    FeedAllConcat(r, a, b);
  }

  lemma FeedOne(r: Reader, l: string, ls: seq<string>)
    ensures FeedAll(r, [l] + ls) == FeedAll(Feed(r, l), ls)
  {
    assert ([l] + ls)[1..] == ls;
  }

  lemma FeedDataLine(r: Reader, l: string)
    ensures Feed(r, "data:" + l) == r.(data := r.data + StripSpace(l) + "\n")
  {
    FeedField(r, "data", l);
    assert "data" + ":" + l == "data:" + l;
  }

  lemma TerminateMore(d: string, ls: seq<string>)
    requires ls != []
    ensures d + StripSpace(ls[0]) + "\n" + Terminate(StripAll(ls[1..])) == d + Terminate(StripAll(ls))
  {
    var a, more := StripSpace(ls[0]), StripAll(ls[1..]);
    assert StripAll(ls) == [a] + more;
    TerminateCons(a, more);
    Nest(d, a, Terminate(more));
  }

  lemma TerminateCons(l: string, ls: seq<string>)
    ensures Terminate([l] + ls) == l + "\n" + Terminate(ls)
  {
    assert ([l] + ls)[1..] == ls;
  }

  lemma Nest(d: string, a: string, t: string)
    ensures d + a + "\n" + t == d + (a + "\n" + t)
  {}

  lemma {:induction false} FeedData(r: Reader, ls: seq<string>)
    ensures FeedAll(r, Prefixed(ls)) == r.(data := r.data + Terminate(StripAll(ls)))
    decreases ls
  {
    if ls == [] {
      assert r.data + "" == r.data;
    } else {
      var r' := r.(data := r.data + StripSpace(ls[0]) + "\n");
      FeedDataLine(r, ls[0]);
      FeedOne(r, "data:" + ls[0], Prefixed(ls[1..]));
      FeedData(r', ls[1..]);
      TerminateMore(r.data, ls);
    }
  }

  lemma {:induction false} TerminateIsJoin(ls: seq<string>)
    requires ls != []
    ensures Terminate(ls) == JoinLf(ls) + "\n"
  {
    if |ls| == 1 {
      assert ls[1..] == [];
      assert Terminate(ls) == ls[0] + "\n" + "";
    } else {
      TerminateIsJoin(ls[1..]);
    }
  }

  /** The blank line that ends a frame turns the buffers into one event. */
  lemma FeedBlank(r: Reader, d: string)
    requires r.data == d + "\n" && r.kind != ""
    ensures FeedAll(r, [""]) == Reader("", "", r.events + [Event(r.kind, d)])
  {
    FeedOne(r, "", []);
    assert [""] + [] == [""];
    assert r.data[..|r.data| - 1] == d;
  }

  lemma FeedEventField(r: Reader, kind: string)
    ensures Feed(r, "event: " + kind) == r.(kind := kind)
  {
    var v := " " + kind;
    FeedField(r, "event", v);
    assert "event" + ":" + v == "event: " + kind;
    assert v[1..] == kind;
  }

  lemma FeedControlFrame(events: seq<Event>, j: string)
    ensures FeedAll(Reader("", "", events), FrameLines(Control(j))) == Reader("", "", events + Delivered(Control(j)))
  {
    var r, l := Reader("", "", events), "data:" + j;
    var r1 := r.(kind := "control");
    var r2 := r1.(data := r1.data + StripSpace(j) + "\n");
    FeedControlHead(r);
    FeedDataLine(r1, j);
    FeedThree(r, "event: control", r1, l, r2);
    EmptyPlus(StripSpace(j) + "\n");
    FeedBlank(r2, StripSpace(j));
  }

  lemma EmptyPlus(t: string)
    ensures "" + t == t
  {}

  lemma FeedControlHead(r: Reader)
    ensures Feed(r, "event: control") == r.(kind := "control")
  {
    FeedEventField(r, "control");
    assert "event: " + "control" == "event: control";
  }

  lemma FeedThree(r: Reader, a: string, r1: Reader, b: string, r2: Reader)
    requires Feed(r, a) == r1 && Feed(r1, b) == r2
    ensures FeedAll(r, [a, b, ""]) == FeedAll(r2, [""])
  {
    FeedOne(r, a, [b] + [""]);
    FeedOne(r1, b, [""]);
    assert [a] + ([b] + [""]) == [a, b, ""];
  }

  lemma FeedDataFrame(events: seq<Event>, t: string)
    ensures FeedAll(Reader("", "", events), FrameLines(Data(t))) == Reader("", "", events + Delivered(Data(t)))
  {
    var r := Reader("", "", events);
    var head, ls := "event: data", Lines(t);
    FeedEventField(r, "data");
    assert "event: " + "data" == head;
    var r1 := r.(kind := "data");
    assert [head] + Prefixed(ls) + [""] == [head] + (Prefixed(ls) + [""]);
    FeedOne(r, head, Prefixed(ls) + [""]);
    FeedAllConcat(r1, Prefixed(ls), [""]);
    FeedData(r1, ls);
    TerminateIsJoin(StripAll(ls));
    assert "" + Terminate(StripAll(ls)) == Received(t) + "\n";
    FeedBlank(FeedAll(r1, Prefixed(ls)), Received(t));
  }

  lemma FeedFrame(events: seq<Event>, f: Frame)
    ensures FeedAll(Reader("", "", events), FrameLines(f)) == Reader("", "", events + Delivered(f))
  {
    match f {
      case KeepAlive =>
        var r := Reader("", "", events);
        assert [":", ""] == [":"] + [""];
        FeedOne(r, ":", [""]);
        FeedOne(r, "", []);
        assert [""] + [] == [""];
      case Control(j) => FeedControlFrame(events, j);
      case Data(t) => FeedDataFrame(events, t);
    }
  }

  lemma DeliveredMore(events: seq<Event>, fs: seq<Frame>)
    requires fs != []
    ensures events + Delivered(fs[0]) + DeliveredAll(fs[1..]) == events + DeliveredAll(fs)
  {}

  lemma {:induction false} FeedFrames(events: seq<Event>, fs: seq<Frame>)
    ensures FeedAll(Reader("", "", events), AllLines(fs)) == Reader("", "", events + DeliveredAll(fs))
    decreases fs
  {
    if fs == [] {
      assert events + [] == events;
    } else {
      var more := events + Delivered(fs[0]);
      FeedFrame(events, fs[0]);
      FeedFrames(more, fs[1..]);
      FeedSplit(Reader("", "", events), FrameLines(fs[0]), Reader("", "", more), AllLines(fs[1..]),
                Reader("", "", more + DeliveredAll(fs[1..])));
      DeliveredMore(events, fs);
    }
  }

  lemma NoByteOrderMark(fs: seq<Frame>)
    ensures fs != [] ==> WireAll(fs) != "" && (WireAll(fs)[0] == 'e' || WireAll(fs)[0] == ':')
  {
    if fs != [] {
      assert |Wire(fs[0])| > 0 && (Wire(fs[0])[0] == 'e' || Wire(fs[0])[0] == ':');
    }
  }

  /**
    Whatever text is sent, a client reading the body sees exactly the frames that were written:
    one event per data or control frame, in order, and none for keep-alives.
   */
  lemma ParseUndoesWire(fs: seq<Frame>)
    requires forall i :: 0 <= i < |fs| ==> WellFormed(fs[i])
    ensures Parse(WireAll(fs)) == DeliveredAll(fs)
  {
    TerminatedAll(fs);
    FeedFrames([], fs);
    NoByteOrderMark(fs);
    assert [] + DeliveredAll(fs) == DeliveredAll(fs);
  }

  // ------------------------------------------ the text, said without lines

  /** Every CRLF, CR or LF becomes one LF. */
  function NormaliseBreaks(t: string): string {
    if t == "" then ""
    else if |t| > 1 && t[0] == '\r' && t[1] == '\n' then "\n" + NormaliseBreaks(t[2..])
    else if t[0] == '\r' || t[0] == '\n' then "\n" + NormaliseBreaks(t[1..])
    else [t[0]] + NormaliseBreaks(t[1..])
  }

  /** One space is dropped from each line that starts with one. */
  function DropLineSpaces(t: string, atStart: bool): string {
    if t == "" then ""
    else if atStart && t[0] == ' ' then DropLineSpaces(t[1..], false)
    else [t[0]] + DropLineSpaces(t[1..], t[0] == '\n')
  }

  lemma JoinCons(l: string, ls: seq<string>)
    requires ls != []
    ensures JoinLf([l] + ls) == l + "\n" + JoinLf(ls)
  {
    assert ([l] + ls)[1..] == ls;
  }

  lemma JoinPrepend(c: char, ls: seq<string>)
    requires ls != []
    ensures JoinLf([[c] + ls[0]] + ls[1..]) == [c] + JoinLf(ls)
  {
    if |ls| > 1 {
      JoinCons([c] + ls[0], ls[1..]);
      JoinCons(ls[0], ls[1..]);
      assert ls == [ls[0]] + ls[1..];
      assert [c] + ls[0] + "\n" + JoinLf(ls[1..]) == [c] + (ls[0] + "\n" + JoinLf(ls[1..]));
    }
  }

  lemma {:induction false} JoinedLines(t: string)
    ensures JoinLf(Lines(t)) == NormaliseBreaks(t)
  {
    if t != "" {
      if IsBreak(t[0]) {
        JoinedLines(t[BreakLength(t)..]);
        JoinCons("", Lines(t[BreakLength(t)..]));
      } else {
        JoinedLines(t[1..]);
        JoinPrepend(t[0], Lines(t[1..]));
      }
    }
  }

  lemma {:induction false} DropWithin(l: string, rest: string)
    requires OneLine(l)
    ensures DropLineSpaces(l + "\n" + rest, false) == l + "\n" + DropLineSpaces(rest, true)
    ensures DropLineSpaces(l, false) == l
  {
    var t := l + "\n" + rest;
    if l == "" {
      assert t == "\n" + rest && t[1..] == rest;
      assert DropLineSpaces(t, false) == "\n" + DropLineSpaces(rest, true);
    } else {
      assert t[1..] == l[1..] + "\n" + rest;
      DropWithin(l[1..], rest);
      assert l == [l[0]] + l[1..];
    }
  }

  lemma DropLine(l: string, rest: string)
    requires OneLine(l)
    ensures DropLineSpaces(l + "\n" + rest, true) == StripSpace(l) + "\n" + DropLineSpaces(rest, true)
    ensures DropLineSpaces(l, true) == StripSpace(l)
  {
    var t := l + "\n" + rest;
    if l == "" {
      assert t == "\n" + rest && t[1..] == rest;
    } else {
      DropWithin(l[1..], rest);
      assert t[1..] == l[1..] + "\n" + rest;
      assert l == [l[0]] + l[1..];
    }
  }

  lemma {:induction false} StripJoined(ls: seq<string>)
    requires forall i :: 0 <= i < |ls| ==> OneLine(ls[i])
    ensures JoinLf(StripAll(ls)) == DropLineSpaces(JoinLf(ls), true)
  {
    if ls != [] {
      if |ls| == 1 {
        assert ls[1..] == [];
        DropLine(ls[0], "");
      } else {
        StripJoined(ls[1..]);
        DropLine(ls[0], JoinLf(ls[1..]));
        assert StripAll(ls)[1..] == StripAll(ls[1..]);
        assert StripAll(ls[1..]) != [];
      }
    }
  }

  /** A data event carries the text with line endings made LF and one leading space dropped per line. */
  lemma ReceivedText(text: string)
    ensures Received(text) == DropLineSpaces(NormaliseBreaks(text), true)
  {
    LinesAreLines(text);
    StripJoined(Lines(text));
    JoinedLines(text);
  }

  lemma {:induction false} DropNothing(t: string)
    requires OneLine(t)
    ensures NormaliseBreaks(t) == t
  {
    if t != "" { DropNothing(t[1..]); }
  }

  /** Base64 text, having neither breaks nor spaces, arrives unchanged. */
  lemma PlainTextUnchanged(text: string)
    requires OneLine(text) && (text != "" ==> text[0] != ' ')
    ensures Received(text) == text
  {
    ReceivedText(text);
    DropNothing(text);
    DropLine(text, "");
  }

  function Datas(texts: seq<string>): seq<Frame> {
    seq(|texts|, i requires 0 <= i < |texts| => Data(texts[i]))
  }

  lemma {:induction false} WirePush(fs: seq<Frame>, f: Frame)
    ensures WireAll(fs + [f]) == WireAll(fs) + Wire(f)
  {
    if fs == [] {
      assert (fs + [f])[1..] == [];
    } else {
      assert (fs + [f])[1..] == fs[1..] + [f];
      WirePush(fs[1..], f);
    }
  }

  lemma DatasPush(texts: seq<string>, t: string)
    ensures Datas(texts + [t]) == Datas(texts) + [Data(t)]
  {}

  lemma {:induction false} DataFramesOnWire(texts: seq<string>)
    ensures WireAll(Datas(texts)) == DataFrames(texts)
  {
    if texts != [] {
      var init, last := texts[..|texts| - 1], texts[|texts| - 1];
      DataFramesOnWire(init);
      WirePush(Datas(init), Data(last));
      DatasPush(init, last);
      assert texts == init + [last];
    }
  }

  lemma {:induction false} DeliveredDatas(texts: seq<string>)
    ensures |DeliveredAll(Datas(texts))| == |texts|
    ensures forall i :: 0 <= i < |texts| ==> DeliveredAll(Datas(texts))[i] == Event("data", Received(texts[i]))
  {
    if texts != [] {
      DeliveredDatas(texts[1..]);
      assert Datas(texts)[1..] == Datas(texts[1..]);
    }
  }

  /**
    Round trip of one read: the client sees one data event per message, or a single one for a
    JSON stream, each carrying its text with breaks made LF and one leading space per line dropped.
   */
  lemma DataFramesRoundTrip(messages: seq<Bytes>, isBinary: bool, isJson: bool, codec: Codec)
    ensures var texts := EventTexts(messages, isBinary, isJson, codec);
            var events := Parse(DataFrames(texts));
            && |events| == (if messages == [] then 0 else if isJson then 1 else |messages|)
            && forall i :: 0 <= i < |events| ==>
                 events[i] == Event("data", DropLineSpaces(NormaliseBreaks(texts[i]), true))
  {
    var texts := EventTexts(messages, isBinary, isJson, codec);
    DataFramesOnWire(texts);
    ParseUndoesWire(Datas(texts));
    DeliveredDatas(texts);
    forall i | 0 <= i < |texts| ensures Received(texts[i]) == DropLineSpaces(NormaliseBreaks(texts[i]), true) {
      ReceivedText(texts[i]);
    }
  }
}
