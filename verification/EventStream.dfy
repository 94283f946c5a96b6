/** The wire format of internal/sse/broker.go, and the reader it is written for: the event
    stream grammar and interpretation of sections 9.2.5 and 9.2.6 of the WHATWG HTML Living
    Standard. */
module EventStream {
  import opened Chunks

  /** A typed message: its type and its JSON text. */
  datatype Event = Event(eventType: string, data: string)

  const BYTE_ORDER_MARK: char := '\U{FEFF}'

  /** What ServeHTTP writes for one event. */
  function Frame(e: Event): string {
    "event: " + e.eventType + "\ndata: " + e.data + "\n\n"
  }

  function Frames(es: seq<Event>): string {
    if es == [] then "" else Frame(es[0]) + Frames(es[1..])
  }

  predicate OneLine(s: string) {
    '\n' !in s && '\r' !in s
  }

  /** What a frame can carry: a named type, and no line break in either part. */
  predicate Clean(e: Event) {
    e.eventType != "" && OneLine(e.eventType) && OneLine(e.data)
  }

  // ----- The batch reader ------------------------------------------------------------------

  predicate IsBreak(c: char) {
    c == '\n' || c == '\r'
  }

  function BreakAt(s: string): (n: nat)
    ensures n <= |s|
    ensures n < |s| ==> IsBreak(s[n])
    ensures OneLine(s[..n])
  {
    if s == "" || IsBreak(s[0]) then 0 else
      var n := 1 + BreakAt(s[1..]);
      assert s[..n] == [s[0]] + s[1..][..n - 1];
      n
  }

  function DropLF(s: string): (r: string)
    ensures |r| <= |s|
  {
    if s != "" && s[0] == '\n' then s[1..] else s
  }

  /** What follows a line break: CR LF counts as one. */
  function AfterBreak(s: string, n: nat): string
    requires n < |s|
  {
    if s[n] == '\r' then DropLF(s[n + 1..]) else s[n + 1..]
  }

  /** The lines of a stream, each ended by CR LF, LF or CR. An unfinished last line is
      discarded. */
  function Lines(s: string): seq<string>
    decreases |s|
  {
    var n := BreakAt(s);
    if n == |s| then [] else [s[..n]] + Lines(AfterBreak(s, n))
  }

  /** The event type buffer, the data buffer, and the events dispatched so far. The `id` and
      `retry` fields do not influence either and are ignored. */
  datatype Interpreter = Interpreter(eventType: string, data: string, events: seq<Event>)

  const IDLE := Interpreter("", "", [])

  function ColonAt(s: string): (n: nat)
    ensures n <= |s|
  {
    if s == "" || s[0] == ':' then 0 else 1 + ColonAt(s[1..])
  }

  function DropSpace(s: string): string {
    if s != "" && s[0] == ' ' then s[1..] else s
  }

  function Dispatch(st: Interpreter): Interpreter {
    if st.data == "" then
      Interpreter("", "", st.events)
    else
      var data := if st.data[|st.data| - 1] == '\n' then st.data[..|st.data| - 1] else st.data;
      var eventType := if st.eventType == "" then "message" else st.eventType;
      Interpreter("", "", st.events + [Event(eventType, data)])
  }

  function Field(st: Interpreter, name: string, value: string): Interpreter {
    if name == "event" then st.(eventType := value)
    else if name == "data" then st.(data := st.data + value + "\n")
    else st
  }

  /** One line: blank dispatches, a leading colon is a comment, else a field. */
  function ProcessLine(st: Interpreter, line: string): Interpreter {
    if line == "" then
      Dispatch(st)
    else
      var n := ColonAt(line);
      if n == 0 then st
      else if n < |line| then Field(st, line[..n], DropSpace(line[n + 1..]))
      else Field(st, line, "")
  }

  function ProcessLines(st: Interpreter, lines: seq<string>): Interpreter
    decreases |lines|
  {
    if lines == [] then st else ProcessLines(ProcessLine(st, lines[0]), lines[1..])
  }

  function DropMark(s: string): string {
    if s != "" && s[0] == BYTE_ORDER_MARK then s[1..] else s
  }

  /** Batch reading of a whole stream. */
  function Parse(stream: string): seq<Event> {
    ProcessLines(IDLE, Lines(DropMark(stream))).events
  }

  // ----- The incremental reader ------------------------------------------------------------

  /** State between two characters: whether any was seen, whether the last was a CR, the
      unfinished line, and the interpreter. */
  datatype Feed = Feed(started: bool, afterCR: bool, partial: string, interp: Interpreter)

  const START := Feed(false, false, "", IDLE)

  function FeedChar(f: Feed, c: char): Feed {
    if !f.started && c == BYTE_ORDER_MARK then
      f.(started := true)
    else if c == '\n' && f.afterCR then
      f.(afterCR := false)
    else if IsBreak(c) then
      Feed(true, c == '\r', "", ProcessLine(f.interp, f.partial))
    else
      Feed(true, false, f.partial + [c], f.interp)
  }

  function FeedChunk(f: Feed, chunk: string): Feed
    decreases |chunk|
  {
    if chunk == "" then f else FeedChunk(FeedChar(f, chunk[0]), chunk[1..])
  }

  function FeedChunks(f: Feed, chunks: seq<string>): Feed
    decreases |chunks|
  {
    if chunks == [] then f else FeedChunks(FeedChunk(f, chunks[0]), chunks[1..])
  }

  // ----- Incremental reading equals batch reading ------------------------------------------

  lemma {:induction false} FeedAppend(f: Feed, a: string, b: string)
    ensures FeedChunk(f, a + b) == FeedChunk(FeedChunk(f, a), b)
    decreases |a|
  {
    if a == "" {
      assert a + b == b;
    } else {
      assert (a + b)[1..] == a[1..] + b;
      FeedAppend(FeedChar(f, a[0]), a[1..], b);
    }
  }

  lemma {:induction false} FeedConcat(f: Feed, chunks: seq<string>)
    ensures FeedChunks(f, chunks) == FeedChunk(f, Concat(chunks))
    decreases |chunks|
  {
    if chunks != [] {
      FeedConcat(FeedChunk(f, chunks[0]), chunks[1..]);
      FeedAppend(f, chunks[0], Concat(chunks[1..]));
    }
  }

  lemma {:induction false} BreakAfter(p: string, s: string)
    requires OneLine(p)
    ensures BreakAt(p + s) == |p| + BreakAt(s)
    decreases |p|
  {
    if p == "" {
      assert p + s == s;
    } else {
      assert p[0] in p;
      assert forall c :: c in p[1..] ==> c in p;
      assert (p + s)[1..] == p[1..] + s;
      BreakAfter(p[1..], s);
    }
  }

  /** The lines of an unfinished line followed by a break and the rest. */
  lemma LinesCons(p: string, c: char, s: string)
    requires OneLine(p) && IsBreak(c)
    ensures Lines(p + [c] + s) == [p] + Lines(if c == '\r' then DropLF(s) else s)
  {
    var t := p + [c] + s;
    assert t == p + ([c] + s);
    BreakAfter(p, [c] + s);
    assert BreakAt([c] + s) == 0;
    assert t[..|p|] == p && t[|p|] == c && t[|p| + 1..] == s;
  }

  /** What is still to be read, as one text: the unfinished line and then the remaining
      characters, less the LF of a CR LF split between chunks. */
  function Pending(f: Feed, s: string): string {
    f.partial + (if f.afterCR then DropLF(s) else s)
  }

  predicate Running(f: Feed) {
    f.started && OneLine(f.partial) && (f.afterCR ==> f.partial == "")
  }

  lemma RunningNext(f: Feed, c: char)
    requires Running(f)
    ensures Running(FeedChar(f, c))
  {
  }

  lemma PendingBreak(f: Feed, c: char, rest: string)
    requires Running(f) && IsBreak(c) && !(c == '\n' && f.afterCR)
    ensures Pending(f, [c] + rest) == f.partial + [c] + rest
    ensures Pending(FeedChar(f, c), rest) == if c == '\r' then DropLF(rest) else rest
  {
  }

  /** Pending text and dispatched lines agree across one character. */
  lemma FeedBreak(f: Feed, c: char, rest: string)
    requires Running(f) && IsBreak(c) && !(c == '\n' && f.afterCR)
    ensures ProcessLines(f.interp, Lines(Pending(f, [c] + rest)))
         == ProcessLines(FeedChar(f, c).interp, Lines(Pending(FeedChar(f, c), rest)))
  {
    var after := if c == '\r' then DropLF(rest) else rest;
    PendingBreak(f, c, rest);
    LinesCons(f.partial, c, rest);
    ProcessCons(f.interp, f.partial, Lines(after));
  }

  lemma FeedOther(f: Feed, c: char, rest: string)
    requires Running(f) && (!IsBreak(c) || (c == '\n' && f.afterCR))
    ensures FeedChar(f, c).interp == f.interp
    ensures Pending(f, [c] + rest) == Pending(FeedChar(f, c), rest)
  {
    assert ([c] + rest)[1..] == rest;
  }

  lemma {:induction false} FeedEqualsLines(f: Feed, s: string)
    requires Running(f)
    ensures FeedChunk(f, s).interp == ProcessLines(f.interp, Lines(Pending(f, s)))
    decreases |s|
  {
    if s == "" {
      assert Pending(f, s) == f.partial;
      BreakAfter(f.partial, "");
      assert f.partial + "" == f.partial;
    } else {
      var c, rest := s[0], s[1..];
      assert s == [c] + rest;
      RunningNext(f, c);
      if IsBreak(c) && !(c == '\n' && f.afterCR) {
        FeedBreak(f, c, rest);
      } else {
        FeedOther(f, c, rest);
      }
      FeedEqualsLines(FeedChar(f, c), rest);
    }
  }

  /** However the stream is cut into chunks, the incremental reader has dispatched exactly the
      events of the batch reader. This holds of every stream, not only of the broker's. */
  lemma IncrementalEqualsBatch(chunks: seq<string>)
    ensures FeedChunks(START, chunks).interp.events == Parse(Concat(chunks))
  {
    var s := Concat(chunks);
    FeedConcat(START, chunks);
    if s != "" {
      var c, rest := s[0], s[1..];
      assert s == [c] + rest;
      var next := FeedChar(START, c);
      FeedEqualsLines(next, rest);
      if c == BYTE_ORDER_MARK {
        assert Pending(next, rest) == DropMark(s);
      } else {
        FeedEqualsLines(START.(started := true), s);
        assert FeedChar(START.(started := true), c) == next;
        assert Pending(START.(started := true), s) == s;
      }
    }
  }

  // ----- The round trip --------------------------------------------------------------------

  lemma OneLineAppend(a: string, b: string)
    requires OneLine(a)
    ensures OneLine(a + b) <==> OneLine(b)
  {
    forall c | c in b
      ensures c in a + b
    {
      var i :| 0 <= i < |b| && b[i] == c;
      assert (a + b)[|a| + i] == c;
    }
  }

  lemma FrameShape(e: Event, rest: string)
    ensures Frame(e) + rest
         == ("event: " + e.eventType) + ['\n'] + (("data: " + e.data) + ['\n'] + ("" + ['\n'] + rest))
  {
  }

  lemma LinesOfFrame(e: Event, rest: string)
    requires Clean(e)
    ensures Lines(Frame(e) + rest) == ["event: " + e.eventType] + (["data: " + e.data] + ([""] + Lines(rest)))
  {
    FrameShape(e, rest);
    OneLineAppend("event: ", e.eventType);
    OneLineAppend("data: ", e.data);
    LinesCons("", '\n', rest);
    LinesCons("data: " + e.data, '\n', "" + ['\n'] + rest);
    LinesCons("event: " + e.eventType, '\n', ("data: " + e.data) + ['\n'] + ("" + ['\n'] + rest));
  }

  lemma ProcessCons(st: Interpreter, line: string, rest: seq<string>)
    ensures ProcessLines(st, [line] + rest) == ProcessLines(ProcessLine(st, line), rest)
  {
    assert ([line] + rest)[1..] == rest;
  }

  lemma ProcessEventLine(st: Interpreter, value: string)
    ensures ProcessLine(st, "event: " + value) == st.(eventType := value)
  {
    var line := "event: " + value;
    NamedField(st, "event", value);
    assert line == "event" + ": " + value;
  }

  lemma ProcessDataLine(st: Interpreter, value: string)
    ensures ProcessLine(st, "data: " + value) == st.(data := st.data + value + "\n")
  {
    NamedField(st, "data", value);
    assert "data: " + value == "data" + ": " + value;
  }

  lemma NamedField(st: Interpreter, name: string, value: string)
    requires name != "" && ':' !in name
    ensures ProcessLine(st, name + ": " + value) == Field(st, name, value)
  {
    var line := name + ": " + value;
    ColonAfter(name, ": " + value);
    assert line == name + (": " + value);
    assert line[..|name|] == name;
    assert line[|name| + 1..] == " " + value;
    assert (" " + value)[1..] == value;
  }

  lemma {:induction false} ColonAfter(p: string, s: string)
    requires ':' !in p && s != "" && s[0] == ':'
    ensures ColonAt(p + s) == |p|
    decreases |p|
  {
    if p == "" {
      assert p + s == s;
    } else {
      assert p[0] in p;
      assert forall c :: c in p[1..] ==> c in p;
      assert (p + s)[1..] == p[1..] + s;
      ColonAfter(p[1..], s);
    }
  }

  /** The state after the two field lines of a frame whose type is a single line. */
  lemma ReadFields(eventType: string, value: string, rest: seq<string>, events: seq<Event>)
    ensures ProcessLines(Interpreter("", "", events), ["event: " + eventType] + (["data: " + value] + rest))
         == ProcessLines(Interpreter(eventType, value + "\n", events), rest)
  {
    var st := Interpreter("", "", events);
    ProcessCons(st, "event: " + eventType, ["data: " + value] + rest);
    ProcessEventLine(st, eventType);
    ProcessCons(st.(eventType := eventType), "data: " + value, rest);
    ProcessDataLine(st.(eventType := eventType), value);
    assert "" + value + "\n" == value + "\n";
  }

  /** A frame, read from a clean interpreter, dispatches its event and leaves it clean. */
  lemma ReadFrame(e: Event, rest: string, events: seq<Event>)
    requires Clean(e)
    ensures ProcessLines(Interpreter("", "", events), Lines(Frame(e) + rest))
         == ProcessLines(Interpreter("", "", events + [e]), Lines(rest))
  {
    LinesOfFrame(e, rest);
    ReadFields(e.eventType, e.data, [""] + Lines(rest), events);
    ProcessCons(Interpreter(e.eventType, e.data + "\n", events), "", Lines(rest));
    assert (e.data + "\n")[..|e.data|] == e.data;
  }

  lemma MoveFirst(events: seq<Event>, es: seq<Event>)
    requires es != []
    ensures events + [es[0]] + es[1..] == events + es
  {
  }

  lemma {:induction false} ReadFrames(es: seq<Event>, events: seq<Event>)
    requires forall i :: 0 <= i < |es| ==> Clean(es[i])
    ensures ProcessLines(Interpreter("", "", events), Lines(Frames(es))).events == events + es
    decreases |es|
  {
    if es == [] {
      assert Lines("") == [];
    } else {
      ReadFrame(es[0], Frames(es[1..]), events);
      ReadFrames(es[1..], events + [es[0]]);
      MoveFirst(events, es);
    }
  }

  // ----- What no stream can carry ----------------------------------------------------------

  /** A type is never empty and never holds a line break, and data never holds a CR. */
  predicate Expressible(e: Event) {
    e.eventType != "" && OneLine(e.eventType) && '\r' !in e.data
  }

  ghost predicate ExpressibleState(st: Interpreter) {
    && OneLine(st.eventType) && '\r' !in st.data
    && (forall i :: 0 <= i < |st.events| ==> Expressible(st.events[i]))
  }

  lemma {:induction false} LinesAreLines(s: string)
    ensures forall i :: 0 <= i < |Lines(s)| ==> OneLine(Lines(s)[i])
    decreases |s|
  {
    if BreakAt(s) < |s| {
      LinesAreLines(AfterBreak(s, BreakAt(s)));
    }
  }

  lemma ProcessLineExpressible(st: Interpreter, line: string)
    requires ExpressibleState(st) && OneLine(line)
    ensures ExpressibleState(ProcessLine(st, line))
  {
    var n := ColonAt(line);
    if n < |line| {
      var value := DropSpace(line[n + 1..]);
      assert forall c :: c in value ==> c in line;
    }
  }

  lemma {:induction false} ProcessLinesExpressible(st: Interpreter, lines: seq<string>)
    requires ExpressibleState(st)
    requires forall i :: 0 <= i < |lines| ==> OneLine(lines[i])
    ensures ExpressibleState(ProcessLines(st, lines))
    decreases |lines|
  {
    if lines != [] {
      ProcessLineExpressible(st, lines[0]);
      ProcessLinesExpressible(ProcessLine(st, lines[0]), lines[1..]);
    }
  }

  /** Whatever the stream, every event read from it is expressible. */
  lemma ParsedIsExpressible(stream: string, i: nat)
    requires i < |Parse(stream)|
    ensures Expressible(Parse(stream)[i])
  {
    LinesAreLines(DropMark(stream));
    ProcessLinesExpressible(IDLE, Lines(DropMark(stream)));
  }

  lemma {:induction false} EventsGrow(st: Interpreter, lines: seq<string>)
    ensures st.events <= ProcessLines(st, lines).events
    decreases |lines|
  {
    if lines != [] {
      EventsGrow(ProcessLine(st, lines[0]), lines[1..]);
    }
  }

  /** A non-blank line lengthens the data buffer by no more than its own length. */
  lemma DataGrowth(st: Interpreter, line: string)
    requires line != "" && st.data != "" && st.data[|st.data| - 1] == '\n'
    ensures var next := ProcessLine(st, line);
            && next.events == st.events
            && next.data != "" && next.data[|next.data| - 1] == '\n'
            && |next.data| <= |st.data| + |line|
  {
  }

  lemma BlankDispatch(st: Interpreter, lines: seq<string>)
    requires st.data != "" && st.data[|st.data| - 1] == '\n'
    ensures var last := ProcessLines(st, [""] + lines);
            |last.events| > |st.events| && |last.events[|st.events|].data| == |st.data| - 1
  {
    ProcessCons(st, "", lines);
    EventsGrow(Dispatch(st), lines);
  }

  /** Data that continues over a line break always comes back shorter than it was sent. */
  ghost predicate Shortened(st: Interpreter, length: nat, lines: seq<string>) {
    var last := ProcessLines(st, lines);
    |last.events| > |st.events| && |last.events[|st.events|].data| < |st.data| + length
  }

  lemma ShortAtEnd(st: Interpreter, x: string, rest: string)
    requires st.data != "" && st.data[|st.data| - 1] == '\n' && OneLine(x)
    ensures Shortened(st, |x|, Lines(x + ['\n'] + ("" + ['\n'] + rest)))
  {
    var tail := "" + ['\n'] + rest;
    LinesCons(x, '\n', tail);
    LinesCons("", '\n', rest);
    if x == "" {
      BlankDispatch(st, Lines(tail));
    } else {
      ProcessCons(st, x, Lines(tail));
      DataGrowth(st, x);
      BlankDispatch(ProcessLine(st, x), Lines(rest));
    }
  }

  lemma ShortLonger(st: Interpreter, line: string, length: nat, after: seq<string>)
    requires st.data != "" && st.data[|st.data| - 1] == '\n' && line != ""
    requires Shortened(ProcessLine(st, line), length, after)
    ensures Shortened(st, |line| + 1 + length, [line] + after)
  {
    DataGrowth(st, line);
    ProcessCons(st, line, after);
  }

  lemma CutText(x: string, n: nat, tail: string)
    requires n < |x| && x[n] == '\n'
    ensures x + ['\n'] + tail == x[..n] + ['\n'] + (x[n + 1..] + ['\n'] + tail)
  {
    assert x == x[..n] + ['\n'] + x[n + 1..];
  }

  lemma {:induction false} ShortDispatch(st: Interpreter, x: string, rest: string)
    requires st.data != "" && st.data[|st.data| - 1] == '\n' && '\r' !in x
    ensures Shortened(st, |x|, Lines(x + ['\n'] + ("" + ['\n'] + rest)))
    decreases |x|
  {
    var n := BreakAt(x);
    if n == |x| {
      assert x[..n] == x;
      ShortAtEnd(st, x, rest);
    } else {
      var line, x', tail := x[..n], x[n + 1..], "" + ['\n'] + rest;
      assert x[n] in x;
      CutText(x, n, tail);
      LinesCons(line, '\n', x' + ['\n'] + tail);
      var after := Lines(x' + ['\n'] + tail);
      if line == "" {
        BlankDispatch(st, after);
      } else {
        DataGrowth(st, line);
        ShortDispatch(ProcessLine(st, line), x', rest);
        ShortLonger(st, line, |x'|, after);
      }
    }
  }

  lemma BrokenFrame(e: Event, rest: string, events: seq<Event>)
    requires Expressible(e) && !OneLine(e.data)
    ensures var last := ProcessLines(Interpreter("", "", events), Lines(Frame(e) + rest));
            |last.events| > |events| && |last.events[|events|].data| < |e.data|
  {
    var n := BreakAt(e.data);
    assert n < |e.data| by {
      assert e.data[..|e.data|] == e.data;
    }
    assert e.data[n] in e.data;
    var v, x := e.data[..n], e.data[n + 1..];
    var tail := x + ['\n'] + ("" + ['\n'] + rest);
    SplitFrame(e, n, rest);
    OneLineAppend("event: ", e.eventType);
    OneLineAppend("data: ", v);
    LinesCons("data: " + v, '\n', tail);
    LinesCons("event: " + e.eventType, '\n', ("data: " + v) + ['\n'] + tail);
    ReadFields(e.eventType, v, Lines(tail), events);
    assert '\r' !in x;
    ShortDispatch(Interpreter(e.eventType, v + "\n", events), x, rest);
  }

  lemma SplitFrame(e: Event, n: nat, rest: string)
    requires n < |e.data| && e.data[n] == '\n'
    ensures Frame(e) + rest
         == ("event: " + e.eventType) + ['\n']
            + (("data: " + e.data[..n]) + ['\n'] + (e.data[n + 1..] + ['\n'] + ("" + ['\n'] + rest)))
  {
    FrameShape(e, rest);
    assert e.data == e.data[..n] + ['\n'] + e.data[n + 1..];
  }

  lemma ShorterDiffers(read: seq<Event>, events: seq<Event>, es: seq<Event>)
    requires es != [] && |read| > |events| && |read[|events|].data| < |es[0].data|
    ensures read != events + es
  {
    assert (events + es)[|events|] == es[0];
  }

  ghost function ReadFrom(events: seq<Event>, es: seq<Event>): seq<Event> {
    ProcessLines(Interpreter("", "", events), Lines(Frames(es))).events
  }

  lemma ReadFirst(events: seq<Event>, es: seq<Event>)
    requires es != [] && Clean(es[0])
    ensures ReadFrom(events, es) == ReadFrom(events + [es[0]], es[1..])
  {
    ReadFrame(es[0], Frames(es[1..]), events);
  }

  lemma BrokenFirst(events: seq<Event>, es: seq<Event>)
    requires es != [] && Expressible(es[0]) && !Clean(es[0])
    ensures ReadFrom(events, es) != events + es
  {
    BrokenFrame(es[0], Frames(es[1..]), events);
    ShorterDiffers(ReadFrom(events, es), events, es);
  }

  lemma {:induction false} BrokenFrames(es: seq<Event>, bad: nat, events: seq<Event>)
    requires forall i :: 0 <= i < |es| ==> Expressible(es[i])
    requires bad < |es| && !Clean(es[bad])
    ensures ReadFrom(events, es) != events + es
    decreases |es|
  {
    if Clean(es[0]) {
      ReadFirst(events, es);
      BrokenFrames(es[1..], bad - 1, events + [es[0]]);
      MoveFirst(events, es);
    } else {
      BrokenFirst(events, es);
    }
  }

  lemma NoMark(es: seq<Event>)
    ensures DropMark(Frames(es)) == Frames(es)
  {
    if es != [] {
      assert Frames(es)[0] == 'e';
    }
  }

  /** A sequence of events survives the wire exactly when every one has a named type and no
      line break in its type or data. */
  lemma RoundTripIff(es: seq<Event>)
    ensures Parse(Frames(es)) == es <==> forall i :: 0 <= i < |es| ==> Clean(es[i])
  {
    NoMark(es);
    assert [] + es == es;
    if forall i :: 0 <= i < |es| ==> Clean(es[i]) {
      ReadFrames(es, []);
    } else if Parse(Frames(es)) == es {
      forall i | 0 <= i < |es|
        ensures Expressible(es[i])
      {
        ParsedIsExpressible(Frames(es), i);
      }
      var bad :| 0 <= bad < |es| && !Clean(es[bad]);
      BrokenFrames(es, bad, []);
    }
  }

  /** The same, read from arbitrary chunks by the incremental reader. */
  lemma ChunkedRoundTrip(es: seq<Event>, chunks: seq<string>)
    requires Concat(chunks) == Frames(es)
    ensures FeedChunks(START, chunks).interp.events == es <==> forall i :: 0 <= i < |es| ==> Clean(es[i])
  {
    IncrementalEqualsBatch(chunks);
    RoundTripIff(es);
  }
}
