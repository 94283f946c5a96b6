/** The incremental auth-log reader of internal/security/authlog.go: offset bookkeeping,
    rotation, and the line scanner it relies on. */
module AuthLog {
  import opened Chunks
  import opened Options

  /** The longest token the line scanner buffers. */
  const MAX_TOKEN := 65536

  /** What one pass of the line scanner delivers: the lines, how many bytes of the file were
      read, and whether it stopped because a line was too long. */
  datatype Scan = Scan(lines: seq<string>, consumed: nat, ok: bool)

  function NewlineAt(b: string): (n: nat)
    ensures n <= |b|
    ensures n < |b| ==> b[n] == '\n'
    ensures forall i :: 0 <= i < n ==> b[i] != '\n'
  {
    if b == "" || b[0] == '\n' then 0 else 1 + NewlineAt(b[1..])
  }

  /** The scanner strips one trailing carriage return from each line. */
  function DropCR(line: string): string {
    if line != "" && line[|line| - 1] == '\r' then line[..|line| - 1] else line
  }

  /** A line must end within the token buffer; the last line may lack its newline. */
  function ScanLines(b: string): (scan: Scan)
    ensures scan.consumed <= |b|
    ensures scan.ok ==> scan.consumed == |b|
  {
    if b == "" then
      Scan([], 0, true)
    else
      var n := NewlineAt(b);
      if n == |b| then
        if n < MAX_TOKEN then Scan([DropCR(b)], n, true) else Scan([], MAX_TOKEN, false)
      else if n < MAX_TOKEN then
        var rest := ScanLines(b[n + 1..]);
        Scan([DropCR(b[..n])] + rest.lines, n + 1 + rest.consumed, rest.ok)
      else
        Scan([], MAX_TOKEN, false)
  }

  /** Every line is newline-terminated (or there is none), and none exceeds the buffer. */
  predicate WholeLines(b: string) {
    && (b == "" || b[|b| - 1] == '\n')
    && ScanLines(b).ok
  }

  /** The events a run of lines yields when the k-th insertion of the pass succeeds iff
      `inserts(k)`; a failed insertion is ignored. */
  function Ingest<E>(lines: seq<string>, parseLine: string -> Option<E>, inserts: nat -> bool): seq<E> {
    if lines == [] then
      []
    else
      var k := |lines| - 1;
      Ingest(lines[..k], parseLine, inserts)
      + (match parseLine(lines[k])
         case Some(e) => if inserts(k) then [e] else []
         case None => [])
  }

  function Always(): nat -> bool {
    _ => true
  }

  /** One batch parse of a whole file. */
  function Batch<E>(file: string, parseLine: string -> Option<E>): seq<E> {
    Ingest(ScanLines(file).lines, parseLine, Always())
  }

  /** Where a poll starts reading: a file shorter than the offset has been rotated. */
  function StartOffset(offset: nat, size: nat): (start: nat)
    ensures start <= size
  {
    if offset > size then 0 else offset
  }

  /** What opening the log can find. */
  datatype Source = NoPath | OpenFails | Content(bytes: string)

  /** The parser's state as a value, and one poll of a readable log. */
  datatype Reader<E> = Reader(offset: nat, events: seq<E>)

  function Poll<E>(r: Reader<E>, file: string, parseLine: string -> Option<E>, inserts: nat -> bool): Reader<E> {
    var start := StartOffset(r.offset, |file|);
    var scan := ScanLines(file[start..]);
    Reader(start + scan.consumed, r.events + Ingest(scan.lines, parseLine, inserts))
  }

  lemma IngestNext<E>(lines: seq<string>, i: nat, parseLine: string -> Option<E>, inserts: nat -> bool)
    requires i < |lines|
    ensures Ingest(lines[..i + 1], parseLine, inserts)
         == Ingest(lines[..i], parseLine, inserts)
            + (match parseLine(lines[i])
               case Some(e) => if inserts(i) then [e] else []
               case None => [])
  {
    assert lines[..i + 1][..i] == lines[..i];
  }

  /** `Parser`: lastOffset, and the ssh_events rows it has inserted. */
  class Parser<E> {
    const parseLine: string -> Option<E>
    var lastOffset: nat
    var warned: bool
    var events: seq<E>

    constructor (parseLine: string -> Option<E>)
      ensures this.parseLine == parseLine && lastOffset == 0 && !warned && events == []
    {
      this.parseLine := parseLine;
      lastOffset := 0;
      warned := false;
      events := [];
    }

    /** The loop over the scanned lines; a failed insertion is ignored. */
    method IngestAll(lines: seq<string>, inserts: nat -> bool)
      modifies this`events
      ensures events == old(events) + Ingest(lines, parseLine, inserts)
    {
      for i := 0 to |lines|
        invariant events == old(events) + Ingest(lines[..i], parseLine, inserts)
      {
        IngestNext(lines, i, parseLine, inserts);
        match parseLine(lines[i]) {
          case Some(e) =>
            if inserts(i) {
              events := events + [e];
            }
          case None =>
        }
      }
      assert lines[..|lines|] == lines;
    }

    method Parse(log: Source, inserts: nat -> bool) returns (ok: bool)
      modifies this
      ensures log.NoPath? ==> ok && warned
      ensures !log.NoPath? ==> warned == old(warned)
      ensures !log.Content? ==> lastOffset == old(lastOffset) && events == old(events)
      ensures log.OpenFails? ==> !ok
      ensures log.Content? ==>
                && Reader(lastOffset, events) == Poll(old(Reader(lastOffset, events)), log.bytes, parseLine, inserts)
                && ok == ScanLines(log.bytes[StartOffset(old(lastOffset), |log.bytes|)..]).ok
    {
      match log
      case NoPath =>
        warned := true;
        return true;
      case OpenFails =>
        return false;
      case Content(bytes) =>
        if lastOffset > |bytes| {
          lastOffset := 0;
        }
        var start := lastOffset;
        var scan := ScanLines(bytes[start..]);
        IngestAll(scan.lines, inserts);
        lastOffset := start + scan.consumed;
        return scan.ok;
    }
  }

  /** Polls of one generation of the file: chunk k has been appended before poll k. */
  function PollChunks<E>(r: Reader<E>, file: string, chunks: seq<string>, parseLine: string -> Option<E>): Reader<E>
    decreases |chunks|
  {
    if chunks == [] then r
    else PollChunks(Poll(r, file + chunks[0], parseLine, Always()), file + chunks[0], chunks[1..], parseLine)
  }

  function PollGenerations<E>(r: Reader<E>, gens: seq<seq<string>>, parseLine: string -> Option<E>): Reader<E>
    decreases |gens|
  {
    if gens == [] then r else PollGenerations(PollChunks(r, "", gens[0], parseLine), gens[1..], parseLine)
  }

  /** Each generation parsed once, whole, in order. */
  function BatchGenerations<E>(gens: seq<seq<string>>, parseLine: string -> Option<E>): seq<E> {
    if gens == [] then [] else Batch(Concat(gens[0]), parseLine) + BatchGenerations(gens[1..], parseLine)
  }

  predicate AllWholeLines(chunks: seq<string>) {
    forall i :: 0 <= i < |chunks| ==> WholeLines(chunks[i])
  }

  /** The first sight of a new generation is smaller than everything read of the old one. */
  predicate RotationsSeen(offset: nat, gens: seq<seq<string>>)
    decreases |gens|
  {
    gens == [] ||
    (&& gens[0] != []
     && AllWholeLines(gens[0])
     && (offset == 0 || |gens[0][0]| < offset)
     && RotationsSeen(|Concat(gens[0])|, gens[1..]))
  }

  lemma NewlineAtAppend(a: string, b: string)
    ensures NewlineAt(a + b) == if NewlineAt(a) < |a| then NewlineAt(a) else |a| + NewlineAt(b)
  {
    if a == "" {
      assert a + b == b;
    } else if a[0] != '\n' {
      assert (a + b)[1..] == a[1..] + b;
      NewlineAtAppend(a[1..], b);
    }
  }

  /** One step of the scanner over a terminated line, taken apart at its newline. */
  lemma ScanStep(b: string, n: nat, tail: string)
    requires n == NewlineAt(b) && n < |b| && tail == b[n + 1..]
    ensures ScanLines(b).ok <==> n < MAX_TOKEN && ScanLines(tail).ok
    ensures n < MAX_TOKEN ==> ScanLines(b).lines == [DropCR(b[..n])] + ScanLines(tail).lines
  {
    var rest := ScanLines(tail);
    if n < MAX_TOKEN {
      assert ScanLines(b) == Scan([DropCR(b[..n])] + rest.lines, n + 1 + rest.consumed, rest.ok);
    }
  }

  /** A line and its newline: the line is read without the carriage return it may end in, and
      the rest of the text is read on its own. */
  lemma LineByLine(line: string, rest: string)
    requires '\n' !in line && |line| < 65536
    ensures var first := if line != "" && line[|line| - 1] == '\r' then line[..|line| - 1] else line;
            ScanLines(line + "\n" + rest)
            == Scan([first] + ScanLines(rest).lines, |line| + 1 + ScanLines(rest).consumed, ScanLines(rest).ok)
  {
    var b := line + "\n" + rest;
    FirstNewline(line, rest);
    assert b[..|line|] == line && b[|line| + 1..] == rest;
  }

  lemma FirstNewline(line: string, rest: string)
    requires '\n' !in line
    ensures NewlineAt(line + "\n" + rest) == |line|
  {
    NoNewline(line);
    NewlineAtAppend(line, "\n" + rest);
    assert line + "\n" + rest == line + ("\n" + rest);
  }

  /** The last line may lack its newline. */
  lemma UnendedLine(line: string)
    requires line != "" && '\n' !in line && |line| < 65536
    ensures ScanLines(line) == Scan([if line[|line| - 1] == '\r' then line[..|line| - 1] else line], |line|, true)
  {
    NoNewline(line);
  }

  lemma NoNewline(line: string)
    requires '\n' !in line
    ensures NewlineAt(line) == |line|
  {
  }

  /** A line that does not end within 65536 bytes ends the pass: the lines before it have been
      read, the file stands behind those bytes, and the rest is for the next poll. */
  lemma LongLineStops(line: string, rest: string)
    requires '\n' !in line && |line| == 65536
    ensures ScanLines(line + rest) == Scan([], 65536, false)
  {
    NoNewline(line);
    NewlineAtAppend(line, rest);
  }

  lemma SplitAppend(a: string, b: string, n: nat)
    requires n < |a|
    ensures (a + b)[..n] == a[..n]
    ensures (a + b)[n + 1..] == a[n + 1..] + b
  {
  }

  lemma LastOfTail(a: string, n: nat)
    requires n < |a|
    ensures a[n + 1..] != "" ==> a[n + 1..][|a[n + 1..]| - 1] == a[|a| - 1]
  {
  }

  lemma Reassociate(x: string, y: seq<string>, z: seq<string>)
    ensures [x] + (y + z) == ([x] + y) + z
  {
  }

  /** Scanning is a homomorphism at a line boundary. */
  lemma {:induction false} ScanAppend(a: string, b: string)
    requires WholeLines(a)
    ensures ScanLines(a + b).lines == ScanLines(a).lines + ScanLines(b).lines
    ensures ScanLines(a + b).ok == ScanLines(b).ok
    decreases |a|
  {
    if a == "" {
      assert a + b == b;
    } else {
      var n := NewlineAt(a);
      var tail := a[n + 1..];
      NewlineAtAppend(a, b);
      SplitAppend(a, b, n);
      LastOfTail(a, n);
      ScanStep(a, n, tail);
      ScanStep(a + b, n, tail + b);
      ScanAppend(tail, b);
      Reassociate(DropCR(a[..n]), ScanLines(tail).lines, ScanLines(b).lines);
    }
  }

  lemma {:induction false} IngestAppend<E>(x: seq<string>, y: seq<string>, parseLine: string -> Option<E>)
    ensures Ingest(x + y, parseLine, Always()) == Ingest(x, parseLine, Always()) + Ingest(y, parseLine, Always())
  {
    if y == [] {
      assert x + y == x;
    } else {
      var k := |y| - 1;
      assert (x + y)[..|x + y| - 1] == x + y[..k];
      IngestAppend(x, y[..k], parseLine);
    }
  }

  lemma WholeAppended(file: string, c: string)
    requires WholeLines(file) && WholeLines(c)
    ensures WholeLines(file + c)
  {
    ScanAppend(file, c);
    LastOfBoth(file, c);
  }

  lemma PollAppended<E>(r: Reader<E>, file: string, c: string, parseLine: string -> Option<E>)
    requires r.offset == |file| && ScanLines(c).ok
    ensures Poll(r, file + c, parseLine, Always()) == Reader(|file + c|, r.events + Batch(c, parseLine))
  {
    DropPrefix(file, c);
  }

  lemma DropPrefix(a: string, b: string)
    ensures (a + b)[|a|..] == b
  {
  }

  lemma LastOfBoth(a: string, b: string)
    ensures b != "" ==> (a + b)[|a + b| - 1] == b[|b| - 1]
    ensures b == "" ==> a + b == a
  {
  }

  lemma BatchAppend<E>(a: string, b: string, parseLine: string -> Option<E>)
    requires WholeLines(a)
    ensures Batch(a + b, parseLine) == Batch(a, parseLine) + Batch(b, parseLine)
  {
    ScanAppend(a, b);
    IngestAppend(ScanLines(a).lines, ScanLines(b).lines, parseLine);
  }

  /** Incremental equals batch, for every schedule of appended whole lines. */
  lemma {:induction false} IncrementalEqualsBatch<E>(r: Reader<E>, file: string, chunks: seq<string>, parseLine: string -> Option<E>)
    requires r.offset == |file|
    requires WholeLines(file) && AllWholeLines(chunks)
    ensures PollChunks(r, file, chunks, parseLine)
         == Reader(|file| + |Concat(chunks)|, r.events + Batch(Concat(chunks), parseLine))
    decreases |chunks|
  {
    if chunks == [] {
      assert Batch("", parseLine) == [];
    } else {
      var c, rest := chunks[0], chunks[1..];
      PollAppended(r, file, c, parseLine);
      WholeAppended(file, c);
      var next := Poll(r, file + c, parseLine, Always());
      IncrementalEqualsBatch(next, file + c, rest, parseLine);
      BatchAppend(c, Concat(rest), parseLine);
      Associate(r.events, Batch(c, parseLine), Batch(Concat(rest), parseLine));
    }
  }

  lemma Associate<T>(x: seq<T>, y: seq<T>, z: seq<T>)
    ensures (x + y) + z == x + (y + z)
  {
  }

  /** Across rotations that are seen, every generation is ingested exactly once, in order. */
  lemma {:induction false} RotationsIngestOnce<E>(r: Reader<E>, gens: seq<seq<string>>, parseLine: string -> Option<E>)
    requires RotationsSeen(r.offset, gens)
    ensures PollGenerations(r, gens, parseLine).events == r.events + BatchGenerations(gens, parseLine)
    decreases |gens|
  {
    if gens != [] {
      var g := gens[0];
      var c := g[0];
      // Either the offset was zero already or the poll resets it.
      assert StartOffset(r.offset, |"" + c|) == 0;
      assert PollChunks(r, "", g, parseLine) == PollChunks(r.(offset := 0), "", g, parseLine);
      IncrementalEqualsBatch(r.(offset := 0), "", g, parseLine);
      var next := PollChunks(r, "", g, parseLine);
      RotationsIngestOnce(next, gens[1..], parseLine);
    }
  }

  // ----- Splits in the middle of a line ----------------------------------------------------

  /** Cutting a file makes no line longer. */
  lemma {:induction false} PartsFit(a: string, b: string)
    requires ScanLines(a + b).ok
    ensures ScanLines(a).ok && ScanLines(b).ok
    decreases |a|
  {
    NewlineAtAppend(a, b);
    var n := NewlineAt(a);
    if a == "" {
      assert a + b == b;
    } else if n < |a| {
      SplitAppend(a, b, n);
      ScanStep(a, n, a[n + 1..]);
      ScanStep(a + b, n, a[n + 1..] + b);
      PartsFit(a[n + 1..], b);
    } else {
      var m := NewlineAt(b);
      if m < |b| {
        DropHead(a, b, m);
        ScanStep(b, m, b[m + 1..]);
        ScanStep(a + b, |a| + m, b[m + 1..]);
      }
    }
  }

  predicate LineBoundary(a: string, b: string) {
    a == "" || b == "" || a[|a| - 1] == '\n'
  }

  /** Two polls split at byte |a| read the lines one pass would read exactly when the split
      is at a line boundary (or one side is empty); otherwise they read one more. */
  lemma SplitIsHarmlessIff(a: string, b: string)
    requires ScanLines(a + b).ok
    ensures ScanLines(a).ok && ScanLines(b).ok
    ensures LineBoundary(a, b) ==> ScanLines(a).lines + ScanLines(b).lines == ScanLines(a + b).lines
    ensures !LineBoundary(a, b) ==> |ScanLines(a).lines| + |ScanLines(b).lines| == |ScanLines(a + b).lines| + 1
  {
    PartsFit(a, b);
    if a == "" || a[|a| - 1] == '\n' {
      ScanAppend(a, b);
    } else if b == "" {
      assert a + b == a;
    } else {
      MidLineSplitAddsALine(a, b);
    }
  }

  lemma {:induction false} MidLineSplitAddsALine(a: string, b: string)
    requires a != "" && b != "" && a[|a| - 1] != '\n'
    requires ScanLines(a).ok && ScanLines(b).ok && ScanLines(a + b).ok
    ensures |ScanLines(a).lines| + |ScanLines(b).lines| == |ScanLines(a + b).lines| + 1
    decreases |a|
  {
    var n := NewlineAt(a);
    if n < |a| {
      var tail := FirstLineOff(a, b, n);
      MidLineSplitAddsALine(tail, b);
    } else {
      UnterminatedHeadJoins(a, b);
    }
  }

  lemma FirstLineOff(a: string, b: string, n: nat) returns (tail: string)
    requires n == NewlineAt(a) && n < |a| - 1 && ScanLines(a).ok && ScanLines(a + b).ok
    ensures tail != "" && |tail| < |a| && tail[|tail| - 1] == a[|a| - 1]
    ensures ScanLines(tail).ok && ScanLines(tail + b).ok
    ensures |ScanLines(a).lines| == 1 + |ScanLines(tail).lines|
    ensures |ScanLines(a + b).lines| == 1 + |ScanLines(tail + b).lines|
  {
    tail := a[n + 1..];
    LastOfTail(a, n);
    ScanStep(a, n, tail);
    NewlineAtAppend(a, b);
    SplitAppend(a, b, n);
    var both := a + b;
    ScanStep(both, n, tail + b);
  }

  /** A head with no newline becomes part of the first line of what follows. */
  lemma UnterminatedHeadJoins(a: string, b: string)
    requires a != "" && b != "" && NewlineAt(a) == |a|
    requires ScanLines(a).ok && ScanLines(b).ok && ScanLines(a + b).ok
    ensures |ScanLines(a).lines| == 1
    ensures |ScanLines(a + b).lines| == |ScanLines(b).lines|
  {
    NewlineAtAppend(a, b);
    var m := NewlineAt(b);
    if m < |b| {
      DropHead(a, b, m);
      ScanStep(b, m, b[m + 1..]);
      ScanStep(a + b, |a| + m, b[m + 1..]);
    }
  }

  lemma DropHead(a: string, b: string, m: nat)
    requires m < |b|
    ensures (a + b)[|a| + m + 1..] == b[m + 1..]
  {
  }

  /** The lines that successive polls read, each its own chunk. */
  function PolledLines(chunks: seq<string>): seq<string> {
    if chunks == [] then [] else ScanLines(chunks[0]).lines + PolledLines(chunks[1..])
  }

  /** No poll stops in the middle of a line that goes on later. */
  predicate Aligned(chunks: seq<string>)
    decreases |chunks|
  {
    chunks == [] || (LineBoundary(chunks[0], Concat(chunks[1..])) && Aligned(chunks[1..]))
  }

  /** Polls that are not aligned read more lines than there are. */
  lemma {:induction false} PolledLinesExact(chunks: seq<string>)
    requires ScanLines(Concat(chunks)).ok
    ensures Aligned(chunks) ==> PolledLines(chunks) == ScanLines(Concat(chunks)).lines
    ensures !Aligned(chunks) ==> |PolledLines(chunks)| > |ScanLines(Concat(chunks)).lines|
    decreases |chunks|
  {
    if chunks != [] {
      SplitIsHarmlessIff(chunks[0], Concat(chunks[1..]));
      PolledLinesExact(chunks[1..]);
    }
  }

  lemma {:induction false} PollsIngestLines<E>(r: Reader<E>, file: string, chunks: seq<string>, parseLine: string -> Option<E>)
    requires r.offset == |file| && ScanLines(Concat(chunks)).ok
    ensures PollChunks(r, file, chunks, parseLine).events == r.events + Ingest(PolledLines(chunks), parseLine, Always())
    decreases |chunks|
  {
    if chunks != [] {
      var c, rest := chunks[0], chunks[1..];
      PartsFit(c, Concat(rest));
      assert (file + c)[|file|..] == c;
      var next := Poll(r, file + c, parseLine, Always());
      PollsIngestLines(next, file + c, rest, parseLine);
      IngestAppend(ScanLines(c).lines, PolledLines(rest), parseLine);
      Associate(r.events, Ingest(ScanLines(c).lines, parseLine, Always()), Ingest(PolledLines(rest), parseLine, Always()));
    }
  }

  lemma {:induction false} IngestEveryLine(lines: seq<string>)
    ensures Ingest(lines, (line: string) => Some(line), Always()) == lines
  {
    if lines != [] {
      IngestEveryLine(lines[..|lines| - 1]);
    }
  }

  lemma UnalignedPollsDiffer(chunks: seq<string>)
    requires ScanLines(Concat(chunks)).ok && !Aligned(chunks)
    ensures PollChunks(Reader(0, []), "", chunks, (line: string) => Some(line)).events
         != Batch(Concat(chunks), (line: string) => Some(line))
  {
    PolledLinesExact(chunks);
    PollsIngestLines(Reader(0, []), "", chunks, (line: string) => Some(line));
    IngestEveryLine(PolledLines(chunks));
    IngestEveryLine(ScanLines(Concat(chunks)).lines);
  }

  /** Any number of polls ingest what one pass over the whole file would, whatever the lines
      may mean, if and only if no poll stops in the middle of a line that goes on later. */
  lemma PollsEqualBatchIff(chunks: seq<string>)
    requires ScanLines(Concat(chunks)).ok
    ensures (forall parseLine: string -> Option<string> ::
               PollChunks(Reader(0, []), "", chunks, parseLine).events == Batch(Concat(chunks), parseLine))
       <==> Aligned(chunks)
  {
    if Aligned(chunks) {
      PolledLinesExact(chunks);
      forall parseLine: string -> Option<string>
        ensures PollChunks(Reader(0, []), "", chunks, parseLine).events == Batch(Concat(chunks), parseLine)
      {
        PollsIngestLines(Reader(0, []), "", chunks, parseLine);
      }
    } else {
      UnalignedPollsDiffer(chunks);
    }
  }

  // ----- Rotations that are not seen -------------------------------------------------------

  /** Where the line that holds byte n begins ... */
  function LineStart(file: string, n: nat): (start: nat)
    requires n <= |file|
    ensures start <= n
    ensures start == 0 || file[start - 1] == '\n'
    ensures forall i :: start <= i < n ==> file[i] != '\n'
  {
    if n == 0 || file[n - 1] == '\n' then n else LineStart(file, n - 1)
  }

  /** ... and where it ends, after its newline if it has one. */
  function LineEnd(file: string, n: nat): (end: nat)
    requires n <= |file|
    ensures n <= end <= |file|
    ensures n < end ==> end == |file| || file[end - 1] == '\n'
    ensures n == end ==> n == |file|
  {
    var k := n + NewlineAt(file[n..]);
    if k < |file| then k + 1 else k
  }

  lemma BatchAtLine<E>(a: string, b: string, parseLine: string -> Option<E>)
    requires ScanLines(a + b).ok && LineBoundary(a, b)
    ensures Batch(a + b, parseLine) == Batch(a, parseLine) + Batch(b, parseLine)
  {
    SplitIsHarmlessIff(a, b);
    IngestAppend(ScanLines(a).lines, ScanLines(b).lines, parseLine);
  }

  lemma SameTail<T>(x: seq<T>, y: seq<T>, tail: seq<T>)
    ensures x + tail == y + tail <==> x == y
  {
    if x + tail == y + tail {
      assert |x| == |y|;
      assert (x + tail)[..|x|] == x && (y + tail)[..|y|] == y;
    }
  }

  lemma InFourParts(file: string, start: nat, offset: nat, end: nat)
    requires start <= offset <= end <= |file|
    ensures file == file[..start] + (file[start..end] + file[end..])
    ensures file == file[..offset] + (file[offset..end] + file[end..])
    ensures file[offset..] == file[offset..end] + file[end..]
  {
  }

  lemma BatchInThree<E>(a: string, b: string, c: string, parseLine: string -> Option<E>)
    requires ScanLines(a + (b + c)).ok && LineBoundary(a, b + c) && LineBoundary(b, c)
    ensures Batch(a + (b + c), parseLine) == (Batch(a, parseLine) + Batch(b, parseLine)) + Batch(c, parseLine)
  {
    BatchAtLine(a, b + c, parseLine);
    PartsFit(a, b + c);
    BatchAtLine(b, c, parseLine);
    Associate(Batch(a, parseLine), Batch(b, parseLine), Batch(c, parseLine));
  }

  lemma TailFits(file: string, offset: nat)
    requires offset <= |file| && ScanLines(file).ok
    ensures ScanLines(file[offset..]).ok
  {
    assert file == file[..offset] + file[offset..];
    PartsFit(file[..offset], file[offset..]);
  }

  lemma Boundaries(file: string, offset: nat, start: nat, end: nat)
    requires offset <= |file| && start == LineStart(file, offset) && end == LineEnd(file, offset)
    ensures LineBoundary(file[..start], file[start..end] + file[end..])
    ensures LineBoundary(file[start..end], file[end..]) && LineBoundary(file[offset..end], file[end..])
  {
  }

  /** A rotated file that is not smaller than the offset is not recognised: the poll starts at
      the old offset, most often in the middle of a line. Of that line it reads the part from
      the offset on as a line of its own, and then the rest of the file. Nothing is lost or
      changed exactly when that part yields what everything up to the end of that line does. */
  lemma UnseenRotationSkipsHead<E>(r: Reader<E>, file: string, parseLine: string -> Option<E>)
    requires r.offset <= |file| && ScanLines(file).ok
    ensures var start, end := LineStart(file, r.offset), LineEnd(file, r.offset);
            var next := Poll(r, file, parseLine, Always());
            && next.events == r.events + (Batch(file[r.offset..end], parseLine) + Batch(file[end..], parseLine))
            && (next.events == r.events + Batch(file, parseLine)
                <==> Batch(file[r.offset..end], parseLine) == Batch(file[..start], parseLine) + Batch(file[start..end], parseLine))
  {
    var start, end := LineStart(file, r.offset), LineEnd(file, r.offset);
    var before, line, part, rest := file[..start], file[start..end], file[r.offset..end], file[end..];
    InFourParts(file, start, r.offset, end);
    Boundaries(file, r.offset, start, end);
    TailFits(file, r.offset);
    BatchInThree(before, line, rest, parseLine);
    BatchAtLine(part, rest, parseLine);
    Cancel(r.events, Batch(part, parseLine), Batch(before, parseLine) + Batch(line, parseLine), Batch(rest, parseLine));
  }

  lemma Cancel<T>(head: seq<T>, x: seq<T>, y: seq<T>, tail: seq<T>)
    ensures head + (x + tail) == head + (y + tail) <==> x == y
  {
    SameHead(head, x + tail, y + tail);
    SameTail(x, y, tail);
  }

  // ----- Which polls read exactly the file -------------------------------------------------

  /** The poll starts the file over, or skips no more than the CR of a CR LF that makes an empty
      first line. */
  predicate StartsWell(offset: nat, file: string) {
    offset == 0 || offset > |file| || (offset == 1 && |file| >= 2 && file[0] == '\r' && file[1] == '\n')
  }

  lemma SomeLine(b: string)
    requires b != "" && ScanLines(b).ok
    ensures |ScanLines(b).lines| > 0
  {
  }

  lemma LastLine(b: string)
    requires b != "" && NewlineAt(b) == |b| && ScanLines(b).ok
    ensures ScanLines(b).lines == [DropCR(b)]
  {
  }

  /** Dropping bytes before a line changes what it reads as, but for a CR before nothing. */
  lemma DroppedBytesShow(head: string, q: string)
    requires head != ""
    ensures DropCR(head + q) == DropCR(q) <==> q == "" && head == "\r"
  {
    if q != "" {
      assert (head + q)[|head + q| - 1] == q[|q| - 1];
    } else {
      assert head + q == head;
      if head[|head| - 1] == '\r' && |head| == 1 {
        assert head == "\r";
      }
    }
  }

  /** The skipped bytes and the tail are all in one line, which is the last one ... */
  lemma SkippedInLastLine(head: string, tail: string)
    requires head != "" && tail != "" && NewlineAt(head) == |head| && NewlineAt(tail) == |tail|
    requires ScanLines(head + tail).ok && ScanLines(tail).ok
    ensures ScanLines(tail).lines != ScanLines(head + tail).lines
  {
    NewlineAtAppend(head, tail);
    LastLine(tail);
    LastLine(head + tail);
    DroppedBytesShow(head, tail);
  }

  /** ... or which more lines follow. */
  lemma SkippedInFirstLine(head: string, tail: string)
    requires head != "" && NewlineAt(head) == |head| && NewlineAt(tail) < |tail|
    requires ScanLines(head + tail).ok && ScanLines(tail).ok
    ensures ScanLines(tail).lines == ScanLines(head + tail).lines <==> head == "\r" && NewlineAt(tail) == 0
  {
    var q, rest := JoinedFirstLine(head, tail);
    DroppedBytesShow(head, q);
    FirstDiffers(DropCR(q), DropCR(head + q), ScanLines(rest).lines);
  }

  /** Both texts end their first line at the same newline. */
  lemma JoinedFirstLine(head: string, tail: string) returns (q: string, rest: string)
    requires NewlineAt(head) == |head| && NewlineAt(tail) < |tail|
    requires ScanLines(head + tail).ok && ScanLines(tail).ok
    ensures |q| == NewlineAt(tail)
    ensures ScanLines(tail).lines == [DropCR(q)] + ScanLines(rest).lines
    ensures ScanLines(head + tail).lines == [DropCR(head + q)] + ScanLines(rest).lines
  {
    var n, both := NewlineAt(tail), head + tail;
    q, rest := tail[..n], tail[n + 1..];
    var joined, k := head + q, |head| + n;
    assert k == NewlineAt(both) && joined == both[..k] && rest == both[k + 1..] by {
      NewlineAtAppend(head, tail);
      DropHead(head, tail, n);
      TakeHead(head, tail, n);
    }
    LinesAfterFirst(tail, n, q, rest);
    LinesAfterFirst(both, k, joined, rest);
  }

  lemma LinesAfterFirst(b: string, n: nat, q: string, rest: string)
    requires n == NewlineAt(b) && n < |b| && q == b[..n] && rest == b[n + 1..] && ScanLines(b).ok
    ensures ScanLines(b).lines == [DropCR(q)] + ScanLines(rest).lines
  {
    ScanStep(b, n, rest);
  }

  lemma TakeHead(a: string, b: string, n: nat)
    requires n <= |b|
    ensures (a + b)[..|a| + n] == a + b[..n]
  {
  }

  lemma FirstDiffers(x: string, y: string, rest: seq<string>)
    ensures [x] + rest == [y] + rest <==> x == y
  {
    assert ([x] + rest)[0] == x && ([y] + rest)[0] == y;
  }

  lemma SkippedPrefix(head: string, tail: string)
    requires head != "" && tail != "" && NewlineAt(head) == |head| && ScanLines(head + tail).ok
    ensures ScanLines(tail).lines == ScanLines(head + tail).lines <==> head == "\r" && tail[0] == '\n'
  {
    PartsFit(head, tail);
    if NewlineAt(tail) < |tail| {
      SkippedInFirstLine(head, tail);
    } else {
      SkippedInLastLine(head, tail);
    }
  }

  /** A text with a newline before its end is more than one line. */
  lemma ManyLines(head: string)
    requires head != "" && head[|head| - 1] != '\n' && ScanLines(head).ok && NewlineAt(head) < |head|
    ensures |ScanLines(head).lines| > 1
  {
    var tail := head[NewlineAt(head) + 1..];
    LastOfTail(head, NewlineAt(head));
    ScanStep(head, NewlineAt(head), tail);
    SomeLine(tail);
  }

  lemma SkippingLosesLines(head: string, tail: string)
    requires head != "" && ScanLines(head + tail).ok
    ensures ScanLines(tail).lines == ScanLines(head + tail).lines <==> head == "\r" && tail != "" && tail[0] == '\n'
  {
    SplitIsHarmlessIff(head, tail);
    SomeLine(head);
    if !LineBoundary(head, tail) {
      if NewlineAt(head) == |head| {
        SkippedPrefix(head, tail);
      } else {
        ManyLines(head);
      }
    }
  }

  lemma SkippedCR(offset: nat, file: string)
    requires 0 < offset <= |file|
    ensures var head, tail := file[..offset], file[offset..];
            file == head + tail && head != ""
            && (head == "\r" && tail != "" && tail[0] == '\n' <==> StartsWell(offset, file))
  {
    var head := file[..offset];
    if offset == 1 && file[0] == '\r' {
      assert head == "\r";
    }
  }

  lemma SkippedLinesIff(offset: nat, file: string)
    requires ScanLines(file).ok
    ensures ScanLines(file[StartOffset(offset, |file|)..]).lines == ScanLines(file).lines <==> StartsWell(offset, file)
  {
    if 0 < offset <= |file| {
      SkippedCR(offset, file);
      var head, tail := file[..offset], file[offset..];
      SkippingLosesLines(head, tail);
    } else {
      assert file[0..] == file;
    }
  }

  lemma PollIsLines<E>(offset: nat, file: string, parseLine: string -> Option<E>)
    ensures Poll(Reader(offset, []), file, parseLine, Always()).events
         == Ingest(ScanLines(file[StartOffset(offset, |file|)..]).lines, parseLine, Always())
  {
  }

  /** A poll reads exactly the file, whatever its lines may mean, if and only if it starts the
      file over, or skips only the CR of an empty first line. */
  lemma PollReadsFileIff(offset: nat, file: string)
    requires ScanLines(file).ok
    ensures (forall parseLine: string -> Option<string> ::
               Poll(Reader(offset, []), file, parseLine, Always()).events == Batch(file, parseLine))
       <==> StartsWell(offset, file)
  {
    SkippedLinesIff(offset, file);
    var lines := ScanLines(file[StartOffset(offset, |file|)..]).lines;
    if StartsWell(offset, file) {
      forall parseLine: string -> Option<string>
        ensures Poll(Reader(offset, []), file, parseLine, Always()).events == Batch(file, parseLine)
      {
        PollIsLines(offset, file, parseLine);
      }
    } else {
      EveryLineTells(offset, file);
    }
  }

  lemma EveryLineTells(offset: nat, file: string)
    requires ScanLines(file[StartOffset(offset, |file|)..]).lines != ScanLines(file).lines
    ensures Poll(Reader(offset, []), file, (line: string) => Some(line), Always()).events
         != Batch(file, (line: string) => Some(line))
  {
    PollIsLines(offset, file, (line: string) => Some(line));
    IngestEveryLine(ScanLines(file[StartOffset(offset, |file|)..]).lines);
    IngestEveryLine(ScanLines(file).lines);
  }

  lemma SameHead<T>(head: seq<T>, x: seq<T>, y: seq<T>)
    ensures head + x == head + y <==> x == y
  {
    if head + x == head + y {
      assert (head + x)[|head|..] == x && (head + y)[|head|..] == y;
    }
  }

  function OnlyAB(line: string): Option<int> {
    if line == "ab" then Some(1) else None
  }

  /** A loss although the skipped head holds no event of its own: the offset falls inside the
      only line that has one. */
  lemma MidLineRotationLoses()
    ensures var r, file := Reader(1, []), "ab\n";
            && Batch(file[..r.offset], OnlyAB) == []
            && Poll(r, file, OnlyAB, Always()).events == []
            && Batch(file, OnlyAB) == [1]
  {
    var file := "ab\n";
    assert file[..1] == "a" && file[1..] == "b\n" && file == "ab" + "\n" && "b\n" == "b" + "\n";
    OneLineScan("ab");
    OneLineScan("b");
    LastLine("a");
    IngestOne("ab", OnlyAB);
    IngestOne("b", OnlyAB);
    IngestOne("a", OnlyAB);
  }

  lemma OneLineScan(line: string)
    requires line != "" && '\n' !in line && '\r' !in line && |line| < MAX_TOKEN
    ensures ScanLines(line + "\n").lines == [line]
  {
    var b := line + "\n";
    NewlineAtAppend(line, "\n");
    assert NewlineAt(line) == |line|;
    ScanStep(b, |line|, "");
    assert b[..|line|] == line;
  }

  lemma IngestOne<E>(line: string, parseLine: string -> Option<E>)
    ensures Ingest([line], parseLine, Always())
         == match parseLine(line) case Some(e) => [e] case None => []
  {
    assert [line][..0] == [];
  }
}
