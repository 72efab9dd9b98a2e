/**
 Which lines a batch's records come from, read off the provider's files alone: the
 record lines of each file in turn, up to the first file that fails.
 */
module YieldPlaces {
  import opened Bytes
  import opened Framing
  import opened LineStream
  import opened CheckpointedStream
  import opened Sequences

  /** A line of one of the batch's files, both counted from zero. */
  datatype Place = Place(file: nat, line: nat)

  /** The physical lines of the batch that the first `n` files deliver. */
  function LinesBefore(lim: Limits, files: seq<ProviderFile>, n: nat): nat
    requires n <= |files|
  {
    if n == 0 then 0
    else
      var base, f := LinesBefore(lim, files, n - 1), files[n - 1];
      base + if f.fileId.Some? && f.fileId.value != [] then |FileLines(lim, base, f.source)| else 0
  }

  /** One of the first `n` files has an unacceptable id or cannot be read to its end. */
  predicate FailsWithin(lim: Limits, rules: IdentifierRules, files: seq<ProviderFile>, n: nat)
    requires n <= |files|
  {
    exists i :: 0 <= i < n && FileBreaks(lim, rules, files, i)
  }

  predicate FileBreaks(lim: Limits, rules: IdentifierRules, files: seq<ProviderFile>, i: nat)
    requires i < |files|
  {
    && files[i].fileId.Some? && files[i].fileId.value != []
    && (!rules.resourceId(files[i].fileId.value) || FileFails(lim, LinesBefore(lim, files, i), files[i].source))
  }

  /** The text of a line without one carriage return at its end. */
  function TextOf(line: seq<Byte>): seq<Byte> {
    if line != [] && line[|line| - 1] == 13 then line[..|line| - 1] else line
  }

  /** A line that is not blank and decodes to an object. */
  predicate HoldsRecord(lim: Limits, line: seq<Byte>) {
    TextOf(line) != [] && lim.decode(TextOf(line)).Object?
  }

  function BytesAt(e: StreamEvent): seq<Byte> {
    if e.PhysicalLine? then e.bytes else []
  }

  /** The record lines among the first `n` lines of a file. */
  function RecordLines(lim: Limits, file: nat, lines: seq<StreamEvent>, n: nat): seq<Place>
    requires n <= |lines|
  {
    if n == 0 then []
    else RecordLines(lim, file, lines, n - 1) + if HoldsRecord(lim, BytesAt(lines[n - 1])) then [Place(file, n - 1)]
    else []
  }

  /** The record lines of the first `n` files, in order, up to and including the first file that fails. */
  function Places(lim: Limits, rules: IdentifierRules, files: seq<ProviderFile>, n: nat): seq<Place>
    requires n <= |files|
  {
    if n == 0 then []
    else
      var before, f := Places(lim, rules, files, n - 1), files[n - 1];
      if FailsWithin(lim, rules, files, n - 1) || f.fileId.None? || f.fileId.value == []
          || !rules.resourceId(f.fileId.value)
      then before
      else
        var lines := FileLines(lim, LinesBefore(lim, files, n - 1), f.source);
        before + RecordLines(lim, n - 1, lines, |lines|)
  }

  /** The item is the record at this place, with every field but the digest told from the files and the count. */
  predicate Describes(lim: Limits, id: StreamId, files: seq<ProviderFile>, p: Place, count: nat, y: Item) {
    && p.file < |files| && files[p.file].fileId.Some?
    && var f, base := files[p.file], LinesBefore(lim, files, p.file);
    && p.line < |FileLines(lim, base, f.source)|
    && var text := TextOf(BytesAt(FileLines(lim, base, f.source)[p.line]));
    && text != [] && lim.decode(text) == Object(y.record)
    && y.batchId == id.batchId && y.fileKind == f.kind
    && y.checkpoint.schemaVersion == 1
    && y.checkpoint.batchId == id.batchId && y.checkpoint.endpointAlias == id.endpointAlias
    && y.checkpoint.fileKind == f.kind && y.checkpoint.fileId == f.fileId.value
    && y.checkpoint.fileLineNumber == p.line + 1
    && y.checkpoint.batchLineCount == base + p.line + 1
    && y.checkpoint.recordCount == count
  }

  predicate Matches(lim: Limits, id: StreamId, files: seq<ProviderFile>, places: seq<Place>, items: seq<Item>) {
    |items| == |places| && forall k :: 0 <= k < |items| ==> Describes(lim, id, files, places[k], k + 1, items[k])
  }

  // ----- what is refused, by its bytes -----

  /**
   A line over the count is refused for that, then one over the limit, then one that is
   neither blank nor an object.
   */
  lemma LineIsRefusedFor(lim: Limits, observed: nat, line: seq<Byte>)
    ensures Verdict(lim, observed, line) == Some(PhysicalLineLimit) <==> observed > lim.maxPhysicalLines
    ensures Verdict(lim, observed, line) == Some(LineLimit) <==>
              observed <= lim.maxPhysicalLines && |line| > lim.maxLineBytes
    ensures Verdict(lim, observed, line).None? <==>
              && observed <= lim.maxPhysicalLines && |line| <= lim.maxLineBytes
              && (TextOf(line) == [] || lim.decode(TextOf(line)).Object?)
    ensures observed <= lim.maxPhysicalLines && |line| <= lim.maxLineBytes && Verdict(lim, observed, line).Some? ==>
              Verdict(lim, observed, line) == Some(BadLine(lim.decode(TextOf(line))))
  {
  }

  /** Each chunk error has its own cause: not bytes, none, more than 64 KiB, or more than the download may hold. */
  lemma ChunkIsRefusedFor(lim: Limits, read: nat, c: Chunk)
    ensures ChunkDefect(lim, read, c) == Some(ForeignChunk) <==> c.NonByteChunk?
    ensures ChunkDefect(lim, read, c) == Some(EmptyChunk) <==> c == ByteChunk([])
    ensures ChunkDefect(lim, read, c) == Some(OversizedChunk) <==> c.ByteChunk? && |c.bytes| > 65536
    ensures ChunkDefect(lim, read, c) == Some(DownloadLimit) <==>
              c.ByteChunk? && 0 < |c.bytes| <= 65536 && read + |c.bytes| > lim.maxDownloadBytes
    ensures ChunkDefect(lim, read, c).None? <==>
              c.ByteChunk? && 0 < |c.bytes| <= 65536 && read + |c.bytes| <= lim.maxDownloadBytes
  {
  }

  // ----- one line, one file, all files -----

  /** Accepted lines are within the limit, so a line is a record exactly when its text decodes to an object. */
  lemma RecordsAreLines(lim: Limits, e: StreamEvent)
    requires e.PhysicalLine? && Verdict(lim, 0, e.bytes).None?
    ensures RecordOf(lim, e).Some? <==> HoldsRecord(lim, e.bytes)
    ensures RecordOf(lim, e).Some? ==> lim.decode(TextOf(e.bytes)) == Object(RecordOf(lim, e).value)
  {
  }

  /** Each delivered line was accepted, whatever the count it brought the batch to. */
  lemma DeliveredIsAccepted(lim: Limits, base: nat, src: Source, j: nat)
    requires j < |FileLines(lim, base, src)|
    ensures FileLines(lim, base, src)[j].PhysicalLine? && FileLines(lim, base, src)[j].number == j + 1
    ensures Verdict(lim, 0, FileLines(lim, base, src)[j].bytes).None?
  {
    var offered := Offered(lim, src.chunks);
    AcceptedMeans(lim, base, offered);
    DeliveredMeans(lim, base, 0, offered);
    assert Verdict(lim, base + j + 1, offered[j].bytes).None?;
    AcceptedAnywhere(lim, base + j + 1, offered[j].bytes);
  }

  lemma AcceptedAnywhere(lim: Limits, observed: nat, line: seq<Byte>)
    requires Verdict(lim, observed, line).None?
    ensures Verdict(lim, 0, line).None?
  {
  }

  /** Where the events of a file stand after its first `n` lines. */
  predicate InFile(lim: Limits, id: StreamId, files: seq<ProviderFile>, i: nat, places: seq<Place>, n: nat,
                   es: seq<StreamEvent>)
    requires i < |files| && files[i].fileId.Some?
    requires n <= |FileLines(lim, LinesBefore(lim, files, i), files[i].source)|
  {
    && CurrentFile(es) == (files[i].kind, files[i].fileId.value)
    && LineCount(es) == LinesBefore(lim, files, i) + n
    && Matches(lim, id, files,
               places + RecordLines(lim, i, FileLines(lim, LinesBefore(lim, files, i), files[i].source), n),
               Items(lim, id, es))
  }

  lemma LinePlaced(lim: Limits, id: StreamId, files: seq<ProviderFile>, i: nat, places: seq<Place>, n: nat,
                   es: seq<StreamEvent>)
    requires i < |files| && files[i].fileId.Some?
    requires n < |FileLines(lim, LinesBefore(lim, files, i), files[i].source)|
    requires InFile(lim, id, files, i, places, n, es)
    ensures InFile(lim, id, files, i, places, n + 1,
                   es + [FileLines(lim, LinesBefore(lim, files, i), files[i].source)[n]])
  {
    hide FileLines, LinesBefore, Items, LineCount, CurrentFile, RecordCount, RecordOf, RecordLines, Matches, Describes,
         HoldsRecord, BytesAt;
    var base := LinesBefore(lim, files, i);
    var lines := FileLines(lim, base, files[i].source);
    var e, now := lines[n], es + [lines[n]];
    DeliveredIsAccepted(lim, base, files[i].source, n);
    ItemsSnoc(lim, id, es, e);
    RecordLinesSnoc(lim, i, lines, n);
    var before := places + RecordLines(lim, i, lines, n);
    if RecordOf(lim, e).Some? {
      RecordDescribed(lim, id, files, i, n, es);
      MatchesSnoc(lim, id, files, before, Items(lim, id, es), Place(i, n), ItemOf(lim, id, now));
      Associative(places, RecordLines(lim, i, lines, n), [Place(i, n)]);
    }
  }

  /** One more line adds its place if and only if it is a record. */
  lemma RecordLinesSnoc(lim: Limits, file: nat, lines: seq<StreamEvent>, n: nat)
    requires n < |lines| && lines[n].PhysicalLine? && Verdict(lim, 0, lines[n].bytes).None?
    ensures RecordLines(lim, file, lines, n + 1)
            == if RecordOf(lim, lines[n]).Some? then RecordLines(lim, file, lines, n) + [Place(file, n)]
               else RecordLines(lim, file, lines, n)
  {
    hide RecordOf, HoldsRecord;
    RecordsAreLines(lim, lines[n]);
    assert RecordLines(lim, file, lines, n) + [] == RecordLines(lim, file, lines, n);
  }

  /** The item of a record line names the line. */
  lemma RecordDescribed(lim: Limits, id: StreamId, files: seq<ProviderFile>, i: nat, n: nat, es: seq<StreamEvent>)
    requires i < |files| && files[i].fileId.Some?
    requires n < |FileLines(lim, LinesBefore(lim, files, i), files[i].source)|
    requires CurrentFile(es) == (files[i].kind, files[i].fileId.value)
    requires LineCount(es) == LinesBefore(lim, files, i) + n
    requires RecordOf(lim, FileLines(lim, LinesBefore(lim, files, i), files[i].source)[n]).Some?
    ensures var now := es + [FileLines(lim, LinesBefore(lim, files, i), files[i].source)[n]];
            && now[|now| - 1] == FileLines(lim, LinesBefore(lim, files, i), files[i].source)[n]
            && Describes(lim, id, files, Place(i, n), |Items(lim, id, es)| + 1, ItemOf(lim, id, now))
  {
    hide FileLines, LinesBefore, Items, LineCount, CurrentFile, RecordCount, RecordOf;
    var e := FileLines(lim, LinesBefore(lim, files, i), files[i].source)[n];
    DeliveredIsAccepted(lim, LinesBefore(lim, files, i), files[i].source, n);
    RecordsAreLines(lim, e);
    ItemsSnoc(lim, id, es, e);
    ItemsCount(lim, id, es);
    LastEvent(es, e);
  }

  lemma MatchesSnoc(lim: Limits, id: StreamId, files: seq<ProviderFile>, places: seq<Place>, items: seq<Item>, p: Place,
                    y: Item)
    requires Matches(lim, id, files, places, items) && Describes(lim, id, files, p, |items| + 1, y)
    ensures Matches(lim, id, files, places + [p], items + [y])
  {
    hide Describes;
  }

  lemma LastEvent(es: seq<StreamEvent>, e: StreamEvent)
    ensures (es + [e])[|es + [e]| - 1] == e
  {
  }

  lemma {:induction false} LinesPlaced(lim: Limits, id: StreamId, files: seq<ProviderFile>, i: nat,
                                       places: seq<Place>, n: nat,
                                       es: seq<StreamEvent>)
    requires i < |files| && files[i].fileId.Some?
    requires n <= |FileLines(lim, LinesBefore(lim, files, i), files[i].source)|
    requires InFile(lim, id, files, i, places, 0, es)
    ensures InFile(lim, id, files, i, places, n, es + FileLines(lim, LinesBefore(lim, files, i), files[i].source)[..n])
  {
    hide FileLines, LinesBefore, InFile;
    var lines := FileLines(lim, LinesBefore(lim, files, i), files[i].source);
    if n == 0 {
      assert es + lines[..0] == es;
    } else {
      LinesPlaced(lim, id, files, i, places, n - 1, es);
      LinePlaced(lim, id, files, i, places, n - 1, es + lines[..n - 1]);
      AppendTakeSnoc(es, lines, n - 1);
    }
  }

  /** What has been read after the first `i` files. */
  ghost predicate AfterFiles(lim: Limits, rules: IdentifierRules, id: StreamId, files: seq<ProviderFile>, i: nat,
                             es: seq<StreamEvent>)
    requires i <= |files|
  {
    && LineCount(es) == LinesBefore(lim, files, i)
    && Matches(lim, id, files, Places(lim, rules, files, i), Items(lim, id, es))
  }

  lemma FilePlaced(lim: Limits, rules: IdentifierRules, id: StreamId, files: seq<ProviderFile>, i: nat,
                   seen: seq<StreamEvent>)
    requires i < |files| && !FailsWithin(lim, rules, files, i) && AfterFiles(lim, rules, id, files, i, seen)
    ensures var trace := FileTrace(lim, rules, LinesBefore(lim, files, i), files[i]);
            && trace.failed == FileBreaks(lim, rules, files, i)
            && Matches(lim, id, files, Places(lim, rules, files, i + 1), Items(lim, id, seen + trace.events))
            && (!trace.failed ==> AfterFiles(lim, rules, id, files, i + 1, seen + trace.events))
  {
    hide FileLines, FileFails, Items, LineCount, CurrentFile, FailsWithin, Matches;
    var base, f := LinesBefore(lim, files, i), files[i];
    var trace := FileTrace(lim, rules, base, f);
    if !Present(f) || !rules.resourceId(f.fileId.value) {
      assert seen + trace.events == seen;
    } else {
      var open, lines, places := OpenFile(f.kind, f.fileId.value), FileLines(lim, base, f.source),
          Places(lim, rules, files, i);
      ItemsSnoc(lim, id, seen, open);
      assert places + [] == places;
      OpeningIsNoRecord(lim, open);
      assert InFile(lim, id, files, i, places, 0, seen + [open]);
      LinesPlaced(lim, id, files, i, places, |lines|, seen + [open]);
      assert lines[..|lines|] == lines;
      Associative(seen, [open], lines);
    }
  }

  lemma OpeningIsNoRecord(lim: Limits, open: StreamEvent)
    requires open.OpenFile?
    ensures RecordOf(lim, open).None?
  {
  }

  /** Once a file has failed nothing is added. */
  lemma {:induction false} PlacesStop(lim: Limits, rules: IdentifierRules, files: seq<ProviderFile>, i: nat, n: nat)
    requires i < n <= |files| && FileBreaks(lim, rules, files, i)
    ensures Places(lim, rules, files, n) == Places(lim, rules, files, i + 1)
  {
    hide FileBreaks, RecordLines, FileLines, LinesBefore;
    if n > i + 1 {
      PlacesStop(lim, rules, files, i, n - 1);
      assert FailsWithin(lim, rules, files, n - 1);
    }
  }

  lemma {:induction false} FilesPlaced(lim: Limits, rules: IdentifierRules, id: StreamId, files: seq<ProviderFile>,
                                       i: nat,
                                       seen: seq<StreamEvent>)
    requires i <= |files| && !FailsWithin(lim, rules, files, i) && AfterFiles(lim, rules, id, files, i, seen)
    ensures Matches(lim, id, files, Places(lim, rules, files, |files|),
                    Items(lim, id, seen + TraceFrom(lim, rules, LinesBefore(lim, files, i), files[i..]).events))
    ensures TraceFrom(lim, rules, LinesBefore(lim, files, i), files[i..]).failed <==>
              FailsWithin(lim, rules, files, |files|)
    decreases |files| - i
  {
    hide FileTrace, TraceFrom, Items, FailsWithin, FileBreaks, Matches, Places, LinesBefore, LineCount;
    if i == |files| {
      NothingLeft(lim, rules, files);
      assert seen + [] == seen;
    } else {
      var first := FileTrace(lim, rules, LinesBefore(lim, files, i), files[i]);
      TraceStep(lim, rules, files, i);
      FilePlaced(lim, rules, id, files, i, seen);
      FailsOnceMore(lim, rules, files, i);
      if first.failed {
        PlacesStop(lim, rules, files, i, |files|);
      } else {
        FilesPlaced(lim, rules, id, files, i + 1, seen + first.events);
        Associative(seen, first.events, TraceFrom(lim, rules, LinesBefore(lim, files, i + 1), files[i + 1..]).events);
      }
    }
  }

  lemma NothingLeft(lim: Limits, rules: IdentifierRules, files: seq<ProviderFile>)
    ensures TraceFrom(lim, rules, LinesBefore(lim, files, |files|), files[|files|..]) == Trace([], false)
  {
  }

  /** The first file that fails ends the trace; any other is followed by the rest. */
  lemma TraceStep(lim: Limits, rules: IdentifierRules, files: seq<ProviderFile>, i: nat)
    requires i < |files|
    ensures var first := FileTrace(lim, rules, LinesBefore(lim, files, i), files[i]);
            var rest := TraceFrom(lim, rules, LinesBefore(lim, files, i + 1), files[i + 1..]);
            && first.failed == FileBreaks(lim, rules, files, i)
            && TraceFrom(lim, rules, LinesBefore(lim, files, i), files[i..])
               == if first.failed then first else Trace(first.events + rest.events, rest.failed)
  {
    hide LinesBefore, LineCount, FileLines, FileFails;
    DropCons(files, i);
    if !FileBreaks(lim, rules, files, i) { LinesAfterFile(lim, rules, files, i); }
  }

  lemma FailsOnceMore(lim: Limits, rules: IdentifierRules, files: seq<ProviderFile>, i: nat)
    requires i < |files|
    ensures FailsWithin(lim, rules, files, i + 1)
      <==> FailsWithin(lim, rules, files, i) || FileBreaks(lim, rules, files, i)
    ensures FileBreaks(lim, rules, files, i) ==> FailsWithin(lim, rules, files, |files|)
  {
    hide FileBreaks;
  }

  /** The batch's line count after one more file. */
  lemma LinesAfterFile(lim: Limits, rules: IdentifierRules, files: seq<ProviderFile>, i: nat)
    requires i < |files| && !FileBreaks(lim, rules, files, i)
    ensures var base := LinesBefore(lim, files, i);
            LinesBefore(lim, files, i + 1) == base + LineCount(FileTrace(lim, rules, base, files[i]).events)
  {
    hide FileLines, FileFails;
    var base, f := LinesBefore(lim, files, i), files[i];
    if Present(f) {
      LinesCounted(lim, base, f.source, OpenFile(f.kind, f.fileId.value));
    }
  }

  // ----- what a batch yields -----

  /**
   An accepted request without a checkpoint yields exactly the record lines of the
   batch's files in order, as many as the record limit allows; each comes from its
   own line of its own file, and its checkpoint names that line, counted in the file
   and in the batch. It ends at the limit, at a file that fails, or completely.
   */
  lemma YieldsAreRecordLines(lim: Limits, rules: IdentifierRules, id: StreamId, status: BatchStatus)
    requires rules.resourceId(id.batchId) && rules.alias(id.endpointAlias) && status.isComplete
    requires exists i :: 0 <= i < |status.files| && status.files[i].fileId.Some? && status.files[i].fileId.value != []
    ensures var places := Places(lim, rules, status.files, |status.files|);
            var yielded := RequestRun(lim, rules, id, None, status).yielded;
            && RequestRun(lim, rules, id, None, status).ending
               == (if |places| > lim.maxRecords then Stopped(RecordLimit)
                   else if FailsWithin(lim, rules, status.files, |status.files|) then FileFailed else Complete)
            && |yielded| == (if |places| <= lim.maxRecords then |places| else lim.maxRecords)
            && forall k :: 0 <= k < |yielded| ==> Describes(lim, id, status.files, places[k], k + 1, yielded[k])
  {
    hide Items, Places, Describes, TraceFrom, FailsWithin, RecordCount;
    ItemsCount(lim, id, BatchTrace(lim, rules, status).events);
    var files := status.files;
    var i :| 0 <= i < |files| && files[i].fileId.Some? && files[i].fileId.value != [];
    assert Present(files[i]);
    FilesPlaced(lim, rules, id, files, 0, []) by { NothingRead(lim, rules, id, files); }
    assert files[0..] == files && [] + BatchTrace(lim, rules, status).events == BatchTrace(lim, rules, status).events;
  }

  lemma NothingRead(lim: Limits, rules: IdentifierRules, id: StreamId, files: seq<ProviderFile>)
    ensures !FailsWithin(lim, rules, files, 0) && AfterFiles(lim, rules, id, files, 0, [])
            && LinesBefore(lim, files, 0) == 0
  {
  }

  /** Whatever checkpoint a run resumes from, each record it yields is that of the line its own checkpoint counts to. */
  lemma EveryYieldIsALine(lim: Limits, rules: IdentifierRules, id: StreamId, resume: Option<Checkpoint>,
                          status: BatchStatus, k: nat)
    requires k < |RequestRun(lim, rules, id, resume, status).yielded|
    ensures var places, y := Places(lim, rules, status.files, |status.files|),
            RequestRun(lim, rules, id, resume, status).yielded[k];
            && 0 < y.checkpoint.recordCount <= |places|
            && (resume.Some? ==> y.checkpoint.recordCount == resume.value.recordCount + k + 1)
            && (resume.None? ==> y.checkpoint.recordCount == k + 1)
            && Describes(lim, id, status.files, places[y.checkpoint.recordCount - 1], y.checkpoint.recordCount, y)
  {
    hide Places, RequestRun, FileLines, LinesBefore, TextOf, BytesAt;
    YieldedLater(lim, rules, id, resume, status, k);
    YieldsAreRecordLines(lim, rules, id, status);
  }

  /** A resumed run only yields in place of the uninterrupted one, later records of it. */
  lemma YieldedLater(lim: Limits, rules: IdentifierRules, id: StreamId, resume: Option<Checkpoint>,
                     status: BatchStatus, k: nat)
    requires k < |RequestRun(lim, rules, id, resume, status).yielded|
    ensures rules.resourceId(id.batchId) && rules.alias(id.endpointAlias) && status.isComplete
    ensures exists i :: 0 <= i < |status.files| && status.files[i].fileId.Some? && status.files[i].fileId.value != []
    ensures var all, m := RequestRun(lim, rules, id, None, status).yielded, if resume.None? then k
            else resume.value.recordCount + k;
            m < |all| && RequestRun(lim, rules, id, resume, status).yielded[k] == all[m]
  {
    hide Items, Yields, BatchTrace;
    assert RequestAccepted(rules, id, resume, status);
    var i :| 0 <= i < |status.files| && Present(status.files[i]);
  }
}
