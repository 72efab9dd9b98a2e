/**
 Resumable iteration over a batch's result and error files. Every record is
 yielded with a checkpoint that digests the whole physical stream through it; a
 resumed run replays from byte zero and yields nothing until the stored
 checkpoint has been reproduced.
 */
module CheckpointedStream {
  import opened Bytes
  import opened Framing
  import opened LineStream
  import opened Sequences

  const SCHEMA_VERSION := 1

  datatype Checkpoint = Checkpoint(
    schemaVersion: int, batchId: Text, endpointAlias: Text, fileKind: FileKind, fileId: Text,
    fileLineNumber: nat, batchLineCount: nat, recordCount: nat, prefix: Digest)

  datatype Item = Item(batchId: Text, fileKind: FileKind, record: JsonObject, checkpoint: Checkpoint)

  /** Which identifiers the gateway contract accepts. */
  datatype IdentifierRules = IdentifierRules(resourceId: Text -> bool, alias: Text -> bool)

  /** What the checkpoint constructor insists on. */
  predicate ValidCheckpoint(rules: IdentifierRules, c: Checkpoint) {
    && c.schemaVersion == SCHEMA_VERSION
    && rules.resourceId(c.batchId) && rules.alias(c.endpointAlias) && rules.resourceId(c.fileId)
    && c.fileLineNumber > 0 && c.batchLineCount > 0 && c.recordCount > 0
    && c.fileLineNumber <= c.batchLineCount
    && c.recordCount <= c.batchLineCount
  }

  // ----- reading positions off the events seen so far -----

  function RecordOf(lim: Limits, e: StreamEvent): Option<JsonObject> {
    if e.OpenFile? then None
    else match ParseLine(lim, e.bytes)
      case Record(record) => Some(record)
      case _ => None
  }

  function RecordCount(lim: Limits, es: seq<StreamEvent>): nat {
    if es == [] then 0
    else RecordCount(lim, es[..|es| - 1]) + if RecordOf(lim, es[|es| - 1]).Some? then 1 else 0
  }

  function LineCount(es: seq<StreamEvent>): nat {
    if es == [] then 0 else LineCount(es[..|es| - 1]) + if es[|es| - 1].PhysicalLine? then 1 else 0
  }

  /** The file most recently opened. */
  function CurrentFile(es: seq<StreamEvent>): (FileKind, Text) {
    if es == [] then (ResultFile, [])
    else
      var e := es[|es| - 1];
      if e.OpenFile? then (e.kind, e.fileId) else CurrentFile(es[..|es| - 1])
  }

  function LineNumber(e: StreamEvent): nat {
    if e.PhysicalLine? then e.number else 0
  }

  /** The checkpoint of a prefix that ends with a record. */
  function CheckpointOf(lim: Limits, id: StreamId, es: seq<StreamEvent>): Checkpoint {
    var (kind, fileId) := CurrentFile(es);
    var number := if es == [] then 0 else LineNumber(es[|es| - 1]);
    Checkpoint(SCHEMA_VERSION, id.batchId, id.endpointAlias, kind, fileId,
               number, LineCount(es), RecordCount(lim, es), Sha256(Preimage(id, es)))
  }

  /** The item a prefix ending with a record yields. */
  function ItemOf(lim: Limits, id: StreamId, es: seq<StreamEvent>): Item
    requires es != [] && RecordOf(lim, es[|es| - 1]).Some?
  {
    var checkpoint := CheckpointOf(lim, id, es);
    Item(id.batchId, checkpoint.fileKind, RecordOf(lim, es[|es| - 1]).value, checkpoint)
  }

  /** The records of a stream, each with the checkpoint of the prefix through it. */
  function Items(lim: Limits, id: StreamId, es: seq<StreamEvent>): seq<Item> {
    if es == [] then []
    else
      var before := Items(lim, id, es[..|es| - 1]);
      if RecordOf(lim, es[|es| - 1]).None? then before else before + [ItemOf(lim, id, es)]
  }

  lemma {:induction false} ItemsCount(lim: Limits, id: StreamId, es: seq<StreamEvent>)
    ensures |Items(lim, id, es)| == RecordCount(lim, es)
  {
    if es != [] {
      ItemsCount(lim, id, es[..|es| - 1]);
    }
  }

  lemma ItemsSnoc(lim: Limits, id: StreamId, es: seq<StreamEvent>, e: StreamEvent)
    ensures Items(lim, id, es + [e])
            == if RecordOf(lim, e).None? then Items(lim, id, es)
               else Items(lim, id, es) + [ItemOf(lim, id, es + [e])]
    ensures RecordCount(lim, es + [e]) == RecordCount(lim, es) + if RecordOf(lim, e).Some? then 1 else 0
    ensures LineCount(es + [e]) == LineCount(es) + if e.PhysicalLine? then 1 else 0
    ensures CurrentFile(es + [e]) == if e.OpenFile? then (e.kind, e.fileId) else CurrentFile(es)
  {
    SnocInit(es, e);
  }

  /** Reading on never changes the items already read. */
  lemma {:induction false} ItemsGrow(lim: Limits, id: StreamId, a: seq<StreamEvent>, b: seq<StreamEvent>)
    ensures Items(lim, id, a) <= Items(lim, id, a + b)
  {
    if b == [] {
      assert a + b == a;
    } else {
      AppendInit(a, b);
      ItemsGrow(lim, id, a, b[..|b| - 1]);
    }
  }

  /** Equal checkpoints mean the same request and the same physical stream, byte for byte. */
  lemma CheckpointDeterminesPrefix(lim: Limits, lim': Limits, id: StreamId, id': StreamId, es: seq<StreamEvent>,
                                   es': seq<StreamEvent>)
    requires CheckpointOf(lim, id, es) == CheckpointOf(lim', id', es')
    ensures id == id' && es == es'
  {
    PreimageInjective(id, es, id', es');
  }

  /** The prefix that ends with the n-th record. */
  function Through(lim: Limits, es: seq<StreamEvent>, n: nat): (p: seq<StreamEvent>)
    requires 1 <= n <= RecordCount(lim, es)
    ensures p <= es && p != []
  {
    var before := es[..|es| - 1];
    if n <= RecordCount(lim, before) then Through(lim, before, n) else es
  }

  /** The n-th item is determined by the prefix through the n-th record. */
  lemma {:induction false} ItemAt(lim: Limits, id: StreamId, es: seq<StreamEvent>, n: nat)
    requires 1 <= n <= RecordCount(lim, es)
    ensures |Items(lim, id, es)| == RecordCount(lim, es)
    ensures var p := Through(lim, es, n);
            && RecordCount(lim, p) == n
            && RecordOf(lim, p[|p| - 1]).Some?
            && Items(lim, id, es)[n - 1] == ItemOf(lim, id, p)
  {
    ItemsCount(lim, id, es);
    var before := es[..|es| - 1];
    ItemsCount(lim, id, before);
    if n <= RecordCount(lim, before) {
      ItemAt(lim, id, before, n);
    }
  }

  /** Two streams with the same prefix through the n-th record have the same first n items. */
  lemma {:induction false} ItemsThrough(lim: Limits, id: StreamId, es: seq<StreamEvent>, n: nat)
    requires 1 <= n <= RecordCount(lim, es)
    ensures |Items(lim, id, es)| == RecordCount(lim, es)
    ensures Items(lim, id, es)[..n] == Items(lim, id, Through(lim, es, n))
  {
    hide ItemOf, RecordOf;
    ItemsCount(lim, id, es);
    var before := es[..|es| - 1];
    ItemsCount(lim, id, before);
    if n <= RecordCount(lim, before) {
      ItemsThrough(lim, id, before, n);
      assert Items(lim, id, es)[..n] == Items(lim, id, before)[..n];
    } else {
      assert Through(lim, es, n) == es;
    }
  }

  // ----- what a run yields, as a function of the stream -----

  datatype Progress = Waiting | Mismatch | Yielding(items: seq<Item>)

  /** Where a run stands once `items` have been read within the record limit. */
  function ProgressAfter(resume: Option<Checkpoint>, items: seq<Item>): Progress {
    match resume
    case None => Yielding(items)
    case Some(c) =>
      if items == [] || |items| < c.recordCount then Waiting
      else if c.recordCount == 0 || items[c.recordCount - 1].checkpoint != c then Mismatch
      else Yielding(items[c.recordCount..])
  }

  /** Everything the provider files offer, up to the first error. */
  datatype Trace = Trace(events: seq<StreamEvent>, failed: bool) {
    function Then(later: Trace): Trace {
      if failed then this else Trace(events + later.events, later.failed)
    }
  }

  /** How a run ends: cleanly, stopped by the iterator itself, by a file that could not be read, or refused outright. */
  datatype Ending = Complete | Stopped(error: StreamError) | FileFailed | Refused

  datatype StreamResult = StreamResult(yielded: seq<Item>, ending: Ending)

  /** The records an uninterrupted run yields before the record limit stops it. */
  function Yields(lim: Limits, id: StreamId, trace: Trace): (items: seq<Item>) {
    var items := Items(lim, id, trace.events);
    items[..if |items| <= lim.maxRecords then |items| else lim.maxRecords]
  }

  /** How an uninterrupted run ends; the record that breaks the limit stops it before anything later can fail. */
  function EndOf(lim: Limits, trace: Trace): Ending {
    if RecordCount(lim, trace.events) > lim.maxRecords then Stopped(RecordLimit)
    else if trace.failed then FileFailed
    else Complete
  }

  function StreamRun(lim: Limits, id: StreamId, resume: Option<Checkpoint>, trace: Trace): StreamResult {
    match ProgressAfter(resume, Yields(lim, id, trace))
    case Yielding(ys) => StreamResult(ys, EndOf(lim, trace))
    case Mismatch => StreamResult([], Stopped(CheckpointMismatch))
    case Waiting =>
      StreamResult([], if EndOf(lim, trace) == Complete then Stopped(CheckpointNotFound) else EndOf(lim, trace))
  }

  lemma YieldAt(lim: Limits, id: StreamId, trace: Trace, k: nat)
    requires k < |Yields(lim, id, trace)|
    ensures k + 1 <= RecordCount(lim, trace.events)
    ensures var p := Through(lim, trace.events, k + 1);
            && RecordOf(lim, p[|p| - 1]).Some?
            && Yields(lim, id, trace)[k] == ItemOf(lim, id, p)
            && RecordCount(lim, p) == k + 1
  {
    ItemsCount(lim, id, trace.events);
    ItemAt(lim, id, trace.events, k + 1);
  }

  lemma YieldRecordCount(lim: Limits, id: StreamId, trace: Trace, k: nat)
    requires k < |Yields(lim, id, trace)|
    ensures Yields(lim, id, trace)[k].checkpoint.recordCount == k + 1
  {
    hide Items, Yields;
    YieldAt(lim, id, trace, k);
  }

  lemma YieldsThrough(lim: Limits, id: StreamId, trace: Trace, k: nat)
    requires k < |Yields(lim, id, trace)|
    ensures k + 1 <= RecordCount(lim, trace.events)
    ensures Yields(lim, id, trace)[..k + 1] == Items(lim, id, Through(lim, trace.events, k + 1))
  {
    ItemsCount(lim, id, trace.events);
    ItemsThrough(lim, id, trace.events, k + 1);
    TakeTake(Items(lim, id, trace.events), |Yields(lim, id, trace)|, k + 1);
  }

  lemma TakeTake<T>(s: seq<T>, m: nat, n: nat)
    requires n <= m <= |s|
    ensures s[..m][..n] == s[..n]
  {
  }

  /**
   Resuming after the k-th record's checkpoint on an unchanged stream yields
   exactly the later records, with the same checkpoints and the same ending.
   */
  lemma ResumeContinues(lim: Limits, id: StreamId, trace: Trace, k: nat)
    requires k < |Yields(lim, id, trace)|
    ensures StreamRun(lim, id, None, trace) == StreamResult(Yields(lim, id, trace), EndOf(lim, trace))
    ensures StreamRun(lim, id, Some(Yields(lim, id, trace)[k].checkpoint), trace)
            == StreamResult(Yields(lim, id, trace)[k + 1..], EndOf(lim, trace))
  {
    hide Items, Yields, EndOf;
    YieldRecordCount(lim, id, trace, k);
  }

  /** Two streams agree, byte for byte, through their n-th records. */
  predicate SamePrefix(lim: Limits, es: seq<StreamEvent>, es': seq<StreamEvent>, n: nat) {
    1 <= n <= RecordCount(lim, es) && n <= RecordCount(lim, es') && Through(lim, es', n) == Through(lim, es, n)
  }

  lemma SamePrefixYields(lim: Limits, id: StreamId, trace: Trace, k: nat, trace': Trace)
    requires k < |Yields(lim, id, trace)| && SamePrefix(lim, trace.events, trace'.events, k + 1)
    ensures k < |Yields(lim, id, trace')|
    ensures Yields(lim, id, trace')[..k + 1] == Yields(lim, id, trace)[..k + 1]
    ensures Yields(lim, id, trace')[k].checkpoint == Yields(lim, id, trace)[k].checkpoint
  {
    ItemsCount(lim, id, trace.events);
    ItemsCount(lim, id, trace'.events);
    YieldAt(lim, id, trace, k);
    YieldAt(lim, id, trace', k);
    YieldsThrough(lim, id, trace, k);
    YieldsThrough(lim, id, trace', k);
  }

  lemma SameCheckpointSamePrefix(lim: Limits, id: StreamId, trace: Trace, k: nat, trace': Trace)
    requires k < |Yields(lim, id, trace)| && k < |Yields(lim, id, trace')|
    requires Yields(lim, id, trace')[k].checkpoint == Yields(lim, id, trace)[k].checkpoint
    ensures SamePrefix(lim, trace.events, trace'.events, k + 1)
  {
    YieldAt(lim, id, trace, k);
    YieldAt(lim, id, trace', k);
    CheckpointDeterminesPrefix(lim, lim, id, id, Through(lim, trace'.events, k + 1), Through(lim, trace.events, k + 1));
  }

  /**
   A checkpoint taken on one stream, presented on any other: if the prefixes
   through that record agree the run yields exactly the later records of the
   new stream, and otherwise it yields nothing and fails as a mismatch if the new
   stream has that many records, and as not found or by its own failure if not.
   */
  lemma ResumeOnAnyStream(lim: Limits, id: StreamId, trace: Trace, k: nat, trace': Trace)
    requires k < |Yields(lim, id, trace)|
    ensures var r := StreamRun(lim, id, Some(Yields(lim, id, trace)[k].checkpoint), trace');
            if SamePrefix(lim, trace.events, trace'.events, k + 1)
            then k < |Yields(lim, id, trace')|
            && r == StreamResult(Yields(lim, id, trace')[k + 1..], EndOf(lim, trace'))
            else r == StreamResult([], if k < |Yields(lim, id, trace')| then Stopped(CheckpointMismatch)
                                       else if EndOf(lim, trace') == Complete then Stopped(CheckpointNotFound)
                                       else EndOf(lim, trace'))
  {
    hide Items, Yields, SamePrefix, EndOf;
    YieldRecordCount(lim, id, trace, k);
    if SamePrefix(lim, trace.events, trace'.events, k + 1) {
      SamePrefixYields(lim, id, trace, k, trace');
    } else if k < |Yields(lim, id, trace')|
           && Yields(lim, id, trace')[k].checkpoint == Yields(lim, id, trace)[k].checkpoint {
      SameCheckpointSamePrefix(lim, id, trace, k, trace');
    }
  }

  // ----- from provider files to a trace -----

  /** One of the two files a finished batch may expose; an absent or empty id means no file. */
  datatype ProviderFile = ProviderFile(kind: FileKind, fileId: Option<Text>, source: Source)

  predicate Present(f: ProviderFile) {
    f.fileId.Some? && f.fileId.value != []
  }

  /** The events of one file read when the batch already counts `base` lines, and whether it fails. */
  function FileTrace(lim: Limits, rules: IdentifierRules, base: nat, f: ProviderFile): Trace {
    if !Present(f) then Trace([], false)
    else if !rules.resourceId(f.fileId.value) then Trace([], true)
    else Trace([OpenFile(f.kind, f.fileId.value)] + FileLines(lim, base, f.source), FileFails(lim, base, f.source))
  }

  /** Files are read in order and the first failure ends the stream. */
  function TraceFrom(lim: Limits, rules: IdentifierRules, base: nat, files: seq<ProviderFile>): Trace
    decreases |files|
  {
    if files == [] then Trace([], false)
    else
      var first := FileTrace(lim, rules, base, files[0]);
      first.Then(TraceFrom(lim, rules, base + LineCount(first.events), files[1..]))
  }

  // ----- the iterator -----

  /** The iterator's state after the events `seen`: either it waits for the checkpoint or it has passed it. */
  ghost predicate InStep(lim: Limits, id: StreamId, resume: Option<Checkpoint>, seen: seq<StreamEvent>,
                         matched: bool, yielded: seq<Item>, records: nat, lines: nat)
  {
    && records == RecordCount(lim, seen) <= lim.maxRecords
    && lines == LineCount(seen)
    && ProgressAfter(resume, Items(lim, id, seen)) == (if matched then Yielding(yielded) else Waiting)
    && (!matched ==> yielded == [])
  }

  /** Where a run stands does not depend on what follows. */
  lemma ProgressStable(resume: Option<Checkpoint>, items: seq<Item>, all: seq<Item>)
    requires items <= all
    ensures ProgressAfter(resume, items).Mismatch? ==> ProgressAfter(resume, all).Mismatch?
  {
  }

  /** Stopping at the record limit or at a mismatch is what the whole stream calls for. */
  lemma StopsEarly(lim: Limits, id: StreamId, resume: Option<Checkpoint>, seen: seq<StreamEvent>, e: StreamEvent,
                   rest: seq<StreamEvent>, failed: bool, matched: bool, yielded: seq<Item>)
    requires InStep(lim, id, resume, seen, matched, yielded, RecordCount(lim, seen), LineCount(seen))
    requires RecordOf(lim, e).Some?
    ensures RecordCount(lim, seen) == lim.maxRecords ==>
              StreamRun(lim, id, resume, Trace(seen + [e] + rest, failed))
              == StreamResult(yielded, Stopped(RecordLimit))
    ensures RecordCount(lim, seen) < lim.maxRecords && ProgressAfter(resume, Items(lim, id, seen + [e])).Mismatch? ==>
              StreamRun(lim, id, resume, Trace(seen + [e] + rest, failed))
              == StreamResult([], Stopped(CheckpointMismatch))
  {
    hide Items, RecordCount, LineCount, RecordOf, StreamRun, InStep;
    if RecordCount(lim, seen) == lim.maxRecords {
      StopsAtLimit(lim, id, resume, seen, e, rest, failed, matched, yielded);
    } else if RecordCount(lim, seen) < lim.maxRecords {
      StopsAtMismatch(lim, id, resume, seen, e, rest, failed);
    }
  }

  /** What one more record and anything after it do to the items. */
  lemma ItemsBeyond(lim: Limits, id: StreamId, seen: seq<StreamEvent>, e: StreamEvent, rest: seq<StreamEvent>)
    requires RecordOf(lim, e).Some?
    ensures var n, all := RecordCount(lim, seen), Items(lim, id, seen + [e] + rest);
            && |all| == RecordCount(lim, seen + [e] + rest) > n
            && all[..n] == Items(lim, id, seen) && all[..n + 1] == Items(lim, id, seen + [e])
  {
    hide Items, RecordCount;
    ItemsGrow(lim, id, seen + [e], rest);
    ItemsSnoc(lim, id, seen, e);
    ItemsCount(lim, id, seen);
    ItemsCount(lim, id, seen + [e]);
    ItemsCount(lim, id, seen + [e] + rest);
  }

  lemma StopsAtLimit(lim: Limits, id: StreamId, resume: Option<Checkpoint>, seen: seq<StreamEvent>, e: StreamEvent,
                     rest: seq<StreamEvent>, failed: bool, matched: bool, yielded: seq<Item>)
    requires InStep(lim, id, resume, seen, matched, yielded, RecordCount(lim, seen), LineCount(seen))
    requires RecordOf(lim, e).Some? && RecordCount(lim, seen) == lim.maxRecords
    ensures StreamRun(lim, id, resume, Trace(seen + [e] + rest, failed)) == StreamResult(yielded, Stopped(RecordLimit))
  {
    hide Items, RecordCount, LineCount, RecordOf;
    ItemsBeyond(lim, id, seen, e, rest);
  }

  lemma StopsAtMismatch(lim: Limits, id: StreamId, resume: Option<Checkpoint>, seen: seq<StreamEvent>, e: StreamEvent,
                        rest: seq<StreamEvent>, failed: bool)
    requires RecordOf(lim, e).Some? && RecordCount(lim, seen) < lim.maxRecords
    ensures ProgressAfter(resume, Items(lim, id, seen + [e])).Mismatch? ==>
              StreamRun(lim, id, resume, Trace(seen + [e] + rest, failed))
              == StreamResult([], Stopped(CheckpointMismatch))
  {
    hide Items, RecordCount, LineCount, RecordOf, ProgressAfter;
    ItemsBeyond(lim, id, seen, e, rest);
    var n, all := RecordCount(lim, seen), Items(lim, id, seen + [e] + rest);
    var within := Yields(lim, id, Trace(seen + [e] + rest, failed));
    assert all[..n + 1] <= within;
    ProgressStable(resume, Items(lim, id, seen + [e]), within);
  }

  lemma RunsOut(lim: Limits, id: StreamId, resume: Option<Checkpoint>, seen: seq<StreamEvent>, failed: bool,
                matched: bool, yielded: seq<Item>)
    requires InStep(lim, id, resume, seen, matched, yielded, RecordCount(lim, seen), LineCount(seen))
    ensures StreamRun(lim, id, resume, Trace(seen, failed)) 
            == StreamResult(yielded, if failed then FileFailed else if matched then Complete
                            else Stopped(CheckpointNotFound))
  {
    ItemsCount(lim, id, seen);
    var items := Items(lim, id, seen);
    assert items[..|items|] == items;
  }

  /** Whatever follows `events`, the run comes to `r`. */
  ghost predicate Decided(lim: Limits, id: StreamId, resume: Option<Checkpoint>, events: seq<StreamEvent>,
                          r: StreamResult) {
    forall rest, failed :: StreamRun(lim, id, resume, Trace(events + rest, failed)) == r
  }

  lemma DecidedEarly(lim: Limits, id: StreamId, resume: Option<Checkpoint>, seen: seq<StreamEvent>, e: StreamEvent,
                     matched: bool, yielded: seq<Item>)
    requires InStep(lim, id, resume, seen, matched, yielded, RecordCount(lim, seen), LineCount(seen))
    requires RecordOf(lim, e).Some?
    ensures RecordCount(lim, seen) == lim.maxRecords ==>
              Decided(lim, id, resume, seen + [e], StreamResult(yielded, Stopped(RecordLimit)))
    ensures RecordCount(lim, seen) < lim.maxRecords && ProgressAfter(resume, Items(lim, id, seen + [e])).Mismatch? ==>
              Decided(lim, id, resume, seen + [e], StreamResult([], Stopped(CheckpointMismatch)))
  {
    forall rest, failed {
      StopsEarly(lim, id, resume, seen, e, rest, failed, matched, yielded);
    }
  }

  lemma DecidedFurther(lim: Limits, id: StreamId, resume: Option<Checkpoint>, events: seq<StreamEvent>,
                       more: seq<StreamEvent>, r: StreamResult)
    requires Decided(lim, id, resume, events, r)
    ensures Decided(lim, id, resume, events + more, r)
  {
    forall rest, failed
      ensures StreamRun(lim, id, resume, Trace(events + more + rest, failed)) == r
    {
      Associative(events, more, rest);
    }
  }

  /** One physical line: digest it, and if it holds a record, count, check and either skip or yield it. */
  method ConsumeLine(lim: Limits, id: StreamId, resume: Option<Checkpoint>, hasher: Hasher,
                     ghost seen: seq<StreamEvent>,
                     file: (FileKind, Text), e: StreamEvent, matched: bool, yielded: seq<Item>, records: nat,
                     lines: nat)
    returns (matched': bool, yielded': seq<Item>, records': nat, lines': nat, error: Option<StreamError>)
    requires e.PhysicalLine? && file == CurrentFile(seen)
    requires hasher.absorbed == Preimage(id, seen)
    requires InStep(lim, id, resume, seen, matched, yielded, records, lines)
    modifies hasher
    ensures hasher.absorbed == Preimage(id, seen + [e]) && CurrentFile(seen + [e]) == file
    ensures yielded' != yielded ==>
              && |yielded'| == |yielded| + 1 && yielded'[..|yielded|] == yielded
              && RecordOf(lim, e) == Some(yielded'[|yielded|].record)
              && yielded'[|yielded|].batchId == id.batchId && yielded'[|yielded|].fileKind == file.0
              && yielded'[|yielded|].checkpoint
                 == Checkpoint(1, id.batchId, id.endpointAlias, file.0, file.1, e.number, lines + 1, records + 1,
                               Sha256(Preimage(id, seen + [e])))
    ensures error.None? ==> InStep(lim, id, resume, seen + [e], matched', yielded', records', lines')
    ensures error.Some? ==> Decided(lim, id, resume, seen + [e], StreamResult(yielded', Stopped(error.value)))
  {
    hide Preimage, RecordCount, LineCount, CurrentFile, Items, RecordOf, StreamRun;
    hasher.AddEvent(id, seen, e);
    ItemsSnoc(lim, id, seen, e);
    ItemsCount(lim, id, seen);
    matched', yielded', records', lines', error := matched, yielded, records, lines + 1, None;
    var record := RecordOf(lim, e);
    if record.None? {
      return;
    }
    DecidedEarly(lim, id, resume, seen, e, matched, yielded);
    records' := records + 1;
    if records' > lim.maxRecords {
      error := Some(RecordLimit);
      return;
    }
    var digest := hasher.Digest();
    var current := Checkpoint(SCHEMA_VERSION, id.batchId, id.endpointAlias, file.0, file.1, e.number, lines',
                              records', digest);
    assert current == CheckpointOf(lim, id, seen + [e]);
    if !matched {
      if records' < resume.value.recordCount {
        return;
      }
      if current != resume.value {
        error := Some(CheckpointMismatch);
        return;
      }
      matched' := true;
      return;
    }
    yielded' := yielded + [Item(id.batchId, file.0, record.value, current)];
  }

  /** All lines of one file. */
  method ConsumeFile(lim: Limits, id: StreamId, resume: Option<Checkpoint>, hasher: Hasher,
                     ghost seen: seq<StreamEvent>,
                     file: (FileKind, Text), events: seq<StreamEvent>, matched: bool, yielded: seq<Item>,
                     records: nat, lines: nat)
    returns (matched': bool, yielded': seq<Item>, records': nat, lines': nat, error: Option<StreamError>)
    requires forall i :: 0 <= i < |events| ==> events[i].PhysicalLine?
    requires file == CurrentFile(seen)
    requires hasher.absorbed == Preimage(id, seen)
    requires InStep(lim, id, resume, seen, matched, yielded, records, lines)
    modifies hasher
    ensures error.None? ==> hasher.absorbed == Preimage(id, seen + events)
    ensures error.None? ==> InStep(lim, id, resume, seen + events, matched', yielded', records', lines')
    ensures error.Some? ==> Decided(lim, id, resume, seen + events, StreamResult(yielded', Stopped(error.value)))
  {
    matched', yielded', records', lines', error := matched, yielded, records, lines, None;
    ghost var now := seen;
    AppendTakeAll(seen, events);
    var i := 0;
    while i < |events|
      invariant 0 <= i <= |events| && error.None?
      invariant now == seen + events[..i]
      invariant CurrentFile(now) == file
      invariant hasher.absorbed == Preimage(id, now)
      invariant InStep(lim, id, resume, now, matched', yielded', records', lines')
    {
      matched', yielded', records', lines', error :=
        ConsumeLine(lim, id, resume, hasher, now, file, events[i], matched', yielded', records', lines');
      now := now + [events[i]];
      AppendTakeSnoc(seen, events, i);
      if error.Some? {
        DecidedFurther(lim, id, resume, now, events[i + 1..], StreamResult(yielded', Stopped(error.value)));
        return;
      }
      i := i + 1;
    }
  }

  /** The batch status that precedes file access. */
  datatype BatchStatus = BatchStatus(isComplete: bool, files: seq<ProviderFile>)

  predicate RequestAccepted(rules: IdentifierRules, id: StreamId, resume: Option<Checkpoint>, status: BatchStatus) {
    && rules.resourceId(id.batchId) && rules.alias(id.endpointAlias)
    && (resume.Some? ==> resume.value.batchId == id.batchId && resume.value.endpointAlias == id.endpointAlias)
    && status.isComplete
    && exists i :: 0 <= i < |status.files| && Present(status.files[i])
  }

  function BatchTrace(lim: Limits, rules: IdentifierRules, status: BatchStatus): Trace {
    TraceFrom(lim, rules, 0, status.files)
  }

  /** What one request for a batch's records yields. */
  function RequestRun(lim: Limits, rules: IdentifierRules, id: StreamId, resume: Option<Checkpoint>,
                      status: BatchStatus): StreamResult {
    if RequestAccepted(rules, id, resume, status) then StreamRun(lim, id, resume, BatchTrace(lim, rules, status))
    else StreamResult([], Refused)
  }

  method AnyPresent(files: seq<ProviderFile>) returns (any: bool)
    ensures any <==> exists i :: 0 <= i < |files| && Present(files[i])
  {
    any := false;
    for i := 0 to |files|
      invariant any <==> exists j :: 0 <= j < i && Present(files[j])
    {
      any := any || Present(files[i]);
    }
  }

  lemma {:induction false} LinesCounted(lim: Limits, base: nat, src: Source, file: StreamEvent)
    requires file.OpenFile?
    ensures forall i :: 0 <= i < |FileLines(lim, base, src)| ==> FileLines(lim, base, src)[i].PhysicalLine?
    ensures LineCount([file] + FileLines(lim, base, src)) == |FileLines(lim, base, src)|
  {
    var ls := FileLines(lim, base, src);
    if !Announced(lim, src) {
      DeliveredMeans(lim, base, 0, Offered(lim, src.chunks));
    }
    CountLines(file, ls);
  }

  lemma {:induction false} CountLines(file: StreamEvent, ls: seq<StreamEvent>)
    requires file.OpenFile? && forall i :: 0 <= i < |ls| ==> ls[i].PhysicalLine?
    ensures LineCount([file] + ls) == |ls|
  {
    if ls == [] {
      assert [file] + ls == [file] && [file][..0] == [];
    } else {
      AppendInit([file], ls);
      CountLines(file, ls[..|ls| - 1]);
    }
  }

  /** What is left of the stream once the events `seen` of the first files are in. */
  ghost predicate Remaining(lim: Limits, rules: IdentifierRules, whole: Trace, seen: seq<StreamEvent>, base: nat,
                            files: seq<ProviderFile>) {
    whole == Trace(seen, false).Then(TraceFrom(lim, rules, base, files))
  }

  lemma ThenAssociative(a: Trace, b: Trace, c: Trace)
    ensures a.Then(b.Then(c)) == a.Then(b).Then(c)
  {
    Associative(a.events, b.events, c.events);
  }

  lemma RemainingStep(lim: Limits, rules: IdentifierRules, whole: Trace, seen: seq<StreamEvent>, base: nat,
                      files: seq<ProviderFile>)
    requires files != [] && Remaining(lim, rules, whole, seen, base, files)
    ensures var first := FileTrace(lim, rules, base, files[0]);
            if first.failed then whole == Trace(seen + first.events, true)
            else Remaining(lim, rules, whole, seen + first.events, base + LineCount(first.events), files[1..])
  {
    hide FileTrace, LineCount;
    var first := FileTrace(lim, rules, base, files[0]);
    ThenAssociative(Trace(seen, false), first, TraceFrom(lim, rules, base + LineCount(first.events), files[1..]));
  }

  lemma NothingRemains(lim: Limits, rules: IdentifierRules, whole: Trace, seen: seq<StreamEvent>, base: nat,
                       files: seq<ProviderFile>)
    requires files == [] && Remaining(lim, rules, whole, seen, base, files)
    ensures whole == Trace(seen, false)
  {
  }

  lemma DecidedByFile(lim: Limits, rules: IdentifierRules, id: StreamId, resume: Option<Checkpoint>, whole: Trace,
                      seen: seq<StreamEvent>, base: nat, files: seq<ProviderFile>, r: StreamResult)
    requires files != [] && Remaining(lim, rules, whole, seen, base, files)
    requires Decided(lim, id, resume, seen + FileTrace(lim, rules, base, files[0]).events, r)
    ensures StreamRun(lim, id, resume, whole) == r
  {
    hide FileTrace, LineCount, StreamRun;
    var first := FileTrace(lim, rules, base, files[0]);
    var later := TraceFrom(lim, rules, base + LineCount(first.events), files[1..]);
    RemainingStep(lim, rules, whole, seen, base, files);
    var rest := if first.failed then Trace([], true) else later;
    assert (seen + first.events) + [] == seen + first.events;
    assert whole == Trace(seen + first.events + rest.events, rest.failed);
  }

  /** Opens and reads one present file with a valid id, and runs its lines through the digest. */
  method ReadFile(lim: Limits, rules: IdentifierRules, id: StreamId, resume: Option<Checkpoint>, hasher: Hasher,
                  budget: PhysicalLineBudget,
                  ghost seen: seq<StreamEvent>, f: ProviderFile, matched: bool, yielded: seq<Item>, records: nat,
                  lines: nat)
    returns (matched': bool, yielded': seq<Item>, records': nat, lines': nat, error: Option<StreamError>, failed: bool)
    requires Present(f) && rules.resourceId(f.fileId.value)
    requires budget.limit == lim.maxPhysicalLines && budget.observed == lines
    requires hasher.absorbed == Preimage(id, seen)
    requires InStep(lim, id, resume, seen, matched, yielded, records, lines)
    modifies hasher, budget
    ensures var events := FileTrace(lim, rules, lines, f).events;
            && (error.None? ==> InStep(lim, id, resume, seen + events, matched', yielded', records', lines'))
            && (error.None? ==> hasher.absorbed == Preimage(id, seen + events))
            && (error.Some? ==> Decided(lim, id, resume, seen + events, StreamResult(yielded', Stopped(error.value))))
    ensures failed <==> FileTrace(lim, rules, lines, f).failed
    ensures error.None? && !failed ==>
              budget.observed == lines' == lines + LineCount(FileTrace(lim, rules, lines, f).events)
  {
    hide FileLines, FileFails, LineCount, RecordCount, Preimage, StreamRun, CurrentFile, InStep, Decided, Items,
         ErrorOf;
    var open := OpenFile(f.kind, f.fileId.value);
    hasher.AddEvent(id, seen, open);
    OpeningKeepsStep(lim, id, resume, seen, f.kind, f.fileId.value, matched, yielded, records, lines);
    ghost var now := seen + [open];
    var events, fileError;
    ghost var peak;
    events, fileError, peak := ReadLines(lim, f.source, budget);
    failed := fileError.Some?;
    LinesCounted(lim, lines, f.source, open);
    matched', yielded', records', lines', error :=
      ConsumeFile(lim, id, resume, hasher, now, (f.kind, f.fileId.value), events, matched, yielded, records, lines);
    Associative(seen, [open], events);
    if error.None? {
      CountsAfterFile(lim, id, resume, seen, open, events, matched', yielded', records', lines');
    }
  }

  /** Opening a file makes it the current one and changes nothing else. */
  lemma OpeningKeepsStep(lim: Limits, id: StreamId, resume: Option<Checkpoint>, seen: seq<StreamEvent>,
                         kind: FileKind, fileId: Text,
                         matched: bool, yielded: seq<Item>, records: nat, lines: nat)
    requires InStep(lim, id, resume, seen, matched, yielded, records, lines)
    ensures var now := seen + [OpenFile(kind, fileId)];
            InStep(lim, id, resume, now, matched, yielded, records, lines) && CurrentFile(now) == (kind, fileId)
    ensures lines == LineCount(seen)
  {
    ItemsSnoc(lim, id, seen, OpenFile(kind, fileId));
  }

  lemma CountsAfterFile(lim: Limits, id: StreamId, resume: Option<Checkpoint>, seen: seq<StreamEvent>,
                        open: StreamEvent,
                        events: seq<StreamEvent>, matched: bool, yielded: seq<Item>, records: nat, lines: nat)
    requires open.OpenFile? && (forall i :: 0 <= i < |events| ==> events[i].PhysicalLine?)
    requires InStep(lim, id, resume, seen + [open] + events, matched, yielded, records, lines)
    ensures lines == LineCount(seen) + |events|
  {
    LineCountAppend(seen + [open], events);
    ItemsSnoc(lim, id, seen, open);
  }

  lemma {:induction false} LineCountAppend(a: seq<StreamEvent>, b: seq<StreamEvent>)
    requires forall i :: 0 <= i < |b| ==> b[i].PhysicalLine?
    ensures LineCount(a + b) == LineCount(a) + |b|
  {
    if b == [] {
      assert a + b == a;
    } else {
      AppendInit(a, b);
      LineCountAppend(a, b[..|b| - 1]);
    }
  }

  lemma StartsInStep(lim: Limits, id: StreamId, resume: Option<Checkpoint>)
    ensures InStep(lim, id, resume, [], resume.None?, [], 0, 0)
  {
  }

  /** An absent file contributes nothing, and an invalid file id ends the stream before the file is opened. */
  lemma UnreadFile(lim: Limits, rules: IdentifierRules, base: nat, f: ProviderFile)
    ensures !Present(f) ==> FileTrace(lim, rules, base, f) == Trace([], false) && LineCount([]) == 0
    ensures Present(f) && !rules.resourceId(f.fileId.value) ==> FileTrace(lim, rules, base, f) == Trace([], true)
  {
  }

  /** The loop over the batch's files. */
  method ReadFiles(lim: Limits, rules: IdentifierRules, id: StreamId, resume: Option<Checkpoint>,
                   files: seq<ProviderFile>)
    returns (yielded: seq<Item>, ending: Ending)
    ensures StreamResult(yielded, ending) == StreamRun(lim, id, resume, TraceFrom(lim, rules, 0, files))
  {
    hide FileTrace, LineCount, RecordCount, Preimage, StreamRun, CurrentFile;
    yielded, ending := [], FileFailed;
    var hasher := new Hasher.ForStream(id);
    var budget := new PhysicalLineBudget(lim.maxPhysicalLines);
    var matched, records, lines, i := resume.None?, 0, 0, 0;
    ghost var seen: seq<StreamEvent>, whole := [], TraceFrom(lim, rules, 0, files);
    StartsInStep(lim, id, resume);
    assert [] + whole.events == whole.events;
    while i < |files|
      invariant 0 <= i <= |files|
      invariant budget.limit == lim.maxPhysicalLines && budget.observed == lines
      invariant hasher.absorbed == Preimage(id, seen)
      invariant InStep(lim, id, resume, seen, matched, yielded, records, lines)
      invariant Remaining(lim, rules, whole, seen, lines, files[i..])
    {
      var f := files[i];
      DropCons(files, i);
      RemainingStep(lim, rules, whole, seen, lines, files[i..]);
      UnreadFile(lim, rules, lines, f);
      assert seen + [] == seen;
      i := i + 1;
      if Present(f) {
        if !rules.resourceId(f.fileId.value) {
          RunsOut(lim, id, resume, seen, true, matched, yielded);
          return;
        }
        ghost var events, base := FileTrace(lim, rules, lines, f).events, lines;
        var error, failed;
        matched, yielded, records, lines, error, failed :=
          ReadFile(lim, rules, id, resume, hasher, budget, seen, f, matched, yielded, records, lines);
        if error.Some? {
          ending := Stopped(error.value);
          DecidedByFile(lim, rules, id, resume, whole, seen, base, files[i - 1..],
                        StreamResult(yielded, Stopped(error.value)));
          return;
        }
        seen := seen + events;
        if failed {
          RunsOut(lim, id, resume, seen, true, matched, yielded);
          return;
        }
      }
    }
    NothingRemains(lim, rules, whole, seen, lines, files[i..]);
    RunsOut(lim, id, resume, seen, false, matched, yielded);
    ending := if matched then Complete else Stopped(CheckpointNotFound);
  }

  lemma StreamIsNotRefused(lim: Limits, id: StreamId, resume: Option<Checkpoint>, trace: Trace)
    ensures !StreamRun(lim, id, resume, trace).ending.Refused?
  {
    hide Yields;
  }

  /**
   Yields the batch's records with exact prefix checkpoints. The result is that
   of the provider's bytes alone, whatever the chunks they came in.
   */
  method IterateCheckpointed(lim: Limits, rules: IdentifierRules, id: StreamId, resume: Option<Checkpoint>,
                             status: BatchStatus)
    returns (yielded: seq<Item>, ending: Ending)
    ensures StreamResult(yielded, ending) == RequestRun(lim, rules, id, resume, status)
    ensures ending.Refused? <==>
              || !rules.resourceId(id.batchId) || !rules.alias(id.endpointAlias)
              || (resume.Some? && (resume.value.batchId != id.batchId
                                   || resume.value.endpointAlias != id.endpointAlias))
              || !status.isComplete
              || forall i :: 0 <= i < |status.files| ==>
                   status.files[i].fileId.None? || status.files[i].fileId.value == []
    ensures ending.Refused? ==> yielded == []
  {
    hide StreamRun, TraceFrom;
    yielded, ending := [], Refused;
    var any := AnyPresent(status.files);
    if !(rules.resourceId(id.batchId) && rules.alias(id.endpointAlias)) {
      return;
    }
    if resume.Some? && !(resume.value.batchId == id.batchId && resume.value.endpointAlias == id.endpointAlias) {
      return;
    }
    if !status.isComplete || !any {
      return;
    }
    yielded, ending := ReadFiles(lim, rules, id, resume, status.files);
    StreamIsNotRefused(lim, id, resume, TraceFrom(lim, rules, 0, status.files));
  }
}
