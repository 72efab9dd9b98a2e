/**
 How far any number of workers can take a consumer through one stream: to the end
 of its first file and never past it, because a predecessor of another file is
 declined.
 */
module ResultBoundary {
  import opened Bytes
  import opened Framing
  import opened LineStream
  import opened CheckpointedStream
  import opened CheckpointDecisions
  import TransactionProtocol
  import opened ResultApplication
  import opened ResultDriver
  import opened ResultProgress
  import opened ResultWorkers
  import opened Runs
  import opened Sequences

  const NOTHING: Store := Store(map[], [], map[], [])

  function AllOf(env: Setting, id: StreamId, status: BatchStatus): seq<Item> {
    Yields(env.lim, id, BatchTrace(env.lim, env.rules, status))
  }

  /** The first `n` records are of one file. */
  predicate OneFile(all: seq<Item>, n: nat)
    requires n <= |all|
  {
    forall i :: 0 <= i < n ==> SameFile(all[0].checkpoint, all[i].checkpoint)
  }

  lemma NothingIsExact(env: Setting)
    ensures AllExact(env, NOTHING)
  {
    forall scope, id
      ensures ExactFor(env.lim, scope, id, [], map[], [])
    {
    }
  }

  // ----- never past the first file -----

  /** The records made durable so far are all of the stream's first file. */
  predicate WithinFirstFile(env: Setting, all: seq<Item>, durable: Option<Checkpoint>) {
    CountOf(durable) <= |all| && OneFile(all, CountOf(durable))
  }

  lemma CommitStaysWithin(env: Setting, s: Store, w: Worker, fate: Fate, all: seq<Item>)
    requires WorkerOk(env, s, w) && w.next < |w.items| && OutcomeOf(s, w, fate).Applied?
    requires all == Yields(env.lim, w.id, w.trace)
    requires WithinFirstFile(env, all, Lookup(s.table, RowKey(w.scope, w.id)))
    ensures WithinFirstFile(env, all, Lookup(Committed(s, w).table, RowKey(w.scope, w.id)))
  {
    hide Yields, StreamRun, SaveOutcome;
    var k := NextItem(env, s, w);
    AppliedIsInStep(env, s, w, fate);
    if k > 0 { YieldCount(env.lim, w.id, w.trace, w.scope, k - 1); }
  }

  lemma {:induction false} RunsStayWithinFirstFile(env: Setting, steps: seq<Step>, scope: Scope, id: StreamId,
                                                   trace: Trace)
    requires SameStream(env, steps, trace)
    ensures WithinFirstFile(env, Yields(env.lim, id, trace),
                            Lookup(Execute(env, NOTHING, steps).table, RowKey(scope, id)))
  {
    hide Yields, WithinFirstFile, AllExact, OutcomeOf, BatchTrace, RequestRun;
    var all := Yields(env.lim, id, trace);
    if steps == [] {
      NoneIsWithin(env, all);
    } else {
      var before, step := steps[..|steps| - 1], steps[|steps| - 1];
      RunsStayWithinFirstFile(env, before, scope, id, trace);
      NothingIsExact(env);
      EveryRunKeepsInv(env, NOTHING, before);
      SeenIsAnswered(env, NOTHING, before, trace);
      var s := Execute(env, NOTHING, before);
      if step.ApplyNext? && step.worker in s.workers && s.workers[step.worker].next < |s.workers[step.worker].items| {
        ApplyStaysWithin(env, s, step.worker, step.fate, scope, id, trace);
      }
    }
  }

  lemma NoneIsWithin(env: Setting, all: seq<Item>)
    ensures WithinFirstFile(env, all, None)
  {
  }

  lemma ApplyStaysWithin(env: Setting, s: Store, d: WorkerId, fate: Fate, scope: Scope, id: StreamId, trace: Trace)
    requires Inv(env, s) && d in s.workers && s.workers[d].next < |s.workers[d].items|
    requires forall t :: t in s.seen ==> t == trace
    requires WithinFirstFile(env, Yields(env.lim, id, trace), Lookup(s.table, RowKey(scope, id)))
    ensures WithinFirstFile(env, Yields(env.lim, id, trace),
                            Lookup(AfterApply(s, d, s.workers[d], fate).table, RowKey(scope, id)))
  {
    hide Yields, WithinFirstFile, AllExact, OutcomeOf;
    var w := s.workers[d];
    assert WorkerOk(env, s, w) && w.trace == trace;
    var k := NextItem(env, s, w);
    if OutcomeOf(s, w, fate).Applied? && w.scope == scope && w.id == id {
      CommitStaysWithin(env, s, w, fate, Yields(env.lim, id, trace));
    }
  }

  // ----- as far as the first file goes -----

  /** One worker, started once, that applies its records one after the other. */
  function OneWorker(scope: Scope, id: StreamId, status: BatchStatus, n: nat): seq<Step> {
    if n == 0 then [Start(0, scope, id, status)] else OneWorker(scope, id, status, n - 1) + [ApplyNext(0, Commits)]
  }

  lemma {:induction false} OneWorkerSameStream(env: Setting, scope: Scope, id: StreamId, status: BatchStatus, n: nat)
    ensures SameStream(env, OneWorker(scope, id, status, n), BatchTrace(env.lim, env.rules, status))
  {
    hide BatchTrace;
    if n > 0 {
      OneWorkerSameStream(env, scope, id, status, n - 1);
    }
  }

  /** What that worker has done after `n` records. */
  predicate Standing(env: Setting, scope: Scope, id: StreamId, all: seq<Item>, n: nat, s: Store)
    requires n <= |all|
  {
    var key := RowKey(scope, id);
    && 0 in s.workers
    && s.workers[0].scope == scope && s.workers[0].items == all && s.workers[0].next == n
    && Lookup(s.table, key) == DurableAfter(None, all, n)
    && LogOf(s.effects, key) == Records(all[..n])
  }

  lemma StartStands(env: Setting, scope: Scope, id: StreamId, status: BatchStatus)
    requires RequestAccepted(env.rules, id, None, status)
    ensures Standing(env, scope, id, AllOf(env, id, status), 0, Next(env, NOTHING, Start(0, scope, id, status)))
  {
    hide Yields, BatchTrace;
  }

  lemma ApplyStands(env: Setting, scope: Scope, id: StreamId, status: BatchStatus, n: nat, s: Store)
    requires Served(env.lim, env.rules, id)
    requires var all := AllOf(env, id, status); n < |all| && OneFile(all, |all|) && Standing(env, scope, id, all, n, s)
    ensures Standing(env, scope, id, AllOf(env, id, status), n + 1, Next(env, s, ApplyNext(0, Commits)))
  {
    hide Yields, BatchTrace, LogOf, Records, ApplyOutcome, Served;
    var all, w := AllOf(env, id, status), s.workers[0];
    NextApplication(env.lim, env.rules, id, status, n);
    YieldCount(env.lim, id, BatchTrace(env.lim, env.rules, status), scope, n);
    if n > 0 {
      assert SameFile(all[0].checkpoint, all[n - 1].checkpoint) && SameFile(all[0].checkpoint, all[n].checkpoint);
    }
    RecordsSnoc(all, n);
    LogSnoc(s.effects, TransactionProtocol.Effect(RowKey(scope, id), all[n].checkpoint, all[n].record),
            RowKey(scope, id));
  }

  lemma {:induction false} OneWorkerReaches(env: Setting, scope: Scope, id: StreamId, status: BatchStatus, n: nat)
    requires Served(env.lim, env.rules, id) && RequestAccepted(env.rules, id, None, status)
    requires n <= |AllOf(env, id, status)| && OneFile(AllOf(env, id, status), |AllOf(env, id, status)|)
    ensures Standing(env, scope, id, AllOf(env, id, status), n, Execute(env, NOTHING, OneWorker(scope, id, status, n)))
  {
    hide Standing, Next, AllOf, Served, RequestAccepted, OneFile;
    var steps := OneWorker(scope, id, status, n);
    assert Execute(env, NOTHING, []) == NOTHING;
    if n == 0 {
      assert steps[..0] == [];
      StartStands(env, scope, id, status);
    } else {
      OneWorkerReaches(env, scope, id, status, n - 1);
      SnocInit(OneWorker(scope, id, status, n - 1), ApplyNext(0, Commits));
      ApplyStands(env, scope, id, status, n - 1, Execute(env, NOTHING, OneWorker(scope, id, status, n - 1)));
    }
  }

  // ----- both together -----

  /** Some run of workers, all answered with one stream, commits all of its records. */
  ghost predicate Completable(env: Setting, scope: Scope, id: StreamId, status: BatchStatus) {
    exists steps :: CompletesAll(env, scope, id, status, steps)
  }

  predicate CompletesAll(env: Setting, scope: Scope, id: StreamId, status: BatchStatus, steps: seq<Step>) {
    && SameStream(env, steps, BatchTrace(env.lim, env.rules, status))
    && LogOf(Execute(env, NOTHING, steps).effects, RowKey(scope, id)) == Records(AllOf(env, id, status))
  }

  lemma CompletingIsOneFile(env: Setting, scope: Scope, id: StreamId, status: BatchStatus, steps: seq<Step>)
    requires CompletesAll(env, scope, id, status, steps)
    ensures OneFile(AllOf(env, id, status), |AllOf(env, id, status)|)
  {
    hide Yields, BatchTrace, LogOf, Next, OneFile;
    var trace, all := BatchTrace(env.lim, env.rules, status), AllOf(env, id, status);
    RunsStayWithinFirstFile(env, steps, scope, id, trace);
    NothingIsExact(env);
    OneStreamRunsAreExact(env, NOTHING, steps, trace, scope, id);
    assert |Records(all)| == |all|;
  }

  /**
   A consumer of a stream can commit all of its records, by any run of any number
   of workers, if and only if they are all of one file.
   */
  lemma CompletableIffOneFile(env: Setting, scope: Scope, id: StreamId, status: BatchStatus)
    requires Served(env.lim, env.rules, id) && RequestAccepted(env.rules, id, None, status)
    ensures Completable(env, scope, id, status) <==> OneFile(AllOf(env, id, status), |AllOf(env, id, status)|)
  {
    hide CompletesAll, OneFile, AllOf, Served, RequestAccepted;
    var all := AllOf(env, id, status);
    if OneFile(all, |all|) {
      OneWorkerReaches(env, scope, id, status, |all|);
      OneWorkerSameStream(env, scope, id, status, |all|);
      StandingAtEndCompletes(env, scope, id, status, OneWorker(scope, id, status, |all|));
    }
    if Completable(env, scope, id, status) {
      var steps :| CompletesAll(env, scope, id, status, steps);
      CompletingIsOneFile(env, scope, id, status, steps);
    }
  }

  lemma StandingAtEndCompletes(env: Setting, scope: Scope, id: StreamId, status: BatchStatus, steps: seq<Step>)
    requires SameStream(env, steps, BatchTrace(env.lim, env.rules, status))
    requires Standing(env, scope, id, AllOf(env, id, status), |AllOf(env, id, status)|, Execute(env, NOTHING, steps))
    ensures CompletesAll(env, scope, id, status, steps)
  {
    hide Yields, BatchTrace, LogOf, Execute, Records;
    var all := AllOf(env, id, status);
    assert all[..|all|] == all;
  }

  // ----- a batch with a record in each file -----

  const RESULT_ID: Text := [1]
  const ERROR_ID: Text := [2]
  const LINE: seq<Byte> := [123]
  const ONE_LINE: Source := Source(None, [ByteChunk(LINE)])

  const BOTH_FILES: BatchStatus := BatchStatus(true, [
    ProviderFile(ResultFile, Some(RESULT_ID), ONE_LINE), ProviderFile(ErrorFile, Some(ERROR_ID), ONE_LINE)])

  /** Limits and rules under which a one-byte line is a record and the file ids are acceptable. */
  predicate Roomy(env: Setting) {
    && env.lim.maxDownloadBytes >= 1 && env.lim.maxLineBytes >= 1 && env.lim.maxPhysicalLines >= 2
       && env.lim.maxRecords >= 2
    && env.lim.decode(LINE).Object?
    && env.rules.resourceId(RESULT_ID) && env.rules.resourceId(ERROR_ID)
  }

  lemma OneLineFile(env: Setting, base: nat)
    requires Roomy(env) && base < 2
    ensures FileLines(env.lim, base, ONE_LINE) == [PhysicalLine(1, LINE, false)] && !FileFails(env.lim, base, ONE_LINE)
    ensures RecordOf(env.lim, PhysicalLine(1, LINE, false)).Some?
  {
    hide LinesOf, FirstError, Delivered, Offered;
    LineIsRecord(env, base);
    OneChunk();
    ProperChunksOfferTheBody(env.lim, ONE_LINE.chunks);
    LineAlone();
    OneLine(env.lim, base, 0, RawLine(LINE, false));
  }

  lemma LineIsRecord(env: Setting, base: nat)
    requires Roomy(env) && base < 2
    ensures Verdict(env.lim, base + 1, LINE).None? && RecordOf(env.lim, PhysicalLine(1, LINE, false)).Some?
  {
    assert WithoutCarriageReturn(LINE) == LINE;
  }

  lemma OneChunk()
    ensures Flatten(ONE_LINE.chunks) == LINE
  {
    assert ONE_LINE.chunks[1..] == [];
    assert Flatten(ONE_LINE.chunks) == LINE + Flatten(ONE_LINE.chunks[1..]);
  }

  lemma LineAlone()
    ensures LinesOf(LINE) == [RawLine(LINE, false)]
  {
    NoNewline(LINE);
    assert LinesOf(LINE) == TerminatedLines(LINE) + Tail(LINE);
  }

  const FIRST: StreamEvent := OpenFile(ResultFile, RESULT_ID)
  const SECOND: StreamEvent := OpenFile(ErrorFile, ERROR_ID)
  const RECORD: StreamEvent := PhysicalLine(1, LINE, false)

  lemma BothFilesTrace(env: Setting)
    requires Roomy(env)
    ensures BatchTrace(env.lim, env.rules, BOTH_FILES) == Trace([FIRST, RECORD, SECOND, RECORD], false)
  {
    hide FileLines, FileFails, LineCount;
    var files := BOTH_FILES.files;
    OneLineFile(env, 0);
    OneLineFile(env, 1);
    CountOfFile();
    assert files[1..] == [files[1]] && files[1..][1..] == [];
    assert FileTrace(env.lim, env.rules, 0, files[0]) == Trace([FIRST] + [RECORD], false);
    assert FileTrace(env.lim, env.rules, 1, files[1]) == Trace([SECOND] + [RECORD], false);
    assert TraceFrom(env.lim, env.rules, 1, files[1..]) == Trace([SECOND] + [RECORD] + [], false);
  }

  lemma CountOfFile()
    ensures LineCount([FIRST] + [RECORD]) == 1
  {
    SnocInit([FIRST], RECORD);
    assert [FIRST][..0] == [];
    assert LineCount([FIRST]) == 0;
  }

  lemma BothFilesItems(env: Setting, id: StreamId)
    requires Roomy(env)
    ensures var all := Items(env.lim, id, [FIRST, RECORD, SECOND, RECORD]);
            |all| == 2 && all[0].checkpoint.fileKind == ResultFile && all[1].checkpoint.fileKind == ErrorFile
  {
    hide CheckpointOf, RecordOf, Items;
    OneLineFile(env, 0);
    NoItems(env, id);
    ItemsSnoc(env.lim, id, [], FIRST);
    ItemsSnoc(env.lim, id, [FIRST], RECORD);
    ItemsSnoc(env.lim, id, [FIRST, RECORD], SECOND);
    ItemsSnoc(env.lim, id, [FIRST, RECORD, SECOND], RECORD);
    assert [] + [FIRST] == [FIRST] && [FIRST] + [RECORD] == [FIRST, RECORD];
    assert [FIRST, RECORD] + [SECOND] == [FIRST, RECORD, SECOND];
    assert [FIRST, RECORD, SECOND] + [RECORD] == [FIRST, RECORD, SECOND, RECORD];
    CheckpointFile(env, id, [FIRST, RECORD]);
    CheckpointFile(env, id, [FIRST, RECORD, SECOND, RECORD]);
  }

  lemma NoItems(env: Setting, id: StreamId)
    ensures Items(env.lim, id, []) == [] && RecordOf(env.lim, FIRST).None? && RecordOf(env.lim, SECOND).None?
  {
  }

  lemma CheckpointFile(env: Setting, id: StreamId, es: seq<StreamEvent>)
    ensures CheckpointOf(env.lim, id, es).fileKind == CurrentFile(es).0
  {
  }

  /** With a record in each file no run of workers ever commits both. */
  lemma BothFilesNeverComplete(env: Setting, scope: Scope, id: StreamId)
    requires Served(env.lim, env.rules, id) && Roomy(env)
    ensures |AllOf(env, id, BOTH_FILES)| == 2 && !Completable(env, scope, id, BOTH_FILES)
  {
    hide Items, SameStream, CompletesAll;
    BothFilesTrace(env);
    BothFilesItems(env, id);
    assert Present(BOTH_FILES.files[0]);
    CompletableIffOneFile(env, scope, id, BOTH_FILES);
    var all := AllOf(env, id, BOTH_FILES);
    assert all == Items(env.lim, id, [FIRST, RECORD, SECOND, RECORD]);
    assert !SameFile(all[0].checkpoint, all[1].checkpoint);
  }

  // ----- a worker and its replacement -----

  function StepIn(env: Setting): (Store, Step) -> Store {
    (s, step) => Next(env, s, step)
  }

  lemma {:induction false} ExecuteIsRun(env: Setting, steps: seq<Step>)
    ensures Execute(env, NOTHING, steps) == Run(StepIn(env), NOTHING, steps)
  {
    hide Next;
    if steps != [] {
      ExecuteIsRun(env, steps[..|steps| - 1]);
    }
  }

  /** Both workers hold all records and stand before the first. */
  predicate BothReady(env: Setting, scope: Scope, id: StreamId, status: BatchStatus, s: Store) {
    && s.table == map[] && s.effects == [] && 0 in s.workers && 1 in s.workers
    && s.workers[0].scope == scope && s.workers[0].items == AllOf(env, id, status) && s.workers[0].next == 0
    && s.workers[1].scope == scope && s.workers[1].items == AllOf(env, id, status) && s.workers[1].next == 0
  }

  lemma TwoStart(env: Setting, scope: Scope, id: StreamId, status: BatchStatus)
    requires RequestAccepted(env.rules, id, None, status)
    ensures BothReady(env, scope, id, status,
                      Next(env, Next(env, NOTHING, Start(0, scope, id, status)), Start(1, scope, id, status)))
  {
    hide Yields, BatchTrace;
  }

  lemma FirstApplies(env: Setting, scope: Scope, id: StreamId, status: BatchStatus, s2: Store)
    requires BothReady(env, scope, id, status, s2) && AllOf(env, id, status) != []
    requires var item := AllOf(env, id, status)[0];
             && KeyOf(scope, item.checkpoint) == RowKey(scope, id)
             && ApplyOutcome(None, item, TransactionProtocol.Returns).Applied?
    ensures var s := Next(env, Next(env, s2, ApplyNext(0, Commits)), ApplyNext(1, Commits));
            && |s.effects| == 1 && s.effects[0].record == AllOf(env, id, status)[0].record
            && 0 in s.workers && 1 in s.workers && s.workers[0].next == 1 && s.workers[1].next == 1
  {
    hide AllOf, SaveOutcome;
    var s3 := Next(env, s2, ApplyNext(0, Commits));
    assert OutcomeOf(s2, s2.workers[0], Commits).Applied?;
    assert OutcomeOf(s3, s3.workers[1], Commits).AlreadyThere?;
  }

  /**
   Two workers start on the same stream; one commits the first record, and the
   other, which loaded before that, finds it already applied: both stand after it,
   and its effect is committed once.
   */
  lemma ReplacementReplays(env: Setting, scope: Scope, id: StreamId, status: BatchStatus)
    requires Served(env.lim, env.rules, id) && RequestAccepted(env.rules, id, None, status)
    requires AllOf(env, id, status) != []
    ensures var steps := [Start(0, scope, id, status), Start(1, scope, id, status), ApplyNext(0, Commits),
                          ApplyNext(1, Commits)];
            var s := Execute(env, NOTHING, steps);
            && |s.effects| == 1 && s.effects[0].record == AllOf(env, id, status)[0].record
            && 0 in s.workers && 1 in s.workers && s.workers[0].next == 1 && s.workers[1].next == 1
  {
    hide Yields, BatchTrace, Served, Next, BothReady, ApplyOutcome;
    var all, steps := AllOf(env, id, status),
      [Start(0, scope, id, status), Start(1, scope, id, status), ApplyNext(0, Commits), ApplyNext(1, Commits)];
    NextApplication(env.lim, env.rules, id, status, 0);
    YieldCount(env.lim, id, BatchTrace(env.lim, env.rules, status), scope, 0);
    ExecuteIsRun(env, steps);
    RunFour(StepIn(env), NOTHING, steps);
    var s2 := Next(env, Next(env, NOTHING, steps[0]), steps[1]);
    TwoStart(env, scope, id, status);
    FirstApplies(env, scope, id, status, s2);
  }
}
