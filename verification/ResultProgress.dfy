/**
 Progress of the consumer: a pass without failures applies every record up to
 the first one that comes from another file than its predecessor.
 */
module ResultProgress {
  import opened Bytes
  import opened Framing
  import opened LineStream
  import opened CheckpointedStream
  import opened CheckpointOrder
  import opened CheckpointDecisions
  import opened TransactionProtocol
  import opened ResultApplication
  import opened ResultDriver
  import opened Sequences

  predicate SameFile(a: Checkpoint, b: Checkpoint) {
    a.fileKind == b.fileKind && a.fileId == b.fileId
  }

  /** How many leading records stay in the file of their predecessor. */
  function FileRun(previous: Option<Checkpoint>, ys: seq<Item>): (n: nat)
    ensures n <= |ys|
    decreases |ys|
  {
    if ys == [] || (previous.Some? && !SameFile(previous.value, ys[0].checkpoint)) then 0
    else 1 + FileRun(Some(ys[0].checkpoint), ys[1..])
  }

  predicate Served(lim: Limits, rules: IdentifierRules, id: StreamId) {
    rules.resourceId(id.batchId) && rules.alias(id.endpointAlias) && lim.maxPhysicalLines <= POSTGRES_BIGINT_MAX
  }

  /** One yielded record is well formed, whatever its position. */
  lemma YieldIsSavable(lim: Limits, rules: IdentifierRules, id: StreamId, status: BatchStatus, k: nat)
    requires Served(lim, rules, id) && k < |Yields(lim, id, BatchTrace(lim, rules, status))|
    ensures var item := Yields(lim, id, BatchTrace(lim, rules, status))[k];
            && item.batchId == item.checkpoint.batchId == id.batchId
               && item.checkpoint.endpointAlias == id.endpointAlias
            && item.fileKind == item.checkpoint.fileKind
            && FitsBigint(item.checkpoint)
  {
    var trace := BatchTrace(lim, rules, status);
    YieldAt(lim, id, trace, k);
    TraceIsWellFormed(lim, rules, [], status.files);
    assert [] + trace.events == trace.events;
    ItemsAreValid(lim, rules, id, trace.events);
    ItemsIncrease(lim, id, trace.events);
    var item := Yields(lim, id, trace)[k];
    assert item in Items(lim, id, trace.events);
    assert item.checkpoint.batchLineCount <= LineCount(trace.events);
  }

  lemma YieldsAdvance(lim: Limits, rules: IdentifierRules, id: StreamId, status: BatchStatus, k: nat)
    requires 0 < k < |Yields(lim, id, BatchTrace(lim, rules, status))|
    ensures var ys := Yields(lim, id, BatchTrace(lim, rules, status));
            && ys[k - 1].checkpoint.recordCount < ys[k].checkpoint.recordCount
            && ys[k - 1].checkpoint.batchLineCount < ys[k].checkpoint.batchLineCount
  {
    ItemsIncrease(lim, id, BatchTrace(lim, rules, status).events);
  }

  /**
   In stream order neither regression guard ever fires: a record is applied, or it opens
   another file and is declined.
   */
  lemma NextApplication(lim: Limits, rules: IdentifierRules, id: StreamId, status: BatchStatus, m: nat)
    requires Served(lim, rules, id) && m < |Yields(lim, id, BatchTrace(lim, rules, status))|
    ensures var ys := Yields(lim, id, BatchTrace(lim, rules, status));
            ApplyOutcome(DurableAfter(None, ys, m), ys[m], Returns)
            == if m == 0 || SameFile(ys[m - 1].checkpoint, ys[m].checkpoint) then Applied
               else Declined(ForeignPredecessor)
  {
    hide Yields, FitsBigint;
    YieldIsSavable(lim, rules, id, status, m);
    if m > 0 {
      YieldIsSavable(lim, rules, id, status, m - 1);
      YieldsAdvance(lim, rules, id, status, m);
    }
  }

  /** Whatever happens to its records, no pass gets past the file it started in. */
  lemma {:induction false} NoPassGoesFurther(previous: Option<Checkpoint>, ys: seq<Item>, fates: seq<Fate>)
    ensures Reach(previous, ys, fates) <= FileRun(previous, ys)
    decreases |ys|
  {
    hide SaveOutcome;
    if ys != [] && fates != [] && ApplyOutcome(previous, ys[0], Plan(fates[0])).Applied? {
      NoPassGoesFurther(Some(ys[0].checkpoint), ys[1..], fates[1..]);
    }
  }

  /** A pass in which nothing fails, started after the first `m` records, applies the rest of the current file. */
  lemma {:induction false} FaultFreePassReaches(lim: Limits, rules: IdentifierRules, id: StreamId,
                                                status: BatchStatus, m: nat, fates: seq<Fate>)
    requires Served(lim, rules, id) && m <= |Yields(lim, id, BatchTrace(lim, rules, status))|
    requires |fates| >= |Yields(lim, id, BatchTrace(lim, rules, status))| - m
    requires forall i :: 0 <= i < |fates| ==> fates[i].Commits?
    ensures var ys := Yields(lim, id, BatchTrace(lim, rules, status));
            Reach(DurableAfter(None, ys, m), ys[m..], fates) == FileRun(DurableAfter(None, ys, m), ys[m..])
    decreases |Yields(lim, id, BatchTrace(lim, rules, status))| - m
  {
    hide Yields, ApplyOutcome;
    var ys := Yields(lim, id, BatchTrace(lim, rules, status));
    if m < |ys| {
      DropCons(ys, m);
      NextApplication(lim, rules, id, status, m);
      FaultFreePassReaches(lim, rules, id, status, m + 1, fates[1..]);
    }
  }

  /** Within one file nothing is left behind. */
  lemma {:induction false} OneFileRunsToTheEnd(previous: Option<Checkpoint>, ys: seq<Item>)
    requires forall i :: 0 <= i < |ys| && previous.Some? ==> SameFile(previous.value, ys[i].checkpoint)
    requires forall i, j :: 0 <= i < j < |ys| ==> SameFile(ys[i].checkpoint, ys[j].checkpoint)
    ensures FileRun(previous, ys) == |ys|
    decreases |ys|
  {
    if ys != [] {
      forall i | 0 <= i < |ys| - 1
        ensures SameFile(ys[0].checkpoint, ys[1..][i].checkpoint)
      {
        assert ys[1..][i] == ys[i + 1];
      }
      OneFileRunsToTheEnd(Some(ys[0].checkpoint), ys[1..]);
    }
  }

  /** On its stream, a consumer resumes with exactly the records after its durable checkpoint. */
  lemma ResumesWhereItStands(lim: Limits, rules: IdentifierRules, id: StreamId, status: BatchStatus,
                             durable: Option<Checkpoint>, log: seq<JsonObject>) returns (m: nat)
    requires RequestAccepted(rules, id, None, status)
    requires OnStream(lim, id, BatchTrace(lim, rules, status), durable, log)
    ensures var all := Yields(lim, id, BatchTrace(lim, rules, status));
            && m <= |all| && durable == DurableAfter(None, all, m) && log == Records(all[..m])
            && RequestRun(lim, rules, id, durable, status).yielded == all[m..]
  {
    hide Yields, BatchTrace, Records;
    var trace := BatchTrace(lim, rules, status);
    NoRecords(Yields(lim, id, trace));
    m := if durable.None? then 0 else durable.value.recordCount;
    if durable.Some? {
      YieldsAreOfStream(lim, id, trace, m - 1);
    }
  }

  lemma YieldsAreOfStream(lim: Limits, id: StreamId, trace: Trace, k: nat)
    requires k < |Yields(lim, id, trace)|
    ensures var c := Yields(lim, id, trace)[k].checkpoint;
            c.batchId == id.batchId && c.endpointAlias == id.endpointAlias
  {
    YieldAt(lim, id, trace, k);
  }

  /**
   One pass in which nothing fails takes the log to the end of the current file;
   if the rest of the batch is one file, the log is then all of its records.
   */
  method PassWithoutFaults(session: Session, scope: Scope, lim: Limits, rules: IdentifierRules, id: StreamId,
                           status: BatchStatus,
                           fates: seq<Fate>)
    requires !session.active && Served(lim, rules, id) && RequestAccepted(rules, id, None, status)
    requires OnStreamFor(lim, scope, id, BatchTrace(lim, rules, status), session.table, session.effects)
    requires |fates| >= |Yields(lim, id, BatchTrace(lim, rules, status))| && forall i :: 0 <= i < |fates| ==>
               fates[i].Commits?
    modifies session
    ensures !session.active
    ensures var all, key := Yields(lim, id, BatchTrace(lim, rules, status)), RowKey(scope, id);
            var before := old(|LogOf(session.effects, key)|);
            before <= |all| &&
            var run := FileRun(DurableAfter(None, all, before), all[before..]);
            && LogOf(session.effects, key) == Records(all[..before + run])
            && ((forall i, j :: 0 <= i < j < |all| ==> SameFile(all[i].checkpoint, all[j].checkpoint)) ==>
                  LogOf(session.effects, key) == Records(all))
  {
    hide Yields, BatchTrace, Records, RequestRun, LogOf, Reach, Served;
    ghost var key := RowKey(scope, id);
    ghost var durable, log := Lookup(session.table, key), LogOf(session.effects, key);
    ghost var m := ResumesWhereItStands(lim, rules, id, status, durable, log);
    FaultFreePassReaches(lim, rules, id, status, m, fates);
    var n := Pass(session, scope, lim, rules, id, status, fates);
    ghost var all := Yields(lim, id, BatchTrace(lim, rules, status));
    RecordsFrom(all, m, n);
    RestOfOneFile(all, m);
    assert all[..|all|] == all;
  }

  lemma RestOfOneFile(all: seq<Item>, m: nat)
    requires m <= |all|
    ensures (forall i, j :: 0 <= i < j < |all| ==> SameFile(all[i].checkpoint, all[j].checkpoint)) ==>
              FileRun(DurableAfter(None, all, m), all[m..]) == |all| - m
  {
    if forall i, j :: 0 <= i < j < |all| ==> SameFile(all[i].checkpoint, all[j].checkpoint) {
      OneFileRunsToTheEnd(DurableAfter(None, all, m), all[m..]);
    }
  }
}
