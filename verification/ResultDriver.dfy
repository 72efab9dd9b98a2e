/**
 The consumer's crash/restart protocol: load the durable checkpoint, resume the
 provider stream after it, and apply each record with its checkpoint in one
 transaction. Whatever fails and whenever, the committed effects of the
 consumer are exactly the records through the durable checkpoint.
 */
module ResultDriver {
  import opened Bytes
  import opened Framing
  import opened LineStream
  import opened CheckpointedStream
  import opened CheckpointDecisions
  import opened TransactionProtocol
  import opened ResultApplication
  import opened Sequences

  /** The effects committed under one key, in commit order. */
  function LogOf(effects: seq<Effect>, k: Key): seq<JsonObject> {
    if effects == [] then []
    else
      var before, e := LogOf(effects[..|effects| - 1], k), effects[|effects| - 1];
      if e.key == k then before + [e.record] else before
  }

  function Records(items: seq<Item>): (rs: seq<JsonObject>)
    ensures |rs| == |items|
  {
    seq(|items|, i requires 0 <= i < |items| => items[i].record)
  }

  function RowKey(scope: Scope, id: StreamId): Key {
    Key(scope.tenant, scope.consumer, id.endpointAlias, id.batchId)
  }

  /** The durable checkpoint stands in the stream, and the log is the stream's records through it. */
  predicate OnStream(lim: Limits, id: StreamId, trace: Trace, durable: Option<Checkpoint>, log: seq<JsonObject>) {
    match durable
    case None => log == []
    case Some(c) =>
      var ys := Yields(lim, id, trace);
      1 <= c.recordCount <= |ys| && ys[c.recordCount - 1].checkpoint == c && log == Records(ys[..c.recordCount])
  }

  /** The log is the records through the durable checkpoint of one of the streams seen so far. */
  ghost predicate Exact(lim: Limits, id: StreamId, seen: seq<Trace>, durable: Option<Checkpoint>,
                        log: seq<JsonObject>) {
    match durable
    case None => log == []
    case Some(c) => exists trace :: trace in seen && OnStream(lim, id, trace, durable, log)
  }

  lemma OnStreamIsExact(lim: Limits, id: StreamId, seen: seq<Trace>, trace: Trace, durable: Option<Checkpoint>,
                        log: seq<JsonObject>)
    requires OnStream(lim, id, trace, durable, log)
    ensures Exact(lim, id, seen + [trace], durable, log)
  {
    assert (seen + [trace])[|seen|] == trace;
  }

  lemma StillExact(lim: Limits, id: StreamId, seen: seq<Trace>, trace: Trace, durable: Option<Checkpoint>,
                   log: seq<JsonObject>)
    requires Exact(lim, id, seen, durable, log)
    ensures Exact(lim, id, seen + [trace], durable, log)
  {
    hide OnStream;
    if durable.Some? {
      var earlier :| earlier in seen && OnStream(lim, id, earlier, durable, log);
      assert earlier in seen + [trace];
    }
  }

  /** If today's stream reproduces the durable checkpoint, the log is today's first records. */
  lemma ExactOnMatchingStream(lim: Limits, id: StreamId, seen: seq<Trace>, trace: Trace, durable: Option<Checkpoint>,
                              log: seq<JsonObject>)
    requires Exact(lim, id, seen, durable, log)
    requires ProgressAfter(durable, Yields(lim, id, trace)).Yielding?
    ensures OnStream(lim, id, trace, durable, log)
  {
    hide Yields, SamePrefix, Records;
    if durable.Some? {
      var c := durable.value;
      var trace' :| trace' in seen && OnStream(lim, id, trace', durable, log);
      var k := c.recordCount - 1;
      SameCheckpointSamePrefix(lim, id, trace', k, trace);
      SamePrefixYields(lim, id, trace', k, trace);
    }
  }

  // ----- one pass -----

  /** What happens to one application: it commits, its effect raises, or the process dies around the commit. */
  datatype Fate = Commits | EffectRaises(dirty: bool) | CrashBeforeCommit | CrashAfterCommit

  function Plan(fate: Fate): EffectOutcome {
    match fate
    case EffectRaises(dirty) => if dirty then RaisesAfterWriting else RaisesUntouched
    case _ => Returns
  }

  /** How many of the yielded records a pass commits. */
  function Reach(previous: Option<Checkpoint>, ys: seq<Item>, fates: seq<Fate>): (n: nat)
    ensures n <= |ys|
    decreases |ys|
  {
    if ys == [] || fates == [] || !ApplyOutcome(previous, ys[0], Plan(fates[0])).Applied? then 0
    else match fates[0]
      case Commits => 1 + Reach(Some(ys[0].checkpoint), ys[1..], fates[1..])
      case CrashAfterCommit => 1
      case _ => 0
  }

  /** The checkpoint that is durable once the first `n` yielded records are committed. */
  function DurableAfter(previous: Option<Checkpoint>, ys: seq<Item>, n: nat): Option<Checkpoint>
    requires n <= |ys|
  {
    if n == 0 then previous else Some(ys[n - 1].checkpoint)
  }

  lemma LogSnoc(effects: seq<Effect>, e: Effect, k: Key)
    ensures LogOf(effects + [e], k) == if e.key == k then LogOf(effects, k) + [e.record] else LogOf(effects, k)
  {
    SnocInit(effects, e);
  }

  lemma ReachStep(previous: Option<Checkpoint>, ys: seq<Item>, fates: seq<Fate>, i: nat)
    requires i < |ys| && i < |fates|
    ensures Reach(previous, ys[i..], fates[i..])
            == if !ApplyOutcome(previous, ys[i], Plan(fates[i])).Applied? then 0
               else match fates[i]
                    case Commits => 1 + Reach(Some(ys[i].checkpoint), ys[i + 1..], fates[i + 1..])
                    case CrashAfterCommit => 1
                    case _ => 0
  {
    DropCons(ys, i);
    DropCons(fates, i);
  }

  /** One record in one transaction; `stop` says that the pass is over. */
  method ApplyOne(session: Session, scope: Scope, item: Item, fate: Fate) returns (applied: bool, stop: bool)
    requires !session.active
    modifies session
    ensures !session.active
    ensures var key := KeyOf(scope, item.checkpoint);
            && (applied <==>
                  ApplyOutcome(old(Lookup(session.table, key)), item, Plan(fate)).Applied?
                  && (fate.Commits? || fate.CrashAfterCommit?))
            && session.table == (if applied then old(session.table)[key := item.checkpoint] else old(session.table))
            && session.effects == (if applied then old(session.effects) + [Effect(key, item.checkpoint, item.record)]
                                   else old(session.effects))
            && (stop <==> !applied || fate.CrashAfterCommit?)
  {
    session.Begin();
    var result, cursor := Apply(session, scope, item, Plan(fate));
    if !result.Applied? || fate.CrashBeforeCommit? {
      session.Rollback();
      return false, true;
    }
    session.Commit();
    applied, stop := true, fate.CrashAfterCommit?;
  }

  /**
   The committed state after the first `n` yielded records: the row holds the n-th
   checkpoint, other keys are as before.
   */
  ghost predicate Advanced(table0: Table, effects0: seq<Effect>, key: Key, ys: seq<Item>, n: nat, table: Table,
                           effects: seq<Effect>)
    requires n <= |ys|
  {
    && table == (if n == 0 then table0 else table0[key := ys[n - 1].checkpoint])
    && LogOf(effects, key) == LogOf(effects0, key) + Records(ys[..n])
    && forall k :: k != key ==> LogOf(effects, k) == LogOf(effects0, k)
  }

  lemma AdvancedStep(table0: Table, effects0: seq<Effect>, key: Key, ys: seq<Item>, n: nat, table: Table,
                     effects: seq<Effect>)
    requires n < |ys| && Advanced(table0, effects0, key, ys, n, table, effects)
    ensures Advanced(table0, effects0, key, ys, n + 1, table[key := ys[n].checkpoint],
                     effects + [Effect(key, ys[n].checkpoint, ys[n].record)])
  {
    hide LogOf, Records;
    var e := Effect(key, ys[n].checkpoint, ys[n].record);
    forall k
      ensures LogOf(effects + [e], k) == if e.key == k then LogOf(effects, k) + [e.record] else LogOf(effects, k)
    {
      LogSnoc(effects, e, k);
    }
    RecordsSnoc(ys, n);
    Associative(LogOf(effects0, key), Records(ys[..n]), [ys[n].record]);
    assert table[key := ys[n].checkpoint] == table0[key := ys[n].checkpoint];
  }

  lemma RecordsSnoc(ys: seq<Item>, n: nat)
    requires n < |ys|
    ensures Records(ys[..n + 1]) == Records(ys[..n]) + [ys[n].record]
  {
  }

  /** Applies yielded records in stream order until something stops the pass. */
  method ApplyAll(session: Session, scope: Scope, id: StreamId, ys: seq<Item>, fates: seq<Fate>) returns (n: nat)
    requires !session.active
    requires forall i :: 0 <= i < |ys| ==> KeyOf(scope, ys[i].checkpoint) == RowKey(scope, id)
    modifies session
    ensures !session.active
    ensures n == Reach(old(Lookup(session.table, RowKey(scope, id))), ys, fates)
    ensures Advanced(old(session.table), old(session.effects), RowKey(scope, id), ys, n, session.table, session.effects)
  {
    hide LogOf, Records, Reach, ApplyOutcome, Advanced;
    ghost var key, table0, effects0 := RowKey(scope, id), session.table, session.effects;
    n := 0;
    NothingApplied(table0, effects0, key, ys, fates);
    while n < |ys| && n < |fates|
      invariant n <= |ys| && n <= |fates| && !session.active
      invariant Advanced(table0, effects0, key, ys, n, session.table, session.effects)
      invariant Reach(Lookup(table0, key), ys, fates) == n + Reach(Lookup(session.table, key), ys[n..], fates[n..])
    {
      ReachStep(Lookup(session.table, key), ys, fates, n);
      AdvancedStep(table0, effects0, key, ys, n, session.table, session.effects);
      var applied, stop := ApplyOne(session, scope, ys[n], fates[n]);
      if applied {
        n := n + 1;
      }
      if stop {
        return;
      }
    }
    ReachEnds(Lookup(session.table, key), ys, fates, n);
  }

  lemma NothingApplied(table: Table, effects: seq<Effect>, key: Key, ys: seq<Item>, fates: seq<Fate>)
    ensures Advanced(table, effects, key, ys, 0, table, effects)
    ensures ys[0..] == ys && fates[0..] == fates
  {
    assert Records(ys[..0]) == [];
  }

  lemma ReachEnds(previous: Option<Checkpoint>, ys: seq<Item>, fates: seq<Fate>, n: nat)
    requires n <= |ys| && n <= |fates| && (n == |ys| || n == |fates|)
    ensures Reach(previous, ys[n..], fates[n..]) == 0
  {
  }

  // ----- what a pass does to the log -----

  lemma RecordsAppend(a: seq<Item>, b: seq<Item>)
    ensures Records(a + b) == Records(a) + Records(b)
  {
  }

  lemma YieldCount(lim: Limits, id: StreamId, trace: Trace, scope: Scope, k: nat)
    requires k < |Yields(lim, id, trace)|
    ensures Yields(lim, id, trace)[k].checkpoint.recordCount == k + 1
    ensures KeyOf(scope, Yields(lim, id, trace)[k].checkpoint) == RowKey(scope, id)
  {
    YieldAt(lim, id, trace, k);
  }

  lemma RecordsFrom(all: seq<Item>, m: nat, n: nat)
    requires m + n <= |all|
    ensures Records(all[..m]) + Records(all[m..][..n]) == Records(all[..m + n])
  {
    assert all[..m] + all[m..][..n] == all[..m + n];
    RecordsAppend(all[..m], all[m..][..n]);
  }

  /** Applying the next `n` yielded records keeps the log on the stream: no duplicate, no gap, no reordering. */
  lemma StaysOnStream(lim: Limits, id: StreamId, trace: Trace, durable: Option<Checkpoint>, log: seq<JsonObject>,
                      n: nat)
    requires OnStream(lim, id, trace, durable, log)
    requires n <= |StreamRun(lim, id, durable, trace).yielded|
    ensures var ys := StreamRun(lim, id, durable, trace).yielded;
            OnStream(lim, id, trace, DurableAfter(durable, ys, n), log + Records(ys[..n]))
  {
    hide Yields, Records;
    var all, ys := Yields(lim, id, trace), StreamRun(lim, id, durable, trace).yielded;
    var m := if durable.None? then 0 else durable.value.recordCount;
    assert ys == all[m..] && |Records(all[..0])| == 0 == |Records(ys[..0])|;
    if n == 0 {
      assert log + Records(ys[..0]) == log;
    } else {
      YieldCount(lim, id, trace, Scope([], []), m + n - 1);
      RecordsFrom(all, m, n);
    }
  }

  /** After a pass the log is exact on the streams seen before it or on the stream of this pass. */
  lemma StaysExact(lim: Limits, rules: IdentifierRules, id: StreamId, status: BatchStatus, seen: seq<Trace>,
                   durable: Option<Checkpoint>, log: seq<JsonObject>, n: nat)
    requires Exact(lim, id, seen, durable, log)
    requires n <= |RequestRun(lim, rules, id, durable, status).yielded|
    ensures var ys := RequestRun(lim, rules, id, durable, status).yielded;
            Exact(lim, id, seen + [BatchTrace(lim, rules, status)], DurableAfter(durable, ys, n),
                  log + Records(ys[..n]))
  {
    hide OnStream, Exact, BatchTrace, Records, Yields;
    var ys, trace := RequestRun(lim, rules, id, durable, status).yielded, BatchTrace(lim, rules, status);
    if n == 0 {
      NoRecords(ys);
      assert log + [] == log;
      StillExact(lim, id, seen, trace, durable, log);
    } else {
      ExactOnMatchingStream(lim, id, seen, trace, durable, log);
      StaysOnStream(lim, id, trace, durable, log, n);
      OnStreamIsExact(lim, id, seen, trace, DurableAfter(durable, ys, n), log + Records(ys[..n]));
    }
  }

  lemma NoRecords(ys: seq<Item>)
    ensures Records(ys[..0]) == []
  {
  }

  lemma YieldedKeys(lim: Limits, rules: IdentifierRules, id: StreamId, status: BatchStatus, scope: Scope,
                    durable: Option<Checkpoint>)
    ensures var ys := RequestRun(lim, rules, id, durable, status).yielded;
            forall i :: 0 <= i < |ys| ==> KeyOf(scope, ys[i].checkpoint) == RowKey(scope, id)
  {
    hide StreamRun, BatchTrace, Yields;
    var ys, trace := RequestRun(lim, rules, id, durable, status).yielded, BatchTrace(lim, rules, status);
    forall i | 0 <= i < |ys|
      ensures KeyOf(scope, ys[i].checkpoint) == RowKey(scope, id)
    {
      var k := YieldedIsLater(lim, id, durable, trace, i);
      YieldCount(lim, id, trace, scope, k);
    }
  }

  /** A resumed run yields records of the uninterrupted one. */
  lemma YieldedIsLater(lim: Limits, id: StreamId, resume: Option<Checkpoint>, trace: Trace, i: nat) returns (k: nat)
    requires i < |StreamRun(lim, id, resume, trace).yielded|
    ensures k < |Yields(lim, id, trace)| && StreamRun(lim, id, resume, trace).yielded[i] == Yields(lim, id, trace)[k]
  {
    hide Yields;
    k := if resume.None? then i else resume.value.recordCount + i;
  }

  /** Restart: load the durable checkpoint, resume after it, apply in order. */
  method Pass(session: Session, scope: Scope, lim: Limits, rules: IdentifierRules, id: StreamId, status: BatchStatus,
              fates: seq<Fate>)
    returns (n: nat)
    requires !session.active
    modifies session
    ensures !session.active
    ensures var key := RowKey(scope, id);
            var durable := old(Lookup(session.table, key));
            var ys := RequestRun(lim, rules, id, durable, status).yielded;
            && n == Reach(durable, ys, fates)
            && Advanced(old(session.table), old(session.effects), key, ys, n, session.table, session.effects)
  {
    hide RequestRun;
    var key := RowKey(scope, id);
    session.Begin();
    var durable := session.LoadInTransaction(key);
    session.Rollback();
    var ys, ending := IterateCheckpointed(lim, rules, id, durable, status);
    YieldedKeys(lim, rules, id, status, scope, durable);
    assert ys == RequestRun(lim, rules, id, durable, status).yielded;
    n := ApplyAll(session, scope, id, ys, fates);
  }

  datatype PassScript = PassScript(status: BatchStatus, fates: seq<Fate>)

  /** The streams the provider answers with, pass by pass. */
  function TracesOf(lim: Limits, rules: IdentifierRules, passes: seq<PassScript>): (traces: seq<Trace>)
    ensures |traces| == |passes|
  {
    seq(|passes|, i requires 0 <= i < |passes| => BatchTrace(lim, rules, passes[i].status))
  }

  /** One key's committed state is exact. */
  ghost predicate ExactFor(lim: Limits, scope: Scope, id: StreamId, seen: seq<Trace>, table: Table,
                           effects: seq<Effect>) {
    Exact(lim, id, seen, Lookup(table, RowKey(scope, id)), LogOf(effects, RowKey(scope, id)))
  }

  predicate OnStreamFor(lim: Limits, scope: Scope, id: StreamId, trace: Trace, table: Table, effects: seq<Effect>) {
    OnStream(lim, id, trace, Lookup(table, RowKey(scope, id)), LogOf(effects, RowKey(scope, id)))
  }

  lemma PassKeepsExact(scope: Scope, lim: Limits, rules: IdentifierRules, id: StreamId, status: BatchStatus,
                       seen: seq<Trace>, n: nat,
                       table0: Table, effects0: seq<Effect>, table: Table, effects: seq<Effect>)
    requires var ys := RequestRun(lim, rules, id, Lookup(table0, RowKey(scope, id)), status).yielded;
             n <= |ys| && Advanced(table0, effects0, RowKey(scope, id), ys, n, table, effects)
    ensures ExactFor(lim, scope, id, seen, table0, effects0) ==>
              ExactFor(lim, scope, id, seen + [BatchTrace(lim, rules, status)], table, effects)
    ensures OnStreamFor(lim, scope, id, BatchTrace(lim, rules, status), table0, effects0) ==>
              OnStreamFor(lim, scope, id, BatchTrace(lim, rules, status), table, effects)
  {
    hide RequestRun, LogOf, Records, OnStream;
    var key := RowKey(scope, id);
    var durable, log := Lookup(table0, key), LogOf(effects0, key);
    var ys := RequestRun(lim, rules, id, durable, status).yielded;
    assert Lookup(table, key) == DurableAfter(durable, ys, n);
    if Exact(lim, id, seen, durable, log) {
      StaysExact(lim, rules, id, status, seen, durable, log, n);
    }
    if OnStream(lim, id, BatchTrace(lim, rules, status), durable, log) {
      RequestStaysOnStream(lim, rules, id, status, durable, log, n);
    }
  }

  lemma RequestStaysOnStream(lim: Limits, rules: IdentifierRules, id: StreamId, status: BatchStatus,
                             durable: Option<Checkpoint>, log: seq<JsonObject>, n: nat)
    requires OnStream(lim, id, BatchTrace(lim, rules, status), durable, log)
    requires n <= |RequestRun(lim, rules, id, durable, status).yielded|
    ensures var ys := RequestRun(lim, rules, id, durable, status).yielded;
            OnStream(lim, id, BatchTrace(lim, rules, status), DurableAfter(durable, ys, n), log + Records(ys[..n]))
  {
    var ys := RequestRun(lim, rules, id, durable, status).yielded;
    if RequestAccepted(rules, id, durable, status) {
      StaysOnStream(lim, id, BatchTrace(lim, rules, status), durable, log, n);
    } else {
      assert log + Records(ys[..0]) == log;
    }
  }

  /**
   Any number of passes, each with its own provider answer and its own
   failures. The consumer's committed effects stay exactly the records, through
   its durable checkpoint, of a stream seen before or by one of the passes; and
   while the provider keeps answering with one stream they are a prefix of that
   stream's records.
   */
  method Drive(session: Session, scope: Scope, lim: Limits, rules: IdentifierRules, id: StreamId,
               passes: seq<PassScript>,
               ghost before: seq<Trace>)
    requires !session.active
    requires ExactFor(lim, scope, id, before, session.table, session.effects)
    modifies session
    ensures !session.active
    ensures ExactFor(lim, scope, id, before + TracesOf(lim, rules, passes), session.table, session.effects)
    ensures forall trace ::
              (forall p :: p in passes ==> BatchTrace(lim, rules, p.status) == trace)
              && OnStreamFor(lim, scope, id, trace, old(session.table), old(session.effects)) ==>
                OnStreamFor(lim, scope, id, trace, session.table, session.effects)
    ensures forall k :: k != RowKey(scope, id) ==>
              Lookup(session.table, k) == old(Lookup(session.table, k))
              && LogOf(session.effects, k) == old(LogOf(session.effects, k))
  {
    hide ExactFor, OnStreamFor, LogOf, RequestRun, BatchTrace;
    ghost var table0, effects0, seen := session.table, session.effects, before;
    assert before + TracesOf(lim, rules, passes)[..0] == before;
    for i := 0 to |passes|
      invariant !session.active
      invariant seen == before + TracesOf(lim, rules, passes)[..i]
      invariant ExactFor(lim, scope, id, seen, session.table, session.effects)
      invariant forall trace ::
                  (forall p :: p in passes ==> BatchTrace(lim, rules, p.status) == trace)
                  && OnStreamFor(lim, scope, id, trace, table0, effects0) ==>
                    OnStreamFor(lim, scope, id, trace, session.table, session.effects)
      invariant forall k :: k != RowKey(scope, id) ==>
                  Lookup(session.table, k) == Lookup(table0, k) && LogOf(session.effects, k) == LogOf(effects0, k)
    {
      ghost var table, effects := session.table, session.effects;
      var n := Pass(session, scope, lim, rules, id, passes[i].status, passes[i].fates);
      PassKeepsExact(scope, lim, rules, id, passes[i].status, seen, n, table, effects, session.table, session.effects);
      assert passes[i] in passes;
      AppendTakeSnoc(before, TracesOf(lim, rules, passes), i);
      seen := seen + [BatchTrace(lim, rules, passes[i].status)];
    }
    AppendTakeAll(before, TracesOf(lim, rules, passes));
  }
}
