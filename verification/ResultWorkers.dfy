/**
 Many workers of many consumers over one store. A worker loads its checkpoint and
 resumes a stream when it starts, and then applies its records one transaction at a
 time, while others do the same on the same row; any of them may be paused, die or
 be replaced between two transactions. Transactions are serial, and nothing else is.
 */
module ResultWorkers {
  import opened Bytes
  import opened Framing
  import opened LineStream
  import opened CheckpointedStream
  import opened CheckpointDecisions
  import opened TransactionProtocol
  import opened ResultApplication
  import opened ResultDriver

  type WorkerId = nat

  /** What one worker holds: the stream it resumed, from where, what that yields, and how far it has come. */
  datatype Worker = Worker(scope: Scope, id: StreamId, trace: Trace, resume: Option<Checkpoint>, items: seq<Item>,
                           next: nat)

  /** `seen` lists every stream any worker was answered with. */
  datatype Store = Store(table: Table, effects: seq<Effect>, workers: map<WorkerId, Worker>, seen: seq<Trace>)

  datatype Step =
    | Start(worker: WorkerId, scope: Scope, id: StreamId, status: BatchStatus)
    | ApplyNext(worker: WorkerId, fate: Fate)
    | Die(worker: WorkerId)

  /** The limits and identifier rules every worker runs under. */
  datatype Setting = Setting(lim: Limits, rules: IdentifierRules)

  /** The durable checkpoint that a worker believes in: its last confirmed one. */
  function Confirmed(w: Worker): Option<Checkpoint>
    requires w.next <= |w.items|
  {
    DurableAfter(w.resume, w.items, w.next)
  }

  function Fresh(env: Setting, s: Store, scope: Scope, id: StreamId, status: BatchStatus): Worker {
    var durable := Lookup(s.table, RowKey(scope, id));
    Worker(scope, id, BatchTrace(env.lim, env.rules, status), durable,
           RequestRun(env.lim, env.rules, id, durable, status).yielded, 0)
  }

  /** The outcome of applying the worker's next record in a transaction of its own. */
  function OutcomeOf(s: Store, w: Worker, fate: Fate): ApplyResult
    requires w.next < |w.items|
  {
    var item := w.items[w.next];
    ApplyOutcome(Lookup(s.table, KeyOf(w.scope, item.checkpoint)), item, Plan(fate))
  }

  function Committed(s: Store, w: Worker): Store
    requires w.next < |w.items|
  {
    var item := w.items[w.next];
    var key := KeyOf(w.scope, item.checkpoint);
    s.(table := s.table[key := item.checkpoint], effects := s.effects + [Effect(key, item.checkpoint, item.record)])
  }

  /**
   A committed or already applied record lets the worker move on; a crash ends it
   before or after the commit; anything else is rolled back and may be tried again.
   */
  function AfterApply(s: Store, d: WorkerId, w: Worker, fate: Fate): Store
    requires w.next < |w.items|
  {
    var outcome := OutcomeOf(s, w, fate);
    var after := if outcome.Applied? && !fate.CrashBeforeCommit? then Committed(s, w) else s;
    if fate.CrashBeforeCommit? || fate.CrashAfterCommit? then after.(workers := s.workers - {d})
    else if outcome.Applied? || outcome.AlreadyThere? then after.(workers := s.workers[d := w.(next := w.next + 1)])
    else after
  }

  function Next(env: Setting, s: Store, step: Step): Store {
    match step
    case Start(d, scope, id, status) =>
      var w := Fresh(env, s, scope, id, status);
      s.(workers := s.workers[d := w], seen := s.seen + [w.trace])
    case ApplyNext(d, fate) =>
      if d in s.workers && s.workers[d].next < |s.workers[d].items| then AfterApply(s, d, s.workers[d], fate) else s
    case Die(d) => s.(workers := s.workers - {d})
  }

  function Execute(env: Setting, start: Store, steps: seq<Step>): Store {
    if steps == [] then start else Next(env, Execute(env, start, steps[..|steps| - 1]), steps[|steps| - 1])
  }

  // ----- what every run keeps -----

  /** The durable row is the one the worker last confirmed, or another worker has moved it further. */
  predicate InStepOrOvertaken(durable: Option<Checkpoint>, confirmed: Option<Checkpoint>) {
    durable == confirmed || CountOf(confirmed) < CountOf(durable)
  }

  function CountOf(c: Option<Checkpoint>): nat {
    if c.None? then 0 else c.value.recordCount
  }

  /** The worker's records are those a resumed run of its stream yields. */
  predicate WorkerOk(env: Setting, s: Store, w: Worker) {
    && w.next <= |w.items|
    && (w.items != [] ==> w.items == StreamRun(env.lim, w.id, w.resume, w.trace).yielded)
    && w.trace in s.seen
    && InStepOrOvertaken(Lookup(s.table, RowKey(w.scope, w.id)), Confirmed(w))
  }

  ghost predicate AllExact(env: Setting, s: Store) {
    forall scope, id :: ExactFor(env.lim, scope, id, s.seen, s.table, s.effects)
  }

  ghost predicate Inv(env: Setting, s: Store) {
    AllExact(env, s) && forall d :: d in s.workers ==> WorkerOk(env, s, s.workers[d])
  }

  /** The worker's next record, in its stream and with its counts. */
  lemma NextItem(env: Setting, s: Store, w: Worker) returns (k: nat)
    requires WorkerOk(env, s, w) && w.next < |w.items|
    ensures var all := Yields(env.lim, w.id, w.trace);
            && k < |all| && all[k] == w.items[w.next]
            && w.items[w.next].checkpoint.recordCount == k + 1
            && KeyOf(w.scope, w.items[w.next].checkpoint) == RowKey(w.scope, w.id)
            && (if k == 0 then Confirmed(w).None? else Confirmed(w) == Some(all[k - 1].checkpoint))
  {
    hide Yields;
    var all := Yields(env.lim, w.id, w.trace);
    k := w.next + if w.resume.None? then 0 else w.resume.value.recordCount;
    YieldCount(env.lim, w.id, w.trace, w.scope, k);
    if w.resume.Some? {
      assert all[w.resume.value.recordCount - 1].checkpoint == w.resume.value;
    }
  }

  /** A record is applied only by a worker that nobody has overtaken. */
  lemma AppliedIsInStep(env: Setting, s: Store, w: Worker, fate: Fate)
    requires WorkerOk(env, s, w) && w.next < |w.items| && OutcomeOf(s, w, fate).Applied?
    ensures Lookup(s.table, RowKey(w.scope, w.id)) == Confirmed(w)
    ensures Confirmed(w).Some? ==>
              && Confirmed(w).value.recordCount < w.items[w.next].checkpoint.recordCount
              && Confirmed(w).value.batchLineCount < w.items[w.next].checkpoint.batchLineCount
  {
    hide Yields, StreamRun, SaveOutcome;
    var k := NextItem(env, s, w);
    if k > 0 { YieldCount(env.lim, w.id, w.trace, w.scope, k - 1); }
  }

  /** An already applied record is the worker's next one made durable by somebody else. */
  lemma ReplayIsConfirmed(env: Setting, s: Store, w: Worker, fate: Fate)
    requires WorkerOk(env, s, w) && w.next < |w.items| && OutcomeOf(s, w, fate).AlreadyThere?
    ensures Lookup(s.table, RowKey(w.scope, w.id)) == Some(w.items[w.next].checkpoint)
  {
    hide Yields, StreamRun, SaveOutcome;
    var k := NextItem(env, s, w);
  }

  /** Applying the next record in step extends an exact log by exactly that record. */
  lemma CommitStaysExact(env: Setting, s: Store, w: Worker)
    requires WorkerOk(env, s, w) && w.next < |w.items|
    requires Lookup(s.table, RowKey(w.scope, w.id)) == Confirmed(w)
    requires ExactFor(env.lim, w.scope, w.id, s.seen, s.table, s.effects)
    ensures ExactFor(env.lim, w.scope, w.id, s.seen, Committed(s, w).table, Committed(s, w).effects)
  {
    hide Yields, OnStream, LogOf, Records;
    var lim, durable, key := env.lim, Confirmed(w), RowKey(w.scope, w.id);
    var log, item := LogOf(s.effects, key), w.items[w.next];
    var k := NextItem(env, s, w);
    var all := Yields(lim, w.id, w.trace);
    if k > 0 { YieldCount(lim, w.id, w.trace, w.scope, k - 1); }
    ExactOnMatchingStream(lim, w.id, s.seen, w.trace, durable, log);
    var ys := StreamRun(lim, w.id, durable, w.trace).yielded;
    assert ys == all[k..] && ys[0] == item;
    StaysOnStream(lim, w.id, w.trace, durable, log, 1);
    OneRecord(ys);
    LogSnoc(s.effects, Effect(key, item.checkpoint, item.record), key);
  }

  lemma OneRecord(ys: seq<Item>)
    requires ys != []
    ensures Records(ys[..1]) == [ys[0].record]
  {
  }

  lemma OtherKeysStayExact(env: Setting, s: Store, w: Worker, scope: Scope, id: StreamId)
    requires w.next < |w.items| && KeyOf(w.scope, w.items[w.next].checkpoint) == RowKey(w.scope, w.id)
    requires scope != w.scope || id != w.id
    requires ExactFor(env.lim, scope, id, s.seen, s.table, s.effects)
    ensures ExactFor(env.lim, scope, id, s.seen, Committed(s, w).table, Committed(s, w).effects)
  {
    hide LogOf, Exact;
    var item := w.items[w.next];
    LogSnoc(s.effects, Effect(KeyOf(w.scope, item.checkpoint), item.checkpoint, item.record), RowKey(scope, id));
  }

  /** A commit leaves every other worker in step or overtaken. */
  lemma OthersAfterCommit(env: Setting, s: Store, w: Worker, v: Worker)
    requires WorkerOk(env, s, w) && w.next < |w.items| && WorkerOk(env, s, v)
    requires Lookup(s.table, RowKey(w.scope, w.id)) == Confirmed(w)
    requires Confirmed(w).Some? ==> Advances(Confirmed(w).value, w.items[w.next].checkpoint)
    ensures WorkerOk(env, Committed(s, w), v)
  {
    hide Yields, StreamRun;
    var k := NextItem(env, s, w);
  }

  lemma CommitKeepsInv(env: Setting, s: Store, d: WorkerId, fate: Fate)
    requires Inv(env, s) && d in s.workers && s.workers[d].next < |s.workers[d].items|
    requires OutcomeOf(s, s.workers[d], fate).Applied?
    ensures Inv(env, Committed(s, s.workers[d]))
    ensures WorkerOk(env, Committed(s, s.workers[d]), s.workers[d].(next := s.workers[d].next + 1))
  {
    hide ExactFor, StreamRun, Yields, OutcomeOf;
    var w := s.workers[d];
    assert WorkerOk(env, s, w);
    var k := NextItem(env, s, w);
    AppliedIsInStep(env, s, w, fate);
    forall scope, id
      ensures ExactFor(env.lim, scope, id, s.seen, Committed(s, w).table, Committed(s, w).effects)
    {
      assert ExactFor(env.lim, scope, id, s.seen, s.table, s.effects);
      if scope == w.scope && id == w.id {
        CommitStaysExact(env, s, w);
      } else {
        OtherKeysStayExact(env, s, w, scope, id);
      }
    }
    forall e | e in s.workers
      ensures WorkerOk(env, Committed(s, w), s.workers[e])
    {
      OthersAfterCommit(env, s, w, s.workers[e]);
    }
  }

  lemma ApplyKeepsInv(env: Setting, s: Store, d: WorkerId, fate: Fate)
    requires Inv(env, s) && d in s.workers && s.workers[d].next < |s.workers[d].items|
    ensures Inv(env, AfterApply(s, d, s.workers[d], fate))
  {
    hide ExactFor, StreamRun, OutcomeOf, Committed;
    var w := s.workers[d];
    assert WorkerOk(env, s, w);
    SameElsewhere(s, w);
    if OutcomeOf(s, w, fate).Applied? {
      CommitKeepsInv(env, s, d, fate);
    } else if OutcomeOf(s, w, fate).AlreadyThere? {
      ReplayIsConfirmed(env, s, w, fate);
    }
  }

  lemma SameElsewhere(s: Store, w: Worker)
    requires w.next < |w.items|
    ensures Committed(s, w).workers == s.workers && Committed(s, w).seen == s.seen
  {
  }

  lemma StartKeepsInv(env: Setting, s: Store, d: WorkerId, scope: Scope, id: StreamId, status: BatchStatus)
    requires Inv(env, s)
    ensures Inv(env, Next(env, s, Start(d, scope, id, status)))
  {
    hide OnStream, StreamRun, LogOf;
    var s' := Next(env, s, Start(d, scope, id, status));
    var trace := BatchTrace(env.lim, env.rules, status);
    forall scope', id'
      ensures ExactFor(env.lim, scope', id', s'.seen, s'.table, s'.effects)
    {
      assert ExactFor(env.lim, scope', id', s.seen, s.table, s.effects);
      var key := RowKey(scope', id');
      StillExact(env.lim, id', s.seen, trace, Lookup(s.table, key), LogOf(s.effects, key));
    }
    forall e | e in s'.workers
      ensures WorkerOk(env, s', s'.workers[e])
    {
      if e == d {
        assert s'.seen[|s.seen|] == trace;
      } else {
        assert WorkerOk(env, s, s.workers[e]);
      }
    }
  }

  lemma {:induction false} EveryRunKeepsInv(env: Setting, start: Store, steps: seq<Step>)
    requires Inv(env, start)
    ensures Inv(env, Execute(env, start, steps))
  {
    hide AllExact, WorkerOk, AfterApply, Fresh;
    if steps != [] {
      var before, step := steps[..|steps| - 1], steps[|steps| - 1];
      EveryRunKeepsInv(env, start, before);
      var s := Execute(env, start, before);
      match step
      case Start(d, scope, id, status) => StartKeepsInv(env, s, d, scope, id, status);
      case ApplyNext(d, fate) =>
        if d in s.workers && s.workers[d].next < |s.workers[d].items| { ApplyKeepsInv(env, s, d, fate); }
      case Die(d) => DeathKeepsInv(env, s, d);
    }
  }

  lemma DeathKeepsInv(env: Setting, s: Store, d: WorkerId)
    requires Inv(env, s)
    ensures Inv(env, s.(workers := s.workers - {d}))
  {
    hide ExactFor, StreamRun;
    forall e | e in s.workers && e != d
      ensures WorkerOk(env, s.(workers := s.workers - {d}), s.workers[e])
    {
      assert WorkerOk(env, s, s.workers[e]);
    }
  }

  /**
   Over every run of any number of workers, with any of them failing, dying or
   being overtaken at any point: the committed effects of each consumer of each
   batch are exactly the first `record_count` records, through its durable
   checkpoint, of a stream that some worker was answered with.
   */
  lemma EveryRunIsExact(env: Setting, start: Store, steps: seq<Step>, scope: Scope, id: StreamId)
    requires start.workers == map[] && AllExact(env, start)
    ensures var s := Execute(env, start, steps);
            ExactFor(env.lim, scope, id, s.seen, s.table, s.effects)
  {
    hide ExactFor;
    EveryRunKeepsInv(env, start, steps);
    assert AllExact(env, Execute(env, start, steps));
  }

  predicate SameStream(env: Setting, steps: seq<Step>, trace: Trace) {
    forall i :: 0 <= i < |steps| && steps[i].Start? ==> BatchTrace(env.lim, env.rules, steps[i].status) == trace
  }

  lemma {:induction false} SeenIsAnswered(env: Setting, start: Store, steps: seq<Step>, trace: Trace)
    requires SameStream(env, steps, trace) && forall t :: t in start.seen ==> t == trace
    ensures forall t :: t in Execute(env, start, steps).seen ==> t == trace
  {
    hide OutcomeOf, BatchTrace, RequestRun;
    if steps != [] {
      SeenIsAnswered(env, start, steps[..|steps| - 1], trace);
    }
  }

  /**
   If every worker is answered with one stream, the log is that stream's first records,
   through the durable checkpoint.
   */
  lemma OneStreamRunsAreExact(env: Setting, start: Store, steps: seq<Step>, trace: Trace, scope: Scope, id: StreamId)
    requires start.workers == map[] && AllExact(env, start) && start.seen == [] && SameStream(env, steps, trace)
    ensures OnStreamFor(env.lim, scope, id, trace, Execute(env, start, steps).table, Execute(env, start, steps).effects)
  {
    hide OnStream, Next, LogOf;
    EveryRunIsExact(env, start, steps, scope, id);
    SeenIsAnswered(env, start, steps, trace);
    NoLogIsOnStream(env.lim, id, trace);
  }

  lemma NoLogIsOnStream(lim: Limits, id: StreamId, trace: Trace)
    ensures OnStream(lim, id, trace, None, [])
  {
  }

  // ----- the replay branch -----

  /**
   A worker that stands at the record another has just committed finds it already
   applied: it moves on, and nothing is committed again.
   */
  lemma OvertakenWorkerReplays(env: Setting, s: Store, d: WorkerId, e: WorkerId, fate: Fate)
    requires Inv(env, s) && d != e && d in s.workers && e in s.workers
    requires var w, v := s.workers[d], s.workers[e];
             w.next < |w.items| && v.next < |v.items| && w.scope == v.scope && w.id == v.id
             && v.items[v.next] == w.items[w.next] && OutcomeOf(s, w, Commits).Applied?
    requires fate.Commits? || fate.EffectRaises?
    ensures var s1 := Next(env, s, ApplyNext(d, Commits));
            var s2 := Next(env, s1, ApplyNext(e, fate));
            && |s1.effects| == |s.effects| + 1
            && OutcomeOf(s1, s.workers[e], fate).AlreadyThere?
            && s2 == s1.(workers := s1.workers[e := s.workers[e].(next := s.workers[e].next + 1)])
  {
    hide AllExact, WorkerOk, Fresh, SaveOutcome;
  }

  // ----- the same steps on a session -----

  /** One transaction for one record, as a worker runs it. */
  method ApplyOnce(session: Session, scope: Scope, item: Item, fate: Fate) returns (result: ApplyResult)
    requires !session.active
    modifies session
    ensures !session.active
    ensures var key := KeyOf(scope, item.checkpoint);
            && result == ApplyOutcome(old(Lookup(session.table, key)), item, Plan(fate))
            && var applied := result.Applied? && !fate.CrashBeforeCommit?;
            && session.table == (if applied then old(session.table)[key := item.checkpoint] else old(session.table))
            && session.effects
               == old(session.effects) + (if applied then [Effect(key, item.checkpoint, item.record)] else [])
  {
    session.Begin();
    var cursor;
    result, cursor := Apply(session, scope, item, Plan(fate));
    if result.Applied? && !fate.CrashBeforeCommit? {
      session.Commit();
    } else {
      session.Rollback();
    }
  }

  /** Workers taking turns on a session, transaction by transaction, come to what the steps say. */
  method RunOnSession(env: Setting, session: Session, steps: seq<Step>,
                      ghost before: seq<Trace>) returns (workers: map<WorkerId, Worker>)
    requires !session.active
    modifies session
    ensures !session.active
    ensures var start := Store(old(session.table), old(session.effects), map[], before);
            var end := Execute(env, start, steps);
            session.table == end.table && session.effects == end.effects && workers == end.workers
  {
    hide RequestRun, BatchTrace, ApplyOutcome;
    ghost var start := Store(session.table, session.effects, map[], before);
    ghost var seen := before;
    workers := map[];
    for i := 0 to |steps|
      invariant !session.active
      invariant Execute(env, start, steps[..i]) == Store(session.table, session.effects, workers, seen)
    {
      assert steps[..i + 1][..i] == steps[..i];
      match steps[i] {
        case Start(d, scope, id, status) =>
          session.Begin();
          var durable := session.LoadInTransaction(RowKey(scope, id));
          session.Rollback();
          var items, ending := IterateCheckpointed(env.lim, env.rules, id, durable, status);
          assert items == RequestRun(env.lim, env.rules, id, durable, status).yielded;
          var trace := BatchTrace(env.lim, env.rules, status);
          workers := workers[d := Worker(scope, id, trace, durable, items, 0)];
          seen := seen + [trace];
        case ApplyNext(d, fate) =>
          if d in workers && workers[d].next < |workers[d].items| {
            var w := workers[d];
            var result := ApplyOnce(session, w.scope, w.items[w.next], fate);
            if fate.CrashBeforeCommit? || fate.CrashAfterCommit? {
              workers := workers - {d};
            } else if result.Applied? || result.AlreadyThere? {
              workers := workers[d := w.(next := w.next + 1)];
            }
          }
        case Die(d) => workers := workers - {d};
      }
    }
    assert steps[..|steps|] == steps;
  }
}
