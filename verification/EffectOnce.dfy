/**
 What callers must do for effects to be committed once. When applications and
 saves of one key do not overlap, and a transaction whose application failed past
 its effect is rolled back, nothing is repeated or abandoned; without that
 discipline an effect can be committed twice.
 */
module EffectOnce {
  import opened Bytes
  import opened CheckpointedStream
  import opened CheckpointDecisions
  import opened TransactionProtocol
  import opened CheckpointChain
  import opened EffectPairing
  import opened Runs

  function PcKey(pc: Pc): Option<Key> {
    if pc.Idle? then None else Some(pc.key)
  }

  /** A transaction uses a key while it is applying or saving there or holds its row lock. */
  predicate InUse(db: Db, id: TxnId, k: Key) {
    id in db.txns && (PcKey(db.txns[id].pc) == Some(k) || Holds(db, id, k))
  }

  predicate Serial(db: Db, id: TxnId, k: Key) {
    forall i :: i in db.txns && i != id ==> !InUse(db, i, k)
  }

  /** The caller's side of the contract: serial per key, and no commit after an application failed past its effect. */
  predicate Disciplined(db: Db, step: Step) {
    match step
    case StartSave(id, scope, candidate, _) => Serial(db, id, KeyOf(scope, candidate))
    case Load(id, scope, item) => Serial(db, id, KeyOf(scope, item.checkpoint))
    case Commit(id) => id in db.txns ==> db.txns[id].abandoned == []
    case _ => true
  }

  predicate DisciplinedRun(steps: seq<Step>) {
    steps == [] ||
    (DisciplinedRun(steps[..|steps| - 1]) && Disciplined(Execute(EMPTY, steps[..|steps| - 1]), steps[|steps| - 1]))
  }

  /** Nothing has been repeated, and the row an application relies on is still the one it loaded. */
  predicate OnceOk(db: Db, t: Txn) {
    t.repeats == [] &&
    match t.pc
    case Loaded(k, item, previous) => Visible(db, t, k) == previous && previous != Some(item.checkpoint)
    case Saving(k, c, e, pending) => pending != [] ==> Visible(db, t, k) == e && e != Some(c)
    case Inserting(k, _, _, _) => Visible(db, t, k).None?
    case Reselecting(_, _, _) => false
    case _ => true
  }

  ghost predicate Exclusive(db: Db) {
    forall i, j, k :: i != j && InUse(db, i, k) ==> !InUse(db, j, k)
  }

  ghost predicate OnceInv(db: Db) {
    && db.repeats == [] && db.abandoned == []
    && Exclusive(db)
    && (forall k :: k in db.locks ==> db.locks[k] in db.txns)
    && forall id :: id in db.txns ==> OnceOk(db, db.txns[id])
  }

  ghost predicate OwnUse(db: Db, db': Db, id: TxnId) {
    && OnlyOwn(db, db', id) && db'.repeats == db.repeats && db'.abandoned == db.abandoned
    && (forall k :: k in db'.locks && db'.locks[k] != id ==> k in db.locks && db.locks[k] == db'.locks[k])
    && (forall k, i :: InUse(db', id, k) && i != id ==> !InUse(db, i, k))
  }

  lemma OwnStepKeepsOnce(db: Db, db': Db, id: TxnId)
    requires OnceInv(db) && OwnUse(db, db', id)
    requires forall k :: k in db'.locks ==> db'.locks[k] in db'.txns
    requires id in db'.txns ==> OnceOk(db', db'.txns[id])
    ensures OnceInv(db')
  {
    forall i, j, k | i != j && InUse(db', i, k)
      ensures !InUse(db', j, k)
    {
      if i != id {
        assert InUse(db, i, k);
      }
      if j != id && InUse(db', j, k) {
        assert InUse(db, j, k);
      }
    }
    forall i | i in db'.txns && i != id
      ensures OnceOk(db', db'.txns[i])
    {
      assert OnceOk(db, db.txns[i]);
    }
  }

  lemma UseIsExclusive(db: Db, i: TxnId, j: TxnId, k: Key)
    requires OnceInv(db) && i != j && InUse(db, i, k)
    ensures !InUse(db, j, k)
  {
  }

  lemma TxnIsOnceOk(db: Db, id: TxnId)
    requires OnceInv(db) && id in db.txns
    ensures OnceOk(db, db.txns[id])
  {
  }

  /** A step of `id` that stays on keys it already uses. */
  lemma SameKeysKeepOnce(db: Db, id: TxnId, k: Option<Key>, t: Txn)
    requires OnceInv(db) && id in db.txns
    requires k.Some? ==> InUse(db, id, k.value) && !LockedByOther(db, id, k.value)
    requires PcKey(t.pc).Some? ==> PcKey(t.pc) == PcKey(db.txns[id].pc)
    requires OnceOk(if k.Some? then Lock(db, id, k.value) else db, t)
    ensures OnceInv(With(if k.Some? then Lock(db, id, k.value) else db, id, t))
  {
    var db' := With(if k.Some? then Lock(db, id, k.value) else db, id, t);
    forall key, i | InUse(db', id, key) && i != id
      ensures !InUse(db, i, key)
    {
      assert InUse(db, id, key);
    }
    OwnStepKeepsOnce(db, db', id);
  }

  lemma BeginKeepsOnce(db: Db, id: TxnId)
    requires OnceInv(db)
    ensures OnceInv(Next(db, Begin(id)))
  {
    if id !in db.txns {
      OwnStepKeepsOnce(db, With(db, id, FRESH), id);
    }
  }

  lemma RollbackKeepsOnce(db: Db, id: TxnId)
    requires OnceInv(db)
    ensures OnceInv(Released(db, id))
  {
    OwnStepKeepsOnce(db, Released(db, id), id);
  }

  /** A step onto a key that no other transaction uses. */
  lemma FreshKeyKeepsOnce(db: Db, id: TxnId, t: Txn)
    requires OnceInv(db) && id in db.txns && PcKey(t.pc).Some? && Serial(db, id, PcKey(t.pc).value) && OnceOk(db, t)
    ensures OnceInv(With(db, id, t))
  {
    hide OnceOk;
    var db' := With(db, id, t);
    TableDecides(db, db', t);
    forall key, i | InUse(db', id, key) && i != id
      ensures !InUse(db, i, key)
    {
      if key != PcKey(t.pc).value {
        assert InUse(db, id, key);
        UseIsExclusive(db, id, i, key);
      }
    }
    OwnStepKeepsOnce(db, db', id);
  }

  lemma TableDecides(db: Db, db': Db, t: Txn)
    requires db'.table == db.table
    ensures OnceOk(db, t) <==> OnceOk(db', t)
  {
  }

  lemma LoadKeepsOnce(db: Db, id: TxnId, t: Txn, scope: Scope, item: Item)
    requires OnceInv(db) && id in db.txns && db.txns[id] == t
    requires Serial(db, id, KeyOf(scope, item.checkpoint))
    ensures OnceInv(DoLoad(db, id, t, scope, item))
  {
    hide OnceInv, Serial;
    TxnIsOnceOk(db, id);
    var db' := DoLoad(db, id, t, scope, item);
    if db' != db {
      FreshKeyKeepsOnce(db, id, db'.txns[id]);
    }
  }

  lemma StartSaveKeepsOnce(db: Db, id: TxnId, t: Txn, scope: Scope, candidate: Checkpoint, expected: Option<Checkpoint>)
    requires OnceInv(db) && id in db.txns && db.txns[id] == t
    requires Serial(db, id, KeyOf(scope, candidate))
    ensures OnceInv(With(db, id, t.(pc := Saving(KeyOf(scope, candidate), candidate, expected, []))))
  {
    hide OnceInv, Visible, Serial;
    TxnIsOnceOk(db, id);
    FreshKeyKeepsOnce(db, id, t.(pc := Saving(KeyOf(scope, candidate), candidate, expected, [])));
  }

  lemma EffectKeepsOnce(db: Db, id: TxnId, t: Txn, outcome: EffectOutcome)
    requires OnceInv(db) && id in db.txns && db.txns[id] == t && t.pc.Loaded?
    ensures OnceInv(DoEffect(db, id, t, outcome))
  {
    hide OnceInv;
    TxnIsOnceOk(db, id);
    SameKeysKeepOnce(db, id, None, DoEffect(db, id, t, outcome).txns[id]);
  }

  lemma SelectKeepsOnce(db: Db, id: TxnId, t: Txn)
    requires OnceInv(db) && id in db.txns && db.txns[id] == t && t.pc.Saving?
    ensures OnceInv(DoSelect(db, id, t))
  {
    hide OnceInv;
    TxnIsOnceOk(db, id);
    var db' := DoSelect(db, id, t);
    if db' != db {
      SameKeysKeepOnce(db, id, if Visible(db, t, t.pc.key).Some? then Some(t.pc.key) else None, db'.txns[id]);
    }
  }

  lemma InsertKeepsOnce(db: Db, id: TxnId, t: Txn)
    requires OnceInv(db) && id in db.txns && db.txns[id] == t && t.pc.Inserting?
    ensures OnceInv(DoInsert(db, id, t))
  {
    hide OnceInv;
    TxnIsOnceOk(db, id);
    if !LockedByOther(db, id, t.pc.key) {
      SameKeysKeepOnce(db, id, Some(t.pc.key), DoInsert(db, id, t).txns[id]);
    }
  }

  lemma UpdateKeepsOnce(db: Db, id: TxnId, t: Txn)
    requires OnceInv(db) && id in db.txns && db.txns[id] == t && t.pc.Updating?
    ensures OnceInv(DoUpdate(db, id, t))
  {
    hide OnceInv;
    TxnIsOnceOk(db, id);
    SameKeysKeepOnce(db, id, None, DoUpdate(db, id, t).txns[id]);
  }

  /** Another application in progress works on a key the committing transaction did not write. */
  lemma OthersKeepOnce(db: Db, id: TxnId, i: TxnId)
    requires Inv(db) && OnceInv(db) && id in db.txns && i in db.txns && i != id
    ensures OnceOk(DoCommit(db, id, db.txns[id]), db.txns[i])
  {
    var t, u, db' := db.txns[id], db.txns[i], DoCommit(db, id, db.txns[id]);
    TxnIsOk(db, id);
    TxnIsOnceOk(db, i);
    if PcKey(u.pc).Some? {
      var k := PcKey(u.pc).value;
      assert InUse(db, i, k);
      assert !InUse(db, id, k);
      assert k !in Writes(t.history);
      assert Visible(db', u, k) == Visible(db, u, k);
    }
  }

  lemma CommitKeepsExclusive(db: Db, id: TxnId)
    requires OnceInv(db) && id in db.txns
    ensures Exclusive(DoCommit(db, id, db.txns[id]))
  {
    hide OnceInv, Writes;
    var db' := DoCommit(db, id, db.txns[id]);
    forall i, j, k | i != j && InUse(db', i, k)
      ensures !InUse(db', j, k)
    {
      assert InUse(db, i, k);
      UseIsExclusive(db, i, j, k);
      assert InUse(db', j, k) ==> InUse(db, j, k);
    }
  }

  lemma CommitKeepsOnce(db: Db, id: TxnId)
    requires Inv(db) && OnceInv(db) && id in db.txns && db.txns[id].pc.Idle? && db.txns[id].abandoned == []
    ensures OnceInv(DoCommit(db, id, db.txns[id]))
  {
    hide InUse, Inv, Writes, Exclusive;
    var t, db' := db.txns[id], DoCommit(db, id, db.txns[id]);
    TxnIsOnceOk(db, id);
    forall i | i in db'.txns
      ensures OnceOk(db', db'.txns[i])
    {
      OthersKeepOnce(db, id, i);
    }
    CommitKeepsExclusive(db, id);
  }

  lemma StepKeepsOnce(db: Db, step: Step)
    requires Inv(db) && OnceInv(db) && Disciplined(db, step)
    ensures OnceInv(Next(db, step))
  {
    hide OnceInv, Inv;
    if step.Begin? {
      BeginKeepsOnce(db, step.id);
    } else if step.id in db.txns {
      var id, t := step.id, db.txns[step.id];
      TxnIsOnceOk(db, id);
      match step
      case SelectForUpdate(_) => if t.pc.Saving? { SelectKeepsOnce(db, id, t); }
      case InsertRow(_) => if t.pc.Inserting? { InsertKeepsOnce(db, id, t); }
      case Reselect(_) =>
      case UpdateRow(_) => if t.pc.Updating? { UpdateKeepsOnce(db, id, t); }
      case Commit(_) => if t.pc.Idle? { CommitKeepsOnce(db, id); }
      case Rollback(_) => RollbackKeepsOnce(db, id);
      case Load(_, scope, item) => if t.pc.Idle? { LoadKeepsOnce(db, id, t, scope, item); }
      case StartSave(_, scope, candidate, expected) =>
        if t.pc.Idle? { StartSaveKeepsOnce(db, id, t, scope, candidate, expected); }
      case RunEffect(_, outcome) => if t.pc.Loaded? { EffectKeepsOnce(db, id, t, outcome); }
    }
  }

  lemma {:induction false} DisciplinedRunIsOnce(steps: seq<Step>)
    requires DisciplinedRun(steps)
    ensures OnceInv(Execute(EMPTY, steps))
  {
    hide OnceInv, Next, Inv, Disciplined;
    if steps == [] {
      NothingIsOnce();
    } else {
      var before := steps[..|steps| - 1];
      DisciplinedRunIsOnce(before);
      EveryRunIsSafe(before);
      StepKeepsOnce(Execute(EMPTY, before), steps[|steps| - 1]);
    }
  }

  lemma NothingIsOnce()
    ensures OnceInv(EMPTY)
  {
  }

  /** Applied writes keep their order, so along a key they advance like all writes. */
  lemma {:induction false} AppliedAdvance(h: seq<Write>, i: nat, j: nat)
    requires Legal(h, map[]) && i < j < |Applied(h)| && Applied(h)[i].key == Applied(h)[j].key
    ensures Applied(h)[i].value.recordCount < Applied(h)[j].value.recordCount
    ensures Applied(h)[i].value.batchLineCount < Applied(h)[j].value.batchLineCount
  {
    hide Legal;
    var n := |h| - 1;
    var before := Applied(h[..n]);
    LegalTake(h, map[], n);
    if j < |before| {
      AppliedAdvance(h[..n], i, j);
    } else {
      var m := AppliedIsWrite(h[..n], i);
      ChainRises(h, m, n);
    }
  }

  lemma {:induction false} AppliedIsWrite(h: seq<Write>, i: nat) returns (m: nat)
    requires i < |Applied(h)|
    ensures m < |h| && h[m] == Applied(h)[i]
  {
    var n := |h| - 1;
    m := n;
    if i < |Applied(h[..n])| {
      m := AppliedIsWrite(h[..n], i);
    }
  }

  /**
   For every interleaving that is serial per key and rolls failures back, direct
   saves included, committed effects correspond one to one and in order to the
   checkpoint advances of applications, and along a key their checkpoints rise
   strictly, so no record's effect is committed twice.
   */
  lemma EffectsAreCommittedOnce(steps: seq<Step>)
    requires DisciplinedRun(steps)
    ensures var db := Execute(EMPTY, steps);
            && Paired(db.effects, Applied(db.history))
            && OnceEach(db.effects)
            && forall i, j :: 0 <= i < j < |db.effects| && db.effects[i].key == db.effects[j].key ==>
                 && db.effects[i].checkpoint.recordCount < db.effects[j].checkpoint.recordCount
                 && db.effects[i].checkpoint.batchLineCount < db.effects[j].checkpoint.batchLineCount
  {
    hide Next, Inv, Legal, Applied, DisciplinedRun;
    DisciplinedRunIsOnce(steps);
    EveryRunIsSafe(steps);
    PairedIffNoneRepeatedOrAbandoned(steps);
    var db := Execute(EMPTY, steps);
    HistoryIsLegal(db);
    forall i, j | 0 <= i < j < |db.effects| && db.effects[i].key == db.effects[j].key
      ensures db.effects[i].checkpoint.recordCount < db.effects[j].checkpoint.recordCount
      ensures db.effects[i].checkpoint.batchLineCount < db.effects[j].checkpoint.batchLineCount
    {
      AppliedAdvance(db.history, i, j);
    }
  }

  lemma HistoryIsLegal(db: Db)
    requires Inv(db)
    ensures Legal(db.history, map[])
  {
  }

  // ----- the discipline is needed -----

  /** Two transactions apply the same record; both load before either commits. */
  function Overlap(scope: Scope, item: Item): seq<Step> {
    [Begin(1), Begin(2), Load(1, scope, item), Load(2, scope, item)]
    + [RunEffect(1, Returns), SelectForUpdate(1), InsertRow(1), Commit(1)]
    + [RunEffect(2, Returns), SelectForUpdate(2), Commit(2)]
  }

  lemma {:induction false} ExecuteIsRun(steps: seq<Step>)
    ensures Execute(EMPTY, steps) == Run(Next, EMPTY, steps)
  {
    hide Next;
    if steps != [] {
      ExecuteIsRun(steps[..|steps| - 1]);
    }
  }

  predicate Applicable(item: Item) {
    item.batchId == item.checkpoint.batchId && item.fileKind == item.checkpoint.fileKind && FitsBigint(item.checkpoint)
  }

  function BothLoaded(k: Key, item: Item): Db {
    var t := Txn(Loaded(k, item, None), [], [], [], []);
    Db(map[], [], [], [], [], map[1 := t, 2 := t], map[])
  }

  function OneCommitted(k: Key, item: Item): Db {
    Db(map[k := item.checkpoint], [Write(k, None, None, item.checkpoint, true)],
       [Effect(k, item.checkpoint, item.record)], [], [],
       map[2 := Txn(Loaded(k, item, None), [], [], [], [])], map[])
  }

  lemma FirstLoads(scope: Scope, item: Item)
    requires Applicable(item)
    ensures Run(Next, EMPTY, [Begin(1), Begin(2), Load(1, scope, item), Load(2, scope, item)])
            == BothLoaded(KeyOf(scope, item.checkpoint), item)
  {
    var k := KeyOf(scope, item.checkpoint);
    var idle, loaded := FRESH, Txn(Loaded(k, item, None), [], [], [], []);
    var d2 := Db(map[], [], [], [], [], map[1 := idle, 2 := idle], map[]);
    var d3 := Db(map[], [], [], [], [], map[1 := loaded, 2 := idle], map[]);
    assert Next(Next(EMPTY, Begin(1)), Begin(2)) == d2;
    assert Next(d2, Load(1, scope, item)).txns == d3.txns;
    assert Next(d3, Load(2, scope, item)).txns == BothLoaded(k, item).txns;
    RunFour(Next, EMPTY, [Begin(1), Begin(2), Load(1, scope, item), Load(2, scope, item)]);
  }

  lemma FirstCommits(scope: Scope, item: Item)
    requires Applicable(item)
    ensures var k := KeyOf(scope, item.checkpoint);
            Run(Next, BothLoaded(k, item), [RunEffect(1, Returns), SelectForUpdate(1), InsertRow(1), Commit(1)])
            == OneCommitted(k, item)
  {
    var k, c := KeyOf(scope, item.checkpoint), item.checkpoint;
    var other, e, w := Txn(Loaded(k, item, None), [], [], [], []), Effect(k, c, item.record),
        Write(k, None, None, c, true);
    var d1 := Db(map[], [], [], [], [], map[1 := Txn(Saving(k, c, None, [e]), [], [e], [], []), 2 := other], map[]);
    var d2 := Db(map[], [], [], [], [], map[1 := Txn(Inserting(k, c, None, [e]), [], [e], [], []), 2 := other], map[]);
    var d3 := Db(map[], [], [], [], [], map[1 := Txn(Idle, [w], [e], [], []), 2 := other], map[k := 1]);
    assert [] + [e] == [e] && [] + [w] == [w];
    assert Next(BothLoaded(k, item), RunEffect(1, Returns)).txns == d1.txns;
    assert Next(d1, SelectForUpdate(1)) == d2;
    assert Next(d2, InsertRow(1)).txns == d3.txns;
    FirstReleases(k, item);
    RunFour(Next, BothLoaded(k, item), [RunEffect(1, Returns), SelectForUpdate(1), InsertRow(1), Commit(1)]);
  }

  lemma FirstReleases(k: Key, item: Item)
    ensures var w, e := Write(k, None, None, item.checkpoint, true), Effect(k, item.checkpoint, item.record);
            Next(Db(map[], [], [], [], [],
                    map[1 := Txn(Idle, [w], [e], [], []), 2 := Txn(Loaded(k, item, None), [], [], [], [])],
                        map[k := 1]), Commit(1))
            == OneCommitted(k, item)
  {
    var w := Write(k, None, None, item.checkpoint, true);
    assert Writes([w]) == map[k := item.checkpoint];
  }

  lemma SecondRepeats(scope: Scope, item: Item)
    requires Applicable(item)
    ensures var k := KeyOf(scope, item.checkpoint);
            var e := Effect(k, item.checkpoint, item.record);
            Run(Next, OneCommitted(k, item), [RunEffect(2, Returns), SelectForUpdate(2), Commit(2)]).effects == [e, e]
            && Run(Next, OneCommitted(k, item), [RunEffect(2, Returns), SelectForUpdate(2), Commit(2)]).repeats == [e]
  {
    var k, c := KeyOf(scope, item.checkpoint), item.checkpoint;
    var e, d0 := Effect(k, c, item.record), OneCommitted(k, item);
    var d1 := d0.(txns := map[2 := Txn(Saving(k, c, None, [e]), [], [e], [], [])]);
    var d2 := d0.(txns := map[2 := Txn(Idle, [], [e], [e], [])], locks := map[k := 2]);
    assert [] + [e] == [e];
    assert Next(d0, RunEffect(2, Returns)).txns == d1.txns;
    assert Next(d1, SelectForUpdate(2)) == d2;
    RunThree(Next, d0, [RunEffect(2, Returns), SelectForUpdate(2), Commit(2)]);
  }

  /**
   At-most-once is not promised without the discipline: the save of an equal row
   succeeds, so two overlapping applications of one record both commit its effect.
   */
  lemma OverlappingApplicationsRepeatTheEffect(scope: Scope, item: Item)
    requires Applicable(item)
    ensures var e := Effect(KeyOf(scope, item.checkpoint), item.checkpoint, item.record);
            Execute(EMPTY, Overlap(scope, item)).effects == [e, e]
            && Execute(EMPTY, Overlap(scope, item)).repeats == [e]
    ensures !DisciplinedRun(Overlap(scope, item))
  {
    var k := KeyOf(scope, item.checkpoint);
    var a := [Begin(1), Begin(2), Load(1, scope, item), Load(2, scope, item)];
    var b := [RunEffect(1, Returns), SelectForUpdate(1), InsertRow(1), Commit(1)];
    var c := [RunEffect(2, Returns), SelectForUpdate(2), Commit(2)];
    FirstLoads(scope, item);
    FirstCommits(scope, item);
    SecondRepeats(scope, item);
    RunAppend(Next, EMPTY, a, b);
    RunAppend(Next, EMPTY, a + b, c);
    ExecuteIsRun(a + b + c);
    var effects := Execute(EMPTY, a + b + c).effects;
    assert effects[0] == effects[1];
    if DisciplinedRun(a + b + c) {
      EffectsAreCommittedOnce(a + b + c);
    }
  }
}
