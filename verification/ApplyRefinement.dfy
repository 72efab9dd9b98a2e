/**
 The application step as a caller sees it and as single SQL statements: on a key
 that no other transaction has locked, the statements of one application leave
 exactly what the step and the caller's commit or rollback leave.
 */
module ApplyRefinement {
  import opened Bytes
  import opened CheckpointedStream
  import opened CheckpointDecisions
  import opened TransactionProtocol
  import opened ResultApplication
  import opened Runs

  /** One application, statement by statement; those that its outcome never reaches change nothing. */
  function Statements(id: TxnId, scope: Scope, item: Item, plan: EffectOutcome): seq<Step> {
    [Begin(id), Load(id, scope, item), RunEffect(id, plan)] + [SelectForUpdate(id), InsertRow(id), UpdateRow(id)]
  }

  /** The caller commits what was applied and rolls anything else back. */
  function Ending(id: TxnId, outcome: ApplyResult): Step {
    if outcome.Applied? then Commit(id) else Rollback(id)
  }

  /** A new transaction id, on a key that no other transaction has locked. */
  predicate Unused(db: Db, id: TxnId, key: Key) {
    id !in db.txns && (forall k :: k in db.locks ==> db.locks[k] != id) && key !in db.locks
  }

  lemma LoadDecides(db: Db, id: TxnId, scope: Scope, item: Item)
    requires Unused(db, id, KeyOf(scope, item.checkpoint))
    ensures var key := KeyOf(scope, item.checkpoint);
            var row, begun := Lookup(db.table, key), Next(db, Begin(id));
            && begun == With(db, id, FRESH)
            && Next(begun, Load(id, scope, item))
               == if AfterLoad(row, item).Proceed? then With(db, id, FRESH.(pc := Loaded(key, item, row))) else begun
  {
    hide AfterLoad;
    assert db.table + map[] == db.table;
    var key := KeyOf(scope, item.checkpoint);
    var begun := With(db, id, FRESH);
    assert Visible(begun, FRESH, key) == Lookup(db.table, key);
    assert begun.txns[id := FRESH.(pc := Loaded(key, item, Lookup(db.table, key)))]
           == db.txns[id := FRESH.(pc := Loaded(key, item, Lookup(db.table, key)))];
  }

  /** An idle transaction without writes passes over every statement that needs another state, and leaves no trace. */
  lemma IdleRollsBack(db: Db, id: TxnId, key: Key, t: Txn)
    requires Unused(db, id, key) && t.pc.Idle?
    ensures var open := With(db, id, t);
            && Next(open, SelectForUpdate(id)) == open && Next(open, InsertRow(id)) == open
               && Next(open, UpdateRow(id)) == open
            && (forall plan :: Next(open, RunEffect(id, plan)) == open)
            && Next(open, Rollback(id)).table == db.table && Next(open, Rollback(id)).effects == db.effects
            && Next(open, Rollback(id)).txns == db.txns && Next(open, Rollback(id)).locks == db.locks
  {
  }

  function SaverAt(pc: Pc, effect: Effect): Txn {
    Txn(pc, [], [effect], [], [])
  }

  /** A save of a record that passed the checks goes on to insert or to update. */
  lemma SelectChooses(db: Db, id: TxnId, key: Key, item: Item, effect: Effect)
    requires Unused(db, id, key) && AfterLoad(Lookup(db.table, key), item).Proceed?
    ensures var row, c := Lookup(db.table, key), item.checkpoint;
            Next(With(db, id, SaverAt(Saving(key, c, row, [effect]), effect)), SelectForUpdate(id))
            == if row.None? then With(db, id, SaverAt(Inserting(key, c, row, [effect]), effect))
               else With(Lock(db, id, key), id, SaverAt(Updating(key, c, row, row.value, [effect]), effect))
  {
    var row, c := Lookup(db.table, key), item.checkpoint;
    var t := SaverAt(Saving(key, c, row, [effect]), effect);
    var saving := With(db, id, t);
    assert db.table + map[] == db.table;
    assert Visible(saving, t, key) == row;
    assert AfterSelect(row, c, row) == if row.None? then Insert else Update;
    assert Next(saving, SelectForUpdate(id)).txns
           == db.txns[id := SaverAt(if row.None? then Inserting(key, c, row, [effect])
                                    else Updating(key, c, row, row.value, [effect]), effect)];
  }

  function SaverDone(w: Write, effect: Effect): Txn {
    Txn(Idle, [w], [effect], [], [])
  }

  lemma InsertWrites(db: Db, id: TxnId, key: Key, c: Checkpoint, effect: Effect)
    requires Unused(db, id, key) && key !in db.table
    ensures var done := With(Lock(db, id, key), id, SaverDone(Write(key, None, None, c, true), effect));
            && Next(With(db, id, SaverAt(Inserting(key, c, None, [effect]), effect)), InsertRow(id)) == done
            && Next(done, UpdateRow(id)) == done
  {
    var w := Write(key, None, None, c, true);
    assert [] + [w] == [w];
    assert Next(With(db, id, SaverAt(Inserting(key, c, None, [effect]), effect)), InsertRow(id)).txns
           == db.txns[id := SaverDone(w, effect)];
  }

  lemma UpdateWrites(db: Db, id: TxnId, key: Key, former: Checkpoint, c: Checkpoint, effect: Effect)
    requires Unused(db, id, key)
    ensures var pc := Updating(key, c, Some(former), former, [effect]);
            var updating := With(Lock(db, id, key), id, SaverAt(pc, effect));
            && Next(updating, InsertRow(id)) == updating
            && Next(updating, UpdateRow(id))
               == With(Lock(db, id, key), id, SaverDone(Write(key, Some(former), Some(former), c, true), effect))
  {
    var w := Write(key, Some(former), Some(former), c, true);
    var updating := With(Lock(db, id, key), id, SaverAt(Updating(key, c, Some(former), former, [effect]), effect));
    assert [] + [w] == [w];
    assert Next(updating, UpdateRow(id)).txns == db.txns[id := SaverDone(w, effect)];
  }

  /** Once the effect has returned, the save inserts the row or updates it. */
  lemma SaveWrites(db: Db, id: TxnId, key: Key, item: Item, effect: Effect)
    requires Unused(db, id, key) && AfterLoad(Lookup(db.table, key), item).Proceed?
    ensures var row := Lookup(db.table, key);
            var saving := With(db, id, SaverAt(Saving(key, item.checkpoint, row, [effect]), effect));
            Next(Next(Next(saving, SelectForUpdate(id)), InsertRow(id)), UpdateRow(id))
            == With(Lock(db, id, key), id, SaverDone(Write(key, row, row, item.checkpoint, true), effect))
  {
    hide Next, With, Lock, SaverAt, SaverDone, AfterLoad, Unused;
    SelectChooses(db, id, key, item, effect);
    KeyOfLookup(db, key);
    if key in db.table {
      UpdateWrites(db, id, key, db.table[key], item.checkpoint, effect);
    } else {
      InsertWrites(db, id, key, item.checkpoint, effect);
    }
  }

  lemma KeyOfLookup(db: Db, key: Key)
    ensures Lookup(db.table, key) == if key in db.table then Some(db.table[key]) else None
  {
  }

  lemma CommitPublishes(db: Db, id: TxnId, key: Key, w: Write, effect: Effect)
    requires Unused(db, id, key) && w.key == key
    ensures var after := Next(With(Lock(db, id, key), id, SaverDone(w, effect)), Commit(id));
            && after.table == db.table[key := w.value] && after.effects == db.effects + [effect]
            && after.txns == db.txns && after.locks == db.locks
  {
    assert [w][..0] == [] && Writes([w]) == map[key := w.value];
  }

  lemma RunStatements(db: Db, id: TxnId, scope: Scope, item: Item, plan: EffectOutcome)
    ensures var loaded := Next(Next(db, Begin(id)), Load(id, scope, item));
            Run(Next, db, Statements(id, scope, item, plan))
            == Next(Next(Next(Next(loaded, RunEffect(id, plan)), SelectForUpdate(id)), InsertRow(id)), UpdateRow(id))
  {
    hide Next;
    var a, b := [Begin(id), Load(id, scope, item), RunEffect(id, plan)],
        [SelectForUpdate(id), InsertRow(id), UpdateRow(id)];
    RunAppend(Next, db, a, b);
    RunThree(Next, db, a);
    RunThree(Next, Run(Next, db, a), b);
  }

  /** What the effect leaves: a save to make, or an idle transaction whose application has ended. */
  lemma EffectDecides(db: Db, id: TxnId, key: Key, item: Item, plan: EffectOutcome)
    requires Unused(db, id, key)
    ensures var row, e := Lookup(db.table, key), Effect(key, item.checkpoint, item.record);
            var after := Next(With(db, id, FRESH.(pc := Loaded(key, item, row))), RunEffect(id, plan));
            if plan.Returns? && SaveAccepted(item.checkpoint, row)
            then after == With(db, id, SaverAt(Saving(key, item.checkpoint, row, [e]), e))
            else id in after.txns && after.txns[id].pc.Idle? && after == With(db, id, after.txns[id])
  {
    hide SaveAccepted;
    var row, e := Lookup(db.table, key), Effect(key, item.checkpoint, item.record);
    var open := With(db, id, FRESH.(pc := Loaded(key, item, row)));
    assert [] + [e] == [e];
    var after := Next(open, RunEffect(id, plan));
    assert after.txns == db.txns[id := after.txns[id]];
  }

  /**
   For every record, plan and committed state, the statements followed by the
   caller's commit or rollback leave the table and the effects that the application
   step followed by the same leaves, and no lock and no transaction.
   */
  lemma StatementsDoWhatApplyDoes(db: Db, id: TxnId, scope: Scope, item: Item, plan: EffectOutcome)
    requires Unused(db, id, KeyOf(scope, item.checkpoint))
    ensures var key := KeyOf(scope, item.checkpoint);
            var outcome := ApplyOutcome(Lookup(db.table, key), item, plan);
            var after := Next(Run(Next, db, Statements(id, scope, item, plan)), Ending(id, outcome));
            && after.table == (if outcome.Applied? then db.table[key := item.checkpoint] else db.table)
            && after.effects == db.effects
               + (if outcome.Applied? then [Effect(key, item.checkpoint, item.record)] else [])
            && after.txns == db.txns && after.locks == db.locks
  {
    hide Next, SaveAccepted, AfterLoad, With, Lock, SaverAt, SaverDone;
    var key, c := KeyOf(scope, item.checkpoint), item.checkpoint;
    var row, e := Lookup(db.table, key), Effect(key, c, item.record);
    RunStatements(db, id, scope, item, plan);
    LoadDecides(db, id, scope, item);
    if !AfterLoad(row, item).Proceed? {
      IdleRollsBack(db, id, key, FRESH);
      assert !ApplyOutcome(row, item, plan).Applied?;
    } else {
      EffectDecides(db, id, key, item, plan);
      ProceedingSaves(row, item, scope);
      if plan.Returns? && SaveAccepted(c, row) {
        SaveWrites(db, id, key, item, e);
        CommitPublishes(db, id, key, Write(key, row, row, c, true), e);
      } else {
        var after := Next(With(db, id, FRESH.(pc := Loaded(key, item, row))), RunEffect(id, plan));
        IdleRollsBack(db, id, key, after.txns[id]);
      }
    }
    assert db.effects + [] == db.effects;
  }

  /** What passes the checks after the load is saved if the save accepts its arguments. */
  lemma ProceedingSaves(row: Option<Checkpoint>, item: Item, scope: Scope)
    requires AfterLoad(row, item).Proceed?
    ensures SaveOutcome(row, item.checkpoint, row).Saved? <==> SaveAccepted(item.checkpoint, row)
  {
  }
}
