/**
 Applying checkpointed results in the caller's transaction, statement by
 statement, for transactions that are serial per key. Races between
 transactions are the subject of TransactionProtocol.
 */
module ResultApplication {
  import opened Bytes
  import opened CheckpointedStream
  import opened CheckpointDecisions
  import opened TransactionProtocol

  datatype SaveResult = Saved(checkpoint: Checkpoint) | Conflicted(reason: Conflict) | InvalidCheckpoint

  /** What a save does to the row it found. */
  function SaveOutcome(row: Option<Checkpoint>, candidate: Checkpoint, expected: Option<Checkpoint>): SaveResult {
    if !SaveAccepted(candidate, expected) then InvalidCheckpoint
    else match AfterSelect(row, candidate, expected)
      case Refuse(reason) => Conflicted(reason)
      case _ => Saved(candidate)
  }

  datatype ApplyResult =
    | Applied | AlreadyThere | Declined(why: ApplyDecision)
    | EffectFailed | SaveFailed(result: SaveResult)

  function ApplyOutcome(row: Option<Checkpoint>, item: Item, plan: EffectOutcome): ApplyResult {
    match AfterLoad(row, item)
    case AlreadyApplied => AlreadyThere
    case Proceed =>
      if !plan.Returns? then EffectFailed
      else if SaveOutcome(row, item.checkpoint, row).Saved? then Applied
      else SaveFailed(SaveOutcome(row, item.checkpoint, row))
    case why => Declined(why)
  }

  /** A count that a `BIGINT` column cannot hold. */
  predicate OutOfRange(c: Checkpoint) {
    || c.fileLineNumber > 0x7FFF_FFFF_FFFF_FFFF || c.batchLineCount > 0x7FFF_FFFF_FFFF_FFFF
    || c.recordCount > 0x7FFF_FFFF_FFFF_FFFF
  }

  /** The candidate or the expected predecessor does not fit its columns, or they are of different streams. */
  predicate Unsavable(candidate: Checkpoint, expected: Option<Checkpoint>) {
    || OutOfRange(candidate)
    || (expected.Some? && (|| OutOfRange(expected.value) || expected.value.batchId != candidate.batchId
                           || expected.value.endpointAlias != candidate.endpointAlias))
  }

  /**
   There is no row and none was expected, or it is the candidate already, or it is the one
   expected and its record and line counts are both below the candidate's.
   */
  predicate Succeeds(row: Option<Checkpoint>, candidate: Checkpoint, expected: Option<Checkpoint>) {
    || (row.None? && expected.None?)
    || row == Some(candidate)
    || (row.Some? && expected == row && row.value.recordCount < candidate.recordCount
        && row.value.batchLineCount < candidate.batchLineCount)
  }

  /** Each answer of a save has its own cause. */
  lemma SaveMeans(row: Option<Checkpoint>, candidate: Checkpoint, expected: Option<Checkpoint>)
    ensures var result := SaveOutcome(row, candidate, expected);
            && (result.InvalidCheckpoint? <==> Unsavable(candidate, expected))
            && (result.Saved? <==> !Unsavable(candidate, expected) && Succeeds(row, candidate, expected))
            && (result == Conflicted(ExpectedPreviousMissing) <==>
                  !Unsavable(candidate, expected) && row.None? && expected.Some?)
            && (result == Conflicted(ExpectedPreviousStale) <==>
                  !Unsavable(candidate, expected) && row.Some? && row.value != candidate && expected != row)
            && (result == Conflicted(CheckpointRegression) <==>
                  !Unsavable(candidate, expected) && row.Some? && row.value != candidate && expected == row
                  && (|| row.value.recordCount >= candidate.recordCount
                      || row.value.batchLineCount >= candidate.batchLineCount))
            && result != Conflicted(InitialCheckpointRace)
            && (result.Saved? ==> result.checkpoint == candidate)
  {
  }

  /** The checkpoint and the item it belongs to name one batch and one file kind. */
  predicate Consistent(item: Item) {
    item.batchId == item.checkpoint.batchId && item.fileKind == item.checkpoint.fileKind
  }

  /** The row belongs to another batch, endpoint or file. */
  predicate OfAnotherFile(p: Checkpoint, c: Checkpoint) {
    p.batchId != c.batchId || p.endpointAlias != c.endpointAlias || p.fileKind != c.fileKind || p.fileId != c.fileId
  }

  /** Nothing speaks against the effect: the item is consistent and the row, if any, is an earlier one of its file. */
  predicate Applicable(row: Option<Checkpoint>, item: Item) {
    && Consistent(item)
    && (row.Some? ==>
          && !OfAnotherFile(row.value, item.checkpoint)
          && row.value.recordCount < item.checkpoint.recordCount
          && row.value.batchLineCount < item.checkpoint.batchLineCount)
  }

  /** Each answer of an application has its own cause. */
  lemma ApplyMeans(row: Option<Checkpoint>, item: Item, plan: EffectOutcome)
    ensures var result, c := ApplyOutcome(row, item, plan), item.checkpoint;
            && (result == Declined(InvalidItem) <==> !Consistent(item))
            && (result == Declined(ForeignPredecessor) <==>
                 Consistent(item) && row.Some? && OfAnotherFile(row.value, c))
            && (result.AlreadyThere? <==> Consistent(item) && row == Some(c))
            && (result == Declined(Regression) <==>
                  Consistent(item) && row.Some? && !OfAnotherFile(row.value, c) && row.value != c
                  && (row.value.recordCount >= c.recordCount || row.value.batchLineCount >= c.batchLineCount))
            && (result.EffectFailed? <==> Applicable(row, item) && !plan.Returns?)
            && (result.Applied? <==> Applicable(row, item) && plan.Returns? && !Unsavable(c, row))
            && (result.SaveFailed? <==> Applicable(row, item) && plan.Returns? && Unsavable(c, row))
            && (result.SaveFailed? ==> result.result.InvalidCheckpoint?)
  {
  }

  /** One database session: committed state, and the state inside the open transaction. */
  class Session {
    var table: Table
    var effects: seq<Effect>
    var workTable: Table
    var workEffects: seq<Effect>
    var active: bool

    constructor ()
      ensures table == map[] && effects == [] && !active
    {
      table, effects, workTable, workEffects, active := map[], [], map[], [], false;
    }

    method Begin()
      requires !active
      modifies this
      ensures active && workTable == table && workEffects == effects
      ensures table == old(table) && effects == old(effects)
    {
      active, workTable, workEffects := true, table, effects;
    }

    method Commit()
      requires active
      modifies this
      ensures !active && table == old(workTable) && effects == old(workEffects)
    {
      active, table, effects := false, workTable, workEffects;
    }

    /** Also what a lost connection or a crash before commit amounts to. */
    method Rollback()
      requires active
      modifies this
      ensures !active && table == old(table) && effects == old(effects)
    {
      active := false;
    }

    method LoadInTransaction(key: Key) returns (row: Option<Checkpoint>)
      requires active
      ensures row == Lookup(workTable, key)
    {
      row := Lookup(workTable, key);
    }

    /** Compare and swap: the row ends up holding the candidate exactly when the save reports success. */
    method SaveInTransaction(scope: Scope, candidate: Checkpoint,
                             expected: Option<Checkpoint>) returns (result: SaveResult)
      requires active
      modifies `workTable
      ensures result == SaveOutcome(old(Lookup(workTable, KeyOf(scope, candidate))), candidate, expected)
      ensures result.InvalidCheckpoint? <==> Unsavable(candidate, expected)
      ensures result.Saved? <==> !Unsavable(candidate, expected)
                                 && Succeeds(old(Lookup(workTable, KeyOf(scope, candidate))), candidate, expected)
      ensures var row := old(Lookup(workTable, KeyOf(scope, candidate)));
              result.Conflicted? ==>
                && (result.reason == ExpectedPreviousMissing <==> row.None?)
                && (result.reason == ExpectedPreviousStale <==> row.Some? && expected != row)
                && (result.reason == CheckpointRegression <==> row.Some? && expected == row)
      ensures result.Saved? ==>
                workTable
                == old(workTable)[Key(scope.tenant, scope.consumer, candidate.endpointAlias, candidate.batchId) :=
                   candidate]
      ensures !result.Saved? ==> workTable == old(workTable)
    {
      if !SaveAccepted(candidate, expected) {
        return InvalidCheckpoint;
      }
      var key := KeyOf(scope, candidate);
      var row := LoadInTransaction(key);
      match AfterSelect(row, candidate, expected)
      case Insert =>
        workTable := workTable[key := candidate];
        result := Saved(candidate);
      case Keep =>
        assert workTable[key := candidate] == workTable;
        result := Saved(row.value);
      case Update =>
        workTable := workTable[key := candidate];
        result := Saved(candidate);
      case Refuse(reason) =>
        result := Conflicted(reason);
    }
  }

  /** The statement authority lent to the record callback; it is revoked when the callback ends. */
  class ScopedCursor {
    const session: Session
    var usable: bool

    constructor (session: Session)
      ensures this.session == session && usable
    {
      this.session, usable := session, true;
    }

    method Revoke()
      modifies this
      ensures !usable
    {
      usable := false;
    }

    /** A revoked cursor cannot reach the session. */
    method Execute(effect: Effect) returns (ok: bool)
      modifies session`workEffects
      ensures ok <==> usable
      ensures session.workEffects == if usable then old(session.workEffects) + [effect] else old(session.workEffects)
    {
      ok := usable;
      if usable {
        session.workEffects := session.workEffects + [effect];
      }
    }
  }

  /** The caller's record callback, which may raise before or after it has written. */
  method Callback(cursor: ScopedCursor, effect: Effect, plan: EffectOutcome) returns (returned: bool)
    requires cursor.usable
    modifies cursor.session`workEffects
    ensures returned <==> plan.Returns?
    ensures cursor.session.workEffects
            == old(cursor.session.workEffects) + if plan.RaisesUntouched? then [] else [effect]
  {
    if !plan.RaisesUntouched? {
      var _ := cursor.Execute(effect);
    } else {
      assert cursor.session.workEffects == cursor.session.workEffects + [];
    }
    returned := plan.Returns?;
  }

  /**
   Loads the predecessor, runs the effect through a revocable cursor and
   advances the checkpoint, all in the open transaction.
   */
  method Apply(session: Session, scope: Scope, item: Item, plan: EffectOutcome)
    returns (result: ApplyResult, cursor: ScopedCursor?)
    requires session.active
    modifies session`workTable, session`workEffects
    ensures result == ApplyOutcome(old(Lookup(session.workTable, KeyOf(scope, item.checkpoint))), item, plan)
    ensures result.Applied? <==>
              && Applicable(old(Lookup(session.workTable, KeyOf(scope, item.checkpoint))), item) && plan.Returns?
              && !Unsavable(item.checkpoint, old(Lookup(session.workTable, KeyOf(scope, item.checkpoint))))
    ensures result.AlreadyThere? <==>
              Consistent(item) && old(Lookup(session.workTable, KeyOf(scope, item.checkpoint))) == Some(item.checkpoint)
    ensures result.Applied? ==>
              var key := KeyOf(scope, item.checkpoint);
              && session.workTable == old(session.workTable)[key := item.checkpoint]
              && session.workEffects == old(session.workEffects) + [Effect(key, item.checkpoint, item.record)]
    ensures !result.Applied? ==> session.workTable == old(session.workTable)
    ensures result.AlreadyThere? || result.Declined? ==> session.workEffects == old(session.workEffects)
    ensures cursor != null ==> fresh(cursor) && !cursor.usable && cursor.session == session
  {
    cursor := null;
    var key := KeyOf(scope, item.checkpoint);
    var previous := session.LoadInTransaction(key);
    match AfterLoad(previous, item) {
      case AlreadyApplied => return AlreadyThere, null;
      case Proceed =>
      case why => return Declined(why), null;
    }
    cursor := new ScopedCursor(session);
    var returned := Callback(cursor, Effect(key, item.checkpoint, item.record), plan);
    cursor.Revoke();
    if !returned {
      return EffectFailed, cursor;
    }
    var saved := session.SaveInTransaction(scope, item.checkpoint, previous);
    if !saved.Saved? {
      return SaveFailed(saved), cursor;
    }
    result := Applied;
  }
}
