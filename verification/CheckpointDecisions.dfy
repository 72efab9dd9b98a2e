/**
 The pure decisions of the checkpoint store's compare-and-swap and of the
 application step, shared by the sequential code and by the protocol model.
 */
module CheckpointDecisions {
  import opened Bytes
  import opened CheckpointedStream
  import opened CheckpointOrder

  /** The unique key of a durable checkpoint row. */
  datatype Key = Key(tenant: Text, consumer: Text, endpointAlias: Text, batchId: Text)

  /** A consumer of results within a trusted tenant. */
  datatype Scope = Scope(tenant: Text, consumer: Text)

  function KeyOf(scope: Scope, c: Checkpoint): Key {
    Key(scope.tenant, scope.consumer, c.endpointAlias, c.batchId)
  }

  function Lookup(m: map<Key, Checkpoint>, k: Key): Option<Checkpoint> {
    if k in m then Some(m[k]) else None
  }

  predicate FitsBigint(c: Checkpoint) {
    c.fileLineNumber <= POSTGRES_BIGINT_MAX && c.batchLineCount <= POSTGRES_BIGINT_MAX
    && c.recordCount <= POSTGRES_BIGINT_MAX
  }

  /** The arguments `save_in_transaction` accepts before it touches the table. */
  predicate SaveAccepted(candidate: Checkpoint, expected: Option<Checkpoint>) {
    && FitsBigint(candidate)
    && (expected.Some? ==>
          && FitsBigint(expected.value)
          && expected.value.batchId == candidate.batchId
          && expected.value.endpointAlias == candidate.endpointAlias)
  }

  /** Both the record count and the physical line count rise strictly. */
  predicate Advances(before: Checkpoint, after: Checkpoint) {
    before.recordCount < after.recordCount && before.batchLineCount < after.batchLineCount
  }

  datatype Conflict = ExpectedPreviousMissing | InitialCheckpointRace | ExpectedPreviousStale | CheckpointRegression

  datatype SaveDecision = Insert | Keep | Update | Refuse(reason: Conflict)

  /** What to do once the row has been selected for update. */
  function AfterSelect(row: Option<Checkpoint>, candidate: Checkpoint, expected: Option<Checkpoint>): SaveDecision {
    match row
    case None => if expected.Some? then Refuse(ExpectedPreviousMissing) else Insert
    case Some(durable) =>
      if durable == candidate then Keep
      else if expected != Some(durable) then Refuse(ExpectedPreviousStale)
      else if !Advances(durable, candidate) then Refuse(CheckpointRegression)
      else Update
  }

  datatype ApplyDecision = InvalidItem | ForeignPredecessor | AlreadyApplied | Regression | Proceed

  /** What the application step does once it has loaded the durable predecessor. */
  function AfterLoad(previous: Option<Checkpoint>, item: Item): ApplyDecision {
    var c := item.checkpoint;
    if item.batchId != c.batchId || item.fileKind != c.fileKind then InvalidItem
    else match previous
      case None => Proceed
      case Some(p) =>
        if p.batchId != c.batchId || p.endpointAlias != c.endpointAlias || p.fileKind != c.fileKind
            || p.fileId != c.fileId
        then ForeignPredecessor
        else if p == c then AlreadyApplied
        else if !Advances(p, c) then Regression
        else Proceed
  }
}
