/**
 Concurrent READ COMMITTED transactions over the checkpoint table. Every SQL
 statement is one atomic step; row locks are held to the end of the
 transaction; an INSERT waits for another transaction's uncommitted insert of
 the same key. A refused save, declined record or failed effect leaves its
 transaction open, and the caller may go on with it, commit it or roll it back. A
 step that is not enabled, or that would block, leaves the state unchanged, so
 any list of steps is an interleaving.
 */
module TransactionProtocol {
  import opened Bytes
  import opened LineStream
  import opened CheckpointedStream
  import opened CheckpointDecisions

  type Table = map<Key, Checkpoint>

  /**
   One row write: the value it replaced, the predecessor the caller expected, the
   value written, and whether it completes an application or is a direct save.
   */
  datatype Write = Write(key: Key, replaced: Option<Checkpoint>, expected: Option<Checkpoint>, value: Checkpoint,
                         applied: bool)

  /** One business effect, as the caller's record callback leaves it behind. */
  datatype Effect = Effect(key: Key, checkpoint: Checkpoint, record: JsonObject)

  /** Where a transaction stands. A save carries the effect that waits for it, or none when it is a direct save. */
  datatype Pc =
    | Idle
    | Loaded(key: Key, item: Item, previous: Option<Checkpoint>)
    | Saving(key: Key, candidate: Checkpoint, expected: Option<Checkpoint>, pending: seq<Effect>)
    | Inserting(key: Key, candidate: Checkpoint, expected: Option<Checkpoint>, pending: seq<Effect>)
    | Reselecting(key: Key, candidate: Checkpoint, pending: seq<Effect>)
    | Updating(key: Key, candidate: Checkpoint, expected: Option<Checkpoint>, durable: Checkpoint, pending: seq<Effect>)

  /**
   An open transaction. `repeats` are its effects whose save found the candidate
   already durable, `abandoned` those whose application then failed; no step looks
   at either.
   */
  datatype Txn = Txn(pc: Pc, history: seq<Write>, effects: seq<Effect>, repeats: seq<Effect>, abandoned: seq<Effect>)

  const FRESH: Txn := Txn(Idle, [], [], [], [])

  type TxnId = nat

  datatype Db = Db(
    table: Table, history: seq<Write>, effects: seq<Effect>, repeats: seq<Effect>, abandoned: seq<Effect>,
    txns: map<TxnId, Txn>, locks: map<Key, TxnId>)

  const EMPTY: Db := Db(map[], [], [], [], [], map[], map[])

  /** What a list of writes leaves in the rows it touches. */
  function Writes(h: seq<Write>): Table {
    if h == [] then map[] else Writes(h[..|h| - 1])[h[|h| - 1].key := h[|h| - 1].value]
  }

  /** A transaction sees its own writes first and committed rows otherwise. */
  function Visible(db: Db, t: Txn, k: Key): Option<Checkpoint> {
    Lookup(db.table + Writes(t.history), k)
  }

  predicate LockedByOther(db: Db, id: TxnId, k: Key) {
    k in db.locks && db.locks[k] != id
  }

  datatype EffectOutcome = Returns | RaisesUntouched | RaisesAfterWriting

  datatype Step =
    | Begin(id: TxnId)
    | Load(id: TxnId, scope: Scope, item: Item)
    | RunEffect(id: TxnId, outcome: EffectOutcome)
    | StartSave(id: TxnId, scope: Scope, candidate: Checkpoint, expected: Option<Checkpoint>)
    | SelectForUpdate(id: TxnId)
    | InsertRow(id: TxnId)
    | Reselect(id: TxnId)
    | UpdateRow(id: TxnId)
    | Commit(id: TxnId)
    | Rollback(id: TxnId)

  function With(db: Db, id: TxnId, t: Txn): Db {
    db.(txns := db.txns[id := t])
  }

  function Lock(db: Db, id: TxnId, k: Key): Db {
    db.(locks := db.locks[k := id])
  }

  /** Ends a transaction and gives up its locks. */
  function Released(db: Db, id: TxnId): Db {
    db.(txns := map i | i in db.txns && i != id :: db.txns[i],
        locks := map k | k in db.locks && db.locks[k] != id :: db.locks[k])
  }

  // ----- how an application or a save ends; the transaction stays open and may go on -----

  function Wrote(t: Txn, w: Write): Txn {
    t.(pc := Idle, history := t.history + [w])
  }

  function FoundDurable(t: Txn, pending: seq<Effect>): Txn {
    t.(pc := Idle, repeats := t.repeats + pending)
  }

  function GaveUp(t: Txn, pending: seq<Effect>): Txn {
    t.(pc := Idle, abandoned := t.abandoned + pending)
  }

  function DoLoad(db: Db, id: TxnId, t: Txn, scope: Scope, item: Item): Db {
    var key := KeyOf(scope, item.checkpoint);
    var previous := Visible(db, t, key);
    if AfterLoad(previous, item).Proceed? then With(db, id, t.(pc := Loaded(key, item, previous))) else db
  }

  function DoEffect(db: Db, id: TxnId, t: Txn, outcome: EffectOutcome): Db
    requires t.pc.Loaded?
  {
    var effect := Effect(t.pc.key, t.pc.item.checkpoint, t.pc.item.record);
    var done := t.(effects := t.effects + [effect]);
    With(db, id,
         match outcome
         case RaisesUntouched => t.(pc := Idle)
         case RaisesAfterWriting => GaveUp(done, [effect])
         case Returns =>
           if SaveAccepted(t.pc.item.checkpoint, t.pc.previous)
           then done.(pc := Saving(t.pc.key, t.pc.item.checkpoint, t.pc.previous, [effect]))
           else GaveUp(done, [effect]))
  }

  function DoSelect(db: Db, id: TxnId, t: Txn): Db
    requires t.pc.Saving?
  {
    var k, c, e, p := t.pc.key, t.pc.candidate, t.pc.expected, t.pc.pending;
    var row := Visible(db, t, k);
    if row.Some? && LockedByOther(db, id, k) then db
    else
      With(if row.Some? then Lock(db, id, k) else db, id,
           match AfterSelect(row, c, e)
           case Insert => t.(pc := Inserting(k, c, e, p))
           case Keep => FoundDurable(t, p)
           case Update => t.(pc := Updating(k, c, e, row.value, p))
           case Refuse(_) => GaveUp(t, p))
  }

  /** INSERT ... ON CONFLICT DO NOTHING. */
  function DoInsert(db: Db, id: TxnId, t: Txn): Db
    requires t.pc.Inserting?
  {
    var k, c, p := t.pc.key, t.pc.candidate, t.pc.pending;
    if k in db.table || k in Writes(t.history) then With(db, id, t.(pc := Reselecting(k, c, p)))
    else if LockedByOther(db, id, k) then db
    else With(Lock(db, id, k), id, Wrote(t, Write(k, None, t.pc.expected, c, p != [])))
  }

  function DoReselect(db: Db, id: TxnId, t: Txn): Db
    requires t.pc.Reselecting?
  {
    var row := Visible(db, t, t.pc.key);
    if row.None? then With(db, id, GaveUp(t, t.pc.pending))
    else if LockedByOther(db, id, t.pc.key) then db
    else
      With(Lock(db, id, t.pc.key), id,
           if row.value == t.pc.candidate then FoundDurable(t, t.pc.pending) else GaveUp(t, t.pc.pending))
  }

  function DoUpdate(db: Db, id: TxnId, t: Txn): Db
    requires t.pc.Updating?
  {
    With(db, id, Wrote(t, Write(t.pc.key, Some(t.pc.durable), t.pc.expected, t.pc.candidate, t.pc.pending != [])))
  }

  function DoCommit(db: Db, id: TxnId, t: Txn): Db {
    Released(db.(table := db.table + Writes(t.history), history := db.history + t.history,
                 effects := db.effects + t.effects,
                 repeats := db.repeats + t.repeats, abandoned := db.abandoned + t.abandoned), id)
  }

  function Next(db: Db, step: Step): Db {
    if step.Begin? then
      if step.id in db.txns then db else With(db, step.id, FRESH)
    else if step.id !in db.txns then db
    else
      var id, t := step.id, db.txns[step.id];
      match step
      case Load(_, scope, item) => if t.pc.Idle? then DoLoad(db, id, t, scope, item) else db
      case RunEffect(_, outcome) => if t.pc.Loaded? then DoEffect(db, id, t, outcome) else db
      case StartSave(_, scope, candidate, expected) =>
        if t.pc.Idle? && SaveAccepted(candidate, expected)
        then With(db, id, t.(pc := Saving(KeyOf(scope, candidate), candidate, expected, [])))
        else db
      case SelectForUpdate(_) => if t.pc.Saving? then DoSelect(db, id, t) else db
      case InsertRow(_) => if t.pc.Inserting? then DoInsert(db, id, t) else db
      case Reselect(_) => if t.pc.Reselecting? then DoReselect(db, id, t) else db
      case UpdateRow(_) => if t.pc.Updating? then DoUpdate(db, id, t) else db
      case Commit(_) => if t.pc.Idle? then DoCommit(db, id, t) else db
      case Rollback(_) => Released(db, id)
  }

  function Execute(db: Db, steps: seq<Step>): Db {
    if steps == [] then db else Next(Execute(db, steps[..|steps| - 1]), steps[|steps| - 1])
  }
}
