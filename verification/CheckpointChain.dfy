/**
 Safety of concurrent checkpoint saves: over every interleaving the committed
 values of a key form one chain.
 */
module CheckpointChain {
  import opened Bytes
  import opened CheckpointedStream
  import opened CheckpointDecisions
  import opened TransactionProtocol
  import opened Sequences

  /** A write that replaces exactly what its caller expected, and advances it. */
  predicate LegalWrite(w: Write, current: Option<Checkpoint>) {
    && w.replaced == current
    && w.expected == current
    && (current.Some? ==> Advances(current.value, w.value))
  }

  /** Every write of `h`, applied in order on top of `base`, is legal. */
  predicate Legal(h: seq<Write>, base: Table) {
    h == [] ||
    var before, w := h[..|h| - 1], h[|h| - 1];
    Legal(before, base) && LegalWrite(w, Lookup(base + Writes(before), w.key))
  }

  lemma {:induction false} WritesAppend(a: seq<Write>, b: seq<Write>)
    ensures Writes(a + b) == Writes(a) + Writes(b)
  {
    if b == [] {
      assert a + b == a;
    } else {
      AppendInit(a, b);
      WritesAppend(a, b[..|b| - 1]);
    }
  }

  lemma PlusAssociative(a: Table, b: Table, c: Table)
    ensures (a + b) + c == a + (b + c)
  {
  }

  lemma {:induction false} LegalAppend(a: seq<Write>, b: seq<Write>, base: Table)
    requires Legal(a, base) && Legal(b, base + Writes(a))
    ensures Legal(a + b, base)
  {
    if b == [] {
      assert a + b == a;
    } else {
      var b' := b[..|b| - 1];
      AppendInit(a, b);
      LegalAppend(a, b', base);
      WritesAppend(a, b');
      PlusAssociative(base, Writes(a), Writes(b'));
    }
  }

  /** Only the rows a history touches matter to its legality. */
  lemma {:induction false} LegalFrame(h: seq<Write>, base: Table, base': Table)
    requires Legal(h, base)
    requires forall k :: k in Writes(h) ==> Lookup(base, k) == Lookup(base', k)
    ensures Legal(h, base')
  {
    if h != [] {
      var before, w := h[..|h| - 1], h[|h| - 1];
      assert w.key in Writes(h);
      assert forall k :: k in Writes(before) ==> k in Writes(h);
      LegalFrame(before, base, base');
      assert Lookup(base + Writes(before), w.key) == Lookup(base' + Writes(before), w.key);
    }
  }

  predicate Holds(db: Db, id: TxnId, k: Key) {
    k in db.locks && db.locks[k] == id
  }

  /** What holds of one open transaction between any two statements. */
  predicate TxnOk(db: Db, id: TxnId, t: Txn) {
    && Legal(t.history, db.table)
    && (forall k :: k in Writes(t.history) ==> Holds(db, id, k))
    && match t.pc
       case Updating(k, c, e, d, _) => Holds(db, id, k) && Visible(db, t, k) == Some(d) == e && Advances(d, c)
       case Inserting(_, _, e, _) => e.None?
       case Reselecting(k, _, _) => k in db.table || k in Writes(t.history)
       case _ => true
  }

  predicate Inv(db: Db) {
    && Legal(db.history, map[])
    && db.table == Writes(db.history)
    && forall id :: id in db.txns ==> TxnOk(db, id, db.txns[id])
  }

  /** `db'` differs from `db` only in transaction `id` and in locks that nobody else held. */
  predicate OnlyOwn(db: Db, db': Db, id: TxnId) {
    && db'.table == db.table && db'.history == db.history
    && (forall i :: i in db'.txns && i != id ==> i in db.txns && db'.txns[i] == db.txns[i])
    && (forall k :: k in db.locks && db.locks[k] != id ==> k in db'.locks && db'.locks[k] == db.locks[k])
  }

  lemma OwnStepKeepsInv(db: Db, db': Db, id: TxnId)
    requires Inv(db) && OnlyOwn(db, db', id)
    requires id in db'.txns ==> TxnOk(db', id, db'.txns[id])
    ensures Inv(db')
  {
    forall i | i in db'.txns && i != id
      ensures TxnOk(db', i, db'.txns[i])
    {
      assert TxnOk(db, i, db.txns[i]);
    }
  }

  lemma WritesSnoc(h: seq<Write>, w: Write)
    ensures Writes(h + [w]) == Writes(h)[w.key := w.value]
  {
    SnocInit(h, w);
  }

  lemma LegalSnoc(h: seq<Write>, w: Write, base: Table)
    ensures Legal(h + [w], base) <==> Legal(h, base) && LegalWrite(w, Lookup(base + Writes(h), w.key))
  {
    SnocInit(h, w);
  }

  lemma WriteKeepsInv(db: Db, id: TxnId, t: Txn, w: Write)
    requires Inv(db) && id in db.txns && db.txns[id] == t
    requires LegalWrite(w, Visible(db, t, w.key)) && !LockedByOther(db, id, w.key)
    ensures Inv(With(Lock(db, id, w.key), id, Wrote(t, w)))
  {
    hide Inv, TxnOk, Legal, Writes;
    var db' := With(Lock(db, id, w.key), id, Wrote(t, w));
    TxnIsOk(db, id);
    WriterIsOk(db, db', id, t, w);
    OwnStepKeepsInv(db, db', id);
  }

  lemma WriterIsOk(db: Db, db': Db, id: TxnId, t: Txn, w: Write)
    requires TxnOk(db, id, t) && LegalWrite(w, Visible(db, t, w.key))
    requires db'.table == db.table && db'.locks == db.locks[w.key := id]
    ensures TxnOk(db', id, Wrote(t, w))
  {
    hide Legal, Writes, LegalWrite;
    WritesSnoc(t.history, w);
    LegalSnoc(t.history, w, db.table);
  }

  lemma TxnIsOk(db: Db, id: TxnId)
    requires Inv(db) && id in db.txns
    ensures TxnOk(db, id, db.txns[id])
  {
  }

  /** The rows of another open transaction are locked by it, hence not written by the one that commits. */
  lemma OthersSurviveCommit(db: Db, id: TxnId, i: TxnId)
    requires Inv(db) && id in db.txns && i in db.txns && i != id
    ensures var db' := DoCommit(db, id, db.txns[id]);
            i in db'.txns && db'.txns[i] == db.txns[i] && TxnOk(db', i, db.txns[i])
  {
    hide Legal, Writes, Inv;
    var t, u := db.txns[id], db.txns[i];
    var db' := DoCommit(db, id, t);
    TxnIsOk(db, id);
    TxnIsOk(db, i);
    assert forall k :: Holds(db, i, k) ==> k !in Writes(t.history);
    LegalFrame(u.history, db.table, db'.table);
  }

  lemma CommitKeepsLegal(db: Db, id: TxnId)
    requires Inv(db) && id in db.txns
    ensures var t := db.txns[id];
            && Legal(db.history + t.history, map[])
            && db.table + Writes(t.history) == Writes(db.history + t.history)
  {
    hide Legal, Writes;
    var t := db.txns[id];
    assert TxnOk(db, id, t);
    assert map[] + Writes(db.history) == db.table;
    LegalAppend(db.history, t.history, map[]);
    WritesAppend(db.history, t.history);
  }

  lemma CommitKeepsInv(db: Db, id: TxnId)
    requires Inv(db) && id in db.txns
    ensures Inv(DoCommit(db, id, db.txns[id]))
  {
    hide TxnOk, Legal, Writes;
    var db' := DoCommit(db, id, db.txns[id]);
    forall i | i in db'.txns
      ensures TxnOk(db', i, db'.txns[i])
    {
      OthersSurviveCommit(db, id, i);
    }
    CommitKeepsLegal(db, id);
  }

  lemma ReleaseKeepsInv(db: Db, id: TxnId)
    requires Inv(db)
    ensures Inv(Released(db, id))
  {
    OwnStepKeepsInv(db, Released(db, id), id);
  }

  /** Replacing one transaction's state, and perhaps taking one free lock, is an own step. */
  lemma WithKeepsInv(db: Db, id: TxnId, k: Option<Key>, t: Txn)
    requires Inv(db) && (k.Some? ==> !LockedByOther(db, id, k.value))
    requires TxnOk(if k.Some? then Lock(db, id, k.value) else db, id, t)
    ensures Inv(With(if k.Some? then Lock(db, id, k.value) else db, id, t))
  {
    var locked := if k.Some? then Lock(db, id, k.value) else db;
    OwnStepKeepsInv(db, With(locked, id, t), id);
  }

  lemma SelectKeepsInv(db: Db, id: TxnId, t: Txn)
    requires Inv(db) && id in db.txns && db.txns[id] == t && t.pc.Saving?
    ensures Inv(DoSelect(db, id, t))
  {
    hide Inv, LockedByOther;
    TxnIsOk(db, id);
    var db' := DoSelect(db, id, t);
    if db' != db {
      WithKeepsInv(db, id, if Visible(db, t, t.pc.key).Some? then Some(t.pc.key) else None, db'.txns[id]);
    }
  }

  lemma ReselectKeepsInv(db: Db, id: TxnId, t: Txn)
    requires Inv(db) && id in db.txns && db.txns[id] == t && t.pc.Reselecting?
    ensures Inv(DoReselect(db, id, t))
  {
    hide Inv;
    TxnIsOk(db, id);
    var db' := DoReselect(db, id, t);
    if db' != db {
      WithKeepsInv(db, id, Some(t.pc.key), db'.txns[id]);
    }
  }

  lemma UpdateKeepsInv(db: Db, id: TxnId, t: Txn)
    requires Inv(db) && id in db.txns && db.txns[id] == t && t.pc.Updating?
    ensures Inv(DoUpdate(db, id, t))
  {
    hide Inv;
    TxnIsOk(db, id);
    WriteKeepsInv(db, id, t, Write(t.pc.key, Some(t.pc.durable), t.pc.expected, t.pc.candidate, t.pc.pending != []));
    assert db.locks[t.pc.key := id] == db.locks;
  }

  /** Steps that touch neither rows nor locks. */
  lemma QuietStepKeepsInv(db: Db, id: TxnId, t: Txn, t': Txn)
    requires Inv(db) && id in db.txns && db.txns[id] == t
    requires t'.history == t.history && !t'.pc.Updating? && !t'.pc.Inserting? && !t'.pc.Reselecting?
    ensures Inv(With(db, id, t'))
  {
    hide Inv;
    TxnIsOk(db, id);
    WithKeepsInv(db, id, None, t');
  }

  lemma LoadKeepsInv(db: Db, id: TxnId, t: Txn, scope: Scope, item: Item)
    requires Inv(db) && id in db.txns && db.txns[id] == t
    ensures Inv(DoLoad(db, id, t, scope, item))
  {
    hide Inv;
    var db' := DoLoad(db, id, t, scope, item);
    if db' != db {
      QuietStepKeepsInv(db, id, t, db'.txns[id]);
    }
  }

  lemma EffectKeepsInv(db: Db, id: TxnId, t: Txn, outcome: EffectOutcome)
    requires Inv(db) && id in db.txns && db.txns[id] == t && t.pc.Loaded?
    ensures Inv(DoEffect(db, id, t, outcome))
  {
    hide Inv;
    QuietStepKeepsInv(db, id, t, DoEffect(db, id, t, outcome).txns[id]);
  }

  lemma StepKeepsInv(db: Db, step: Step)
    requires Inv(db)
    ensures Inv(Next(db, step))
  {
    hide Inv;
    if step.Begin? {
      BeginKeepsInv(db, step.id);
    } else if step.id in db.txns {
      var id, t := step.id, db.txns[step.id];
      match step
      case SelectForUpdate(_) => if t.pc.Saving? { SelectKeepsInv(db, id, t); }
      case InsertRow(_) =>
        if t.pc.Inserting? {
          TxnIsOk(db, id);
          var k, c, p := t.pc.key, t.pc.candidate, t.pc.pending;
          if k in db.table || k in Writes(t.history) {
            WithKeepsInv(db, id, None, t.(pc := Reselecting(k, c, p)));
          } else if !LockedByOther(db, id, k) {
            WriteKeepsInv(db, id, t, Write(k, None, t.pc.expected, c, p != []));
          }
        }
      case Reselect(_) => if t.pc.Reselecting? { ReselectKeepsInv(db, id, t); }
      case UpdateRow(_) => if t.pc.Updating? { UpdateKeepsInv(db, id, t); }
      case Commit(_) => CommitKeepsInv(db, id);
      case Rollback(_) => ReleaseKeepsInv(db, id);
      case Load(_, scope, item) => if t.pc.Idle? { LoadKeepsInv(db, id, t, scope, item); }
      case RunEffect(_, outcome) => if t.pc.Loaded? { EffectKeepsInv(db, id, t, outcome); }
      case StartSave(_, scope, candidate, expected) =>
        QuietStepKeepsInv(db, id, t, t.(pc := Saving(KeyOf(scope, candidate), candidate, expected, [])));
    }
  }

  lemma BeginKeepsInv(db: Db, id: TxnId)
    requires Inv(db)
    ensures Inv(Next(db, Begin(id)))
  {
    if id !in db.txns {
      WithKeepsInv(db, id, None, FRESH);
    }
  }

  /** For every interleaving of concurrent transactions. */
  lemma {:induction false} EveryRunIsSafe(steps: seq<Step>)
    ensures Inv(Execute(EMPTY, steps))
  {
    if steps != [] {
      EveryRunIsSafe(steps[..|steps| - 1]);
      StepKeepsInv(Execute(EMPTY, steps[..|steps| - 1]), steps[|steps| - 1]);
    }
  }

  /** An insert that lost the race always finds the row it lost to: the "disappeared" branch is dead. */
  lemma ConflictRowIsThere(steps: seq<Step>, id: TxnId)
    requires var db := Execute(EMPTY, steps); id in db.txns && db.txns[id].pc.Reselecting?
    ensures var db := Execute(EMPTY, steps); Visible(db, db.txns[id], db.txns[id].pc.key).Some?
  {
    EveryRunIsSafe(steps);
    var db := Execute(EMPTY, steps);
    assert TxnOk(db, id, db.txns[id]);
  }

  // ----- what legality means for one key -----

  predicate Untouched(h: seq<Write>, k: Key, i: nat, j: nat)
    requires i <= j <= |h|
  {
    forall m :: i <= m < j ==> h[m].key != k
  }

  lemma {:induction false} LegalTake(h: seq<Write>, base: Table, n: nat)
    requires Legal(h, base) && n <= |h|
    ensures Legal(h[..n], base)
  {
    if n < |h| {
      LegalTake(h[..|h| - 1], base, n);
      assert h[..|h| - 1][..n] == h[..n];
    } else {
      assert h[..n] == h;
    }
  }

  lemma {:induction false} LastWrite(h: seq<Write>, i: nat)
    requires i < |h| && Untouched(h, h[i].key, i + 1, |h|)
    ensures Lookup(Writes(h), h[i].key) == Some(h[i].value)
  {
    if i < |h| - 1 {
      LastWrite(h[..|h| - 1], i);
    }
  }

  /**
   Two successive writes of a key are linked: the later one expected and replaced the
   earlier value, and advanced it.
   */
  lemma ChainLink(h: seq<Write>, i: nat, j: nat)
    requires Legal(h, map[]) && i < j < |h| && h[i].key == h[j].key
    requires Untouched(h, h[i].key, i + 1, j)
    ensures h[j].replaced == Some(h[i].value) == h[j].expected
    ensures h[i].value.recordCount < h[j].value.recordCount && h[i].value.batchLineCount < h[j].value.batchLineCount
  {
    hide Legal, Writes;
    LegalAt(h, j);
    assert forall m :: 0 <= m < j ==> h[..j][m] == h[m];
    LastWrite(h[..j], i);
  }

  /** Each write of a legal history was legal when it was made. */
  lemma LegalAt(h: seq<Write>, j: nat)
    requires Legal(h, map[]) && j < |h|
    ensures LegalWrite(h[j], Lookup(Writes(h[..j]), h[j].key))
  {
    hide Writes;
    LegalTake(h, map[], j + 1);
    assert h[..j + 1][..j] == h[..j];
    assert map[] + Writes(h[..j]) == Writes(h[..j]);
  }

  lemma {:induction false} NotYetWritten(h: seq<Write>, k: Key)
    requires Untouched(h, k, 0, |h|)
    ensures k !in Writes(h)
  {
    if h != [] {
      NotYetWritten(h[..|h| - 1], k);
    }
  }

  lemma ChainStart(h: seq<Write>, j: nat)
    requires Legal(h, map[]) && j < |h| && Untouched(h, h[j].key, 0, j)
    ensures h[j].replaced.None? && h[j].expected.None?
  {
    hide Legal, Writes;
    LegalAt(h, j);
    NotYetWritten(h[..j], h[j].key);
  }

  /** Along one key both counts rise strictly, so no value is ever committed twice. */
  lemma {:induction false} ChainRises(h: seq<Write>, i: nat, j: nat)
    requires Legal(h, map[]) && i < j < |h| && h[i].key == h[j].key
    ensures h[i].value.recordCount < h[j].value.recordCount && h[i].value.batchLineCount < h[j].value.batchLineCount
    decreases j - i
  {
    if Untouched(h, h[i].key, i + 1, j) {
      ChainLink(h, i, j);
    } else {
      var m :| i + 1 <= m < j && h[m].key == h[i].key;
      ChainRises(h, i, m);
      ChainRises(h, m, j);
    }
  }

  /** The writes of each key form one chain, and `table` holds the last value of each. */
  predicate FormsChains(h: seq<Write>, table: Table) {
    && (forall j :: 0 <= j < |h| && Untouched(h, h[j].key, 0, j) ==> h[j].replaced.None? && h[j].expected.None?)
    && (forall i, j :: 0 <= i < j < |h| && h[i].key == h[j].key && Untouched(h, h[i].key, i + 1, j) ==>
          h[j].replaced == Some(h[i].value) == h[j].expected)
    && (forall i, j :: 0 <= i < j < |h| && h[i].key == h[j].key ==>
          h[i].value.recordCount < h[j].value.recordCount && h[i].value.batchLineCount < h[j].value.batchLineCount)
    && (forall i :: 0 <= i < |h| && Untouched(h, h[i].key, i + 1, |h|) ==> Lookup(table, h[i].key) == Some(h[i].value))
    && (forall k :: k in table ==> exists i :: 0 <= i < |h| && h[i].key == k)
  }

  lemma {:induction false} WrittenKeys(h: seq<Write>, k: Key)
    requires k in Writes(h)
    ensures exists i :: 0 <= i < |h| && h[i].key == k
  {
    var before, w := h[..|h| - 1], h[|h| - 1];
    if k != w.key {
      WrittenKeys(before, k);
    }
  }

  lemma LegalWritesFormChains(h: seq<Write>)
    requires Legal(h, map[])
    ensures FormsChains(h, Writes(h))
  {
    forall j | 0 <= j < |h| && Untouched(h, h[j].key, 0, j)
      ensures h[j].replaced.None? && h[j].expected.None?
    {
      ChainStart(h, j);
    }
    forall i, j | 0 <= i < j < |h| && h[i].key == h[j].key && Untouched(h, h[i].key, i + 1, j)
      ensures h[j].replaced == Some(h[i].value) == h[j].expected
    {
      ChainLink(h, i, j);
    }
    forall i, j | 0 <= i < j < |h| && h[i].key == h[j].key
      ensures h[i].value.recordCount < h[j].value.recordCount && h[i].value.batchLineCount < h[j].value.batchLineCount
    {
      ChainRises(h, i, j);
    }
    forall i | 0 <= i < |h| && Untouched(h, h[i].key, i + 1, |h|)
      ensures Lookup(Writes(h), h[i].key) == Some(h[i].value)
    {
      LastWrite(h, i);
    }
    forall k | k in Writes(h)
      ensures exists i :: 0 <= i < |h| && h[i].key == k
    {
      WrittenKeys(h, k);
    }
  }

  /**
   The committed values of each key form a single chain over every
   interleaving: the first write expected nothing, each later one expected and
   replaced its predecessor with both counts risen, and the table holds exactly the
   last value of each chain.
   */
  lemma CommittedValuesFormChains(steps: seq<Step>)
    ensures FormsChains(Execute(EMPTY, steps).history, Execute(EMPTY, steps).table)
  {
    hide FormsChains, Legal;
    EveryRunIsSafe(steps);
    LegalWritesFormChains(Execute(EMPTY, steps).history);
  }
}
