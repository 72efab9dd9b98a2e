/**
 What couples committed effects with committed checkpoint advances, over every
 interleaving: they correspond one to one exactly when no committed application
 found its candidate already durable and none was committed after it failed.
 */
module EffectPairing {
  import opened Bytes
  import opened CheckpointedStream
  import opened CheckpointDecisions
  import opened TransactionProtocol
  import opened CheckpointChain
  import opened Sequences

  /** The writes that completed an application, in order. */
  function Applied(h: seq<Write>): seq<Write> {
    if h == [] then []
    else if h[|h| - 1].applied then Applied(h[..|h| - 1]) + [h[|h| - 1]]
    else Applied(h[..|h| - 1])
  }

  /** Effects and writes correspond one to one, in order. */
  predicate Paired(effects: seq<Effect>, writes: seq<Write>) {
    && |effects| == |writes|
    && forall i :: 0 <= i < |writes| ==> effects[i].key == writes[i].key && effects[i].checkpoint == writes[i].value
  }

  function PendingOf(pc: Pc): seq<Effect> {
    if pc.Idle? || pc.Loaded? then [] else pc.pending
  }

  /** A waiting effect is the one of the record being saved. */
  predicate PendingOk(pc: Pc) {
    pc.Idle? || pc.Loaded? || pc.pending == []
    || (|pc.pending| == 1 && pc.pending[0].key == pc.key && pc.pending[0].checkpoint == pc.candidate)
  }

  /**
   The ledger of a list of effects: written, repeated, abandoned or still waiting; and
   if all are written, in order.
   */
  predicate Balanced(effects: seq<Effect>, h: seq<Write>, repeats: seq<Effect>, abandoned: seq<Effect>,
                     pending: seq<Effect>) {
    && |effects| == |Applied(h)| + |repeats| + |abandoned| + |pending|
    && (repeats == [] && abandoned == [] ==>
          effects[|Applied(h)|..] == pending && Paired(effects[..|Applied(h)|], Applied(h)))
  }

  predicate TxnBalanced(t: Txn) {
    PendingOk(t.pc) && Balanced(t.effects, t.history, t.repeats, t.abandoned, PendingOf(t.pc))
  }

  ghost predicate BalancedInv(db: Db) {
    && Balanced(db.effects, db.history, db.repeats, db.abandoned, [])
    && forall id :: id in db.txns ==> TxnBalanced(db.txns[id])
  }

  lemma AppliedSnoc(h: seq<Write>, w: Write)
    ensures Applied(h + [w]) == if w.applied then Applied(h) + [w] else Applied(h)
  {
    SnocInit(h, w);
  }

  lemma {:induction false} AppliedAppend(a: seq<Write>, b: seq<Write>)
    ensures Applied(a + b) == Applied(a) + Applied(b)
  {
    if b == [] {
      assert a + b == a;
    } else {
      AppendInit(a, b);
      AppliedAppend(a, b[..|b| - 1]);
    }
  }

  lemma WroteBalances(t: Txn, w: Write)
    requires TxnBalanced(t) && !t.pc.Idle? && !t.pc.Loaded?
    requires w.key == t.pc.key && w.value == t.pc.candidate && w.applied == (t.pc.pending != [])
    ensures TxnBalanced(Wrote(t, w))
  {
    hide Applied;
    AppliedSnoc(t.history, w);
    PairedSnoc(t.effects, Applied(t.history), t.pc.pending, w);
  }

  lemma PairedSnoc(effects: seq<Effect>, ws: seq<Write>, pending: seq<Effect>, w: Write)
    ensures |effects| == |ws| + |pending| && |pending| == 1 && effects[|ws|..] == pending && Paired(effects[..|ws|], ws)
            && pending[0].key == w.key && pending[0].checkpoint == w.value ==>
              effects[|ws| + 1..] == [] && Paired(effects[..|ws| + 1], ws + [w])
  {
    if |effects| == |ws| + 1 && effects[|ws|..] == pending {
      assert effects[|ws|] == pending[0];
    }
  }

  lemma EndedBalances(t: Txn)
    requires TxnBalanced(t) && !t.pc.Idle? && !t.pc.Loaded?
    ensures TxnBalanced(FoundDurable(t, t.pc.pending)) && TxnBalanced(GaveUp(t, t.pc.pending))
  {
    hide Applied, Paired;
    if t.pc.pending == [] {
      assert t.repeats + t.pc.pending == t.repeats && t.abandoned + t.pc.pending == t.abandoned;
    }
  }

  lemma EffectBalances(db: Db, id: TxnId, t: Txn, outcome: EffectOutcome)
    requires TxnBalanced(t) && t.pc.Loaded?
    ensures TxnBalanced(DoEffect(db, id, t, outcome).txns[id])
  {
    hide Applied, Paired, SaveAccepted;
    var effect := Effect(t.pc.key, t.pc.item.checkpoint, t.pc.item.record);
    var n := |Applied(t.history)|;
    if t.repeats == [] && t.abandoned == [] {
      assert t.effects[..n] == t.effects && (t.effects + [effect])[..n] == t.effects;
    }
  }

  /** Every statement of an open transaction keeps its ledger balanced. */
  lemma StatementBalances(db: Db, step: Step)
    requires !step.Begin? && !step.Commit? && !step.Rollback? && step.id in db.txns && TxnBalanced(db.txns[step.id])
    ensures step.id in Next(db, step).txns && TxnBalanced(Next(db, step).txns[step.id])
  {
    hide Balanced, Visible, AfterSelect, AfterLoad, LockedByOther, Writes;
    var id, t := step.id, db.txns[step.id];
    match step
    case SelectForUpdate(_) => if t.pc.Saving? { EndedBalances(t); }
    case InsertRow(_) =>
      if t.pc.Inserting? { WroteBalances(t, Write(t.pc.key, None, t.pc.expected, t.pc.candidate, t.pc.pending != [])); }
    case Reselect(_) => if t.pc.Reselecting? { EndedBalances(t); }
    case UpdateRow(_) =>
      if t.pc.Updating? { WroteBalances(t,
                                        Write(t.pc.key, Some(t.pc.durable), t.pc.expected, t.pc.candidate,
                                              t.pc.pending != [])); }
    case RunEffect(_, outcome) => if t.pc.Loaded? { EffectBalances(db, id, t, outcome); }
    case Load(_, _, _) =>
    case StartSave(_, _, _, _) =>
  }

  lemma CommitBalances(db: Db, t: Txn)
    requires TxnBalanced(t) && t.pc.Idle? && Balanced(db.effects, db.history, db.repeats, db.abandoned, [])
    ensures Balanced(db.effects + t.effects, db.history + t.history, db.repeats + t.repeats,
                     db.abandoned + t.abandoned, [])
  {
    hide Applied;
    AppliedAppend(db.history, t.history);
    var a, b := Applied(db.history), Applied(t.history);
    if db.repeats + t.repeats == [] && db.abandoned + t.abandoned == [] {
      assert db.repeats == [] && t.repeats == [] && db.abandoned == [] && t.abandoned == [];
      assert db.effects[..|a|] == db.effects && t.effects[..|b|] == t.effects;
      assert (db.effects + t.effects)[..|a + b|] == db.effects + t.effects;
    }
  }

  /** A statement of one transaction leaves committed state and the other transactions alone. */
  lemma StatementIsLocal(db: Db, step: Step)
    requires !step.Begin? && !step.Commit? && !step.Rollback?
    ensures var db' := Next(db, step);
            && db'.history == db.history && db'.effects == db.effects && db'.repeats == db.repeats
               && db'.abandoned == db.abandoned
            && db'.table == db.table
            && db'.txns.Keys == db.txns.Keys
            && (forall i :: i in db.txns && i != step.id ==> db'.txns[i] == db.txns[i])
  {
    hide Visible, AfterSelect, AfterLoad, LockedByOther, Writes, SaveAccepted;
  }

  lemma StepBalances(db: Db, step: Step)
    requires BalancedInv(db)
    ensures BalancedInv(Next(db, step))
  {
    hide TxnBalanced, Balanced;
    if step.Begin? {
      FreshIsBalanced();
    } else if step.Commit? {
      if step.id in db.txns && db.txns[step.id].pc.Idle? { CommitBalances(db, db.txns[step.id]); }
    } else if !step.Rollback? && step.id in db.txns {
      hide Next;
      StatementBalances(db, step);
      StatementIsLocal(db, step);
    }
  }

  lemma FreshIsBalanced()
    ensures TxnBalanced(FRESH) && BalancedInv(EMPTY)
  {
  }

  lemma {:induction false} EveryRunBalances(steps: seq<Step>)
    ensures BalancedInv(Execute(EMPTY, steps))
  {
    hide BalancedInv, Next;
    if steps == [] {
      FreshIsBalanced();
    } else {
      var before := steps[..|steps| - 1];
      EveryRunBalances(before);
      StepBalances(Execute(EMPTY, before), steps[|steps| - 1]);
    }
  }

  /**
   Over every interleaving, whatever callers do: committed effects are paired one
   to one and in order with the checkpoint advances of applications if and only if
   no committed application found its candidate already durable and none failed
   after its effect.
   */
  lemma PairedIffNoneRepeatedOrAbandoned(steps: seq<Step>)
    ensures var db := Execute(EMPTY, steps);
            Paired(db.effects, Applied(db.history)) <==> db.repeats == [] && db.abandoned == []
  {
    hide Applied;
    EveryRunBalances(steps);
    var db := Execute(EMPTY, steps);
    if db.repeats == [] && db.abandoned == [] {
      assert db.effects[..|Applied(db.history)|] == db.effects;
    }
  }

  // ----- how often one record's effect is committed -----

  predicate NoDirectSaves(steps: seq<Step>) {
    forall i :: 0 <= i < |steps| ==> !steps[i].StartSave?
  }

  predicate Written(h: seq<Write>, e: Effect) {
    exists i :: 0 <= i < |h| && h[i].key == e.key && h[i].value == e.checkpoint
  }

  /** Every effect has a write, is abandoned, or still waits; every write is an application's. */
  predicate Covered(effects: seq<Effect>, h: seq<Write>, abandoned: seq<Effect>, pending: seq<Effect>) {
    forall e :: e in effects ==> e in abandoned || e in pending || Written(h, e)
  }

  predicate AllApplied(h: seq<Write>) {
    forall i :: 0 <= i < |h| ==> h[i].applied
  }

  predicate Applying(pc: Pc) {
    pc.Idle? || pc.Loaded? || (|pc.pending| == 1 && pc.pending[0].key == pc.key
                               && pc.pending[0].checkpoint == pc.candidate)
  }

  predicate TxnCovered(h: seq<Write>, t: Txn) {
    Applying(t.pc) && AllApplied(t.history) && Covered(t.effects, h + t.history, t.abandoned, PendingOf(t.pc))
  }

  ghost predicate CoveredInv(db: Db) {
    && AllApplied(db.history)
    && Covered(db.effects, db.history, db.abandoned, [])
    && forall id :: id in db.txns ==> TxnCovered(db.history, db.txns[id])
  }

  lemma WrittenMore(h: seq<Write>, h': seq<Write>, e: Effect)
    requires Written(h, e) && (h <= h' || forall w :: w in h ==> w in h')
    ensures Written(h', e)
  {
    var i :| 0 <= i < |h| && h[i].key == e.key && h[i].value == e.checkpoint;
    assert h[i] in h';
    var j :| 0 <= j < |h'| && h'[j] == h[i];
  }

  lemma {:induction false} VisibleIsWritten(h: seq<Write>, k: Key)
    requires k in Writes(h)
    ensures exists i :: 0 <= i < |h| && h[i].key == k && h[i].value == Writes(h)[k]
  {
    var before, w := h[..|h| - 1], h[|h| - 1];
    if k != w.key {
      VisibleIsWritten(before, k);
    }
  }

  /** A row that a transaction sees was written by a committed transaction or by itself. */
  lemma DurableIsWritten(db: Db, t: Txn, e: Effect)
    requires db.table == Writes(db.history) && Visible(db, t, e.key) == Some(e.checkpoint)
    ensures Written(db.history + t.history, e)
  {
    WritesAppend(db.history, t.history);
    VisibleIsWritten(db.history + t.history, e.key);
  }

  lemma WroteCovers(h: seq<Write>, t: Txn, w: Write)
    requires TxnCovered(h, t) && !t.pc.Idle? && !t.pc.Loaded?
    requires w.key == t.pc.key && w.value == t.pc.candidate && w.applied
    ensures TxnCovered(h, Wrote(t, w))
  {
    hide Written;
    var all := h + (t.history + [w]);
    forall e | e in t.effects
      ensures e in t.abandoned || Written(all, e)
    {
      if Written(h + t.history, e) { WrittenMore(h + t.history, all, e); }
      LastIsWritten(h + t.history, w, e);
      assert all == h + t.history + [w];
    }
  }

  lemma LastIsWritten(h: seq<Write>, w: Write, e: Effect)
    ensures w.key == e.key && w.value == e.checkpoint ==> Written(h + [w], e)
  {
    assert (h + [w])[|h|] == w;
  }

  lemma GaveUpCovers(h: seq<Write>, t: Txn)
    requires TxnCovered(h, t) && !t.pc.Idle? && !t.pc.Loaded?
    ensures TxnCovered(h, GaveUp(t, t.pc.pending))
  {
    hide Written;
  }

  lemma RepeatCovers(db: Db, t: Txn)
    requires TxnCovered(db.history, t) && !t.pc.Idle? && !t.pc.Loaded?
    requires db.table == Writes(db.history) && Visible(db, t, t.pc.key) == Some(t.pc.candidate)
    ensures TxnCovered(db.history, FoundDurable(t, t.pc.pending))
  {
    hide Written, Visible;
    DurableIsWritten(db, t, t.pc.pending[0]);
  }

  lemma EffectCovers(db: Db, id: TxnId, t: Txn, outcome: EffectOutcome)
    requires TxnCovered(db.history, t) && t.pc.Loaded?
    ensures TxnCovered(db.history, DoEffect(db, id, t, outcome).txns[id])
  {
    hide Written, SaveAccepted;
  }

  lemma SelectCovers(db: Db, id: TxnId, t: Txn)
    requires TxnCovered(db.history, t) && t.pc.Saving? && db.table == Writes(db.history)
    requires id in db.txns && db.txns[id] == t
    ensures id in DoSelect(db, id, t).txns && TxnCovered(db.history, DoSelect(db, id, t).txns[id])
  {
    hide Covered, Visible, Applying;
    var row := Visible(db, t, t.pc.key);
    AlikeCovered(db.history, t);
    GaveUpCovers(db.history, t);
    if AfterSelect(row, t.pc.candidate, t.pc.expected).Keep? { RepeatCovers(db, t); }
  }

  /** The next statement of a save waits with the same effect. */
  lemma AlikeCovered(h: seq<Write>, t: Txn)
    requires TxnCovered(h, t) && !t.pc.Idle? && !t.pc.Loaded?
    ensures forall e :: TxnCovered(h, t.(pc := Inserting(t.pc.key, t.pc.candidate, e, t.pc.pending)))
    ensures forall e, d :: TxnCovered(h, t.(pc := Updating(t.pc.key, t.pc.candidate, e, d, t.pc.pending)))
    ensures TxnCovered(h, t.(pc := Reselecting(t.pc.key, t.pc.candidate, t.pc.pending)))
  {
    hide Covered;
  }

  lemma InsertCovers(db: Db, id: TxnId, t: Txn)
    requires TxnCovered(db.history, t) && t.pc.Inserting?
    requires id in db.txns && db.txns[id] == t
    ensures id in DoInsert(db, id, t).txns && TxnCovered(db.history, DoInsert(db, id, t).txns[id])
  {
    hide Covered, Writes;
    AlikeCovered(db.history, t);
    WroteCovers(db.history, t, Write(t.pc.key, None, t.pc.expected, t.pc.candidate, t.pc.pending != []));
  }

  lemma ReselectCovers(db: Db, id: TxnId, t: Txn)
    requires TxnCovered(db.history, t) && t.pc.Reselecting? && db.table == Writes(db.history)
    requires id in db.txns && db.txns[id] == t
    ensures id in DoReselect(db, id, t).txns && TxnCovered(db.history, DoReselect(db, id, t).txns[id])
  {
    hide Covered, Visible;
    GaveUpCovers(db.history, t);
    if Visible(db, t, t.pc.key) == Some(t.pc.candidate) { RepeatCovers(db, t); }
  }

  lemma StatementCovers(db: Db, step: Step)
    requires !step.Begin? && !step.Commit? && !step.Rollback? && !step.StartSave?
    requires step.id in db.txns && TxnCovered(db.history, db.txns[step.id]) && db.table == Writes(db.history)
    ensures step.id in Next(db, step).txns && TxnCovered(db.history, Next(db, step).txns[step.id])
  {
    hide Covered, AfterLoad, Visible, Writes, DoSelect, DoInsert, DoReselect, DoEffect;
    var id, t := step.id, db.txns[step.id];
    match step
    case SelectForUpdate(_) => if t.pc.Saving? { SelectCovers(db, id, t); }
    case InsertRow(_) => if t.pc.Inserting? { InsertCovers(db, id, t); }
    case Reselect(_) => if t.pc.Reselecting? { ReselectCovers(db, id, t); }
    case UpdateRow(_) =>
      if t.pc.Updating? {
        WroteCovers(db.history, t, Write(t.pc.key, Some(t.pc.durable), t.pc.expected, t.pc.candidate,
                                         t.pc.pending != []));
      }
    case RunEffect(_, outcome) => if t.pc.Loaded? { EffectStays(db, id, t, outcome); EffectCovers(db, id, t, outcome); }
    case Load(_, _, _) =>
  }

  lemma EffectStays(db: Db, id: TxnId, t: Txn, outcome: EffectOutcome)
    requires t.pc.Loaded?
    ensures id in DoEffect(db, id, t, outcome).txns
  {
  }

  lemma OtherStaysCovered(h: seq<Write>, more: seq<Write>, t: Txn)
    requires TxnCovered(h, t)
    ensures TxnCovered(h + more, t)
  {
    hide Written;
    forall e | e in t.effects && Written(h + t.history, e)
      ensures Written(h + more + t.history, e)
    {
      WrittenMore(h + t.history, h + more + t.history, e);
    }
  }

  lemma CommitCovers(db: Db, t: Txn)
    requires TxnCovered(db.history, t) && t.pc.Idle? && Covered(db.effects, db.history, db.abandoned, [])
    ensures Covered(db.effects + t.effects, db.history + t.history, db.abandoned + t.abandoned, [])
  {
    hide Written;
    forall e | e in db.effects && Written(db.history, e)
      ensures Written(db.history + t.history, e)
    {
      WrittenMore(db.history, db.history + t.history, e);
    }
  }

  lemma StepCovers(db: Db, step: Step)
    requires Inv(db) && CoveredInv(db) && !step.StartSave?
    ensures CoveredInv(Next(db, step))
  {
    hide TxnCovered, Covered, Inv;
    if step.Begin? {
      FreshIsCovered(db.history);
    } else if step.Commit? {
      if step.id in db.txns && db.txns[step.id].pc.Idle? { CommitKeepsCovered(db, step.id); }
    } else if !step.Rollback? && step.id in db.txns {
      hide Next;
      TableIsWrites(db);
      StatementCovers(db, step);
      StatementIsLocal(db, step);
    }
  }

  lemma TableIsWrites(db: Db)
    requires Inv(db)
    ensures db.table == Writes(db.history)
  {
  }

  lemma CommitKeepsCovered(db: Db, id: TxnId)
    requires CoveredInv(db) && id in db.txns && db.txns[id].pc.Idle?
    ensures CoveredInv(DoCommit(db, id, db.txns[id]))
  {
    hide Covered;
    var t, db' := db.txns[id], DoCommit(db, id, db.txns[id]);
    CommitCovers(db, t);
    forall i | i in db'.txns
      ensures TxnCovered(db'.history, db'.txns[i])
    {
      OtherStaysCovered(db.history, t.history, db.txns[i]);
    }
  }

  lemma FreshIsCovered(h: seq<Write>)
    ensures TxnCovered(h, FRESH)
  {
  }

  lemma {:induction false} EveryRunCovers(steps: seq<Step>)
    requires NoDirectSaves(steps)
    ensures CoveredInv(Execute(EMPTY, steps))
  {
    hide CoveredInv, Next, Inv;
    if steps == [] {
      EmptyIsCovered();
    } else {
      var before := steps[..|steps| - 1];
      EveryRunCovers(before);
      EveryRunIsSafe(before);
      StepCovers(Execute(EMPTY, before), steps[|steps| - 1]);
    }
  }

  lemma EmptyIsCovered()
    ensures CoveredInv(EMPTY)
  {
  }

  lemma {:induction false} AllAppliedIsApplied(h: seq<Write>)
    requires AllApplied(h)
    ensures Applied(h) == h
  {
    if h != [] {
      AllAppliedIsApplied(h[..|h| - 1]);
    }
  }

  /** No two committed effects are of one record: same key and same checkpoint. */
  predicate OnceEach(effects: seq<Effect>) {
    forall i, j :: 0 <= i < j < |effects| && effects[i].key == effects[j].key ==>
        effects[i].checkpoint != effects[j].checkpoint
  }

  function Marks(effects: seq<Effect>): seq<(Key, Checkpoint)> {
    seq(|effects|, i requires 0 <= i < |effects| => (effects[i].key, effects[i].checkpoint))
  }

  function Values(h: seq<Write>): seq<(Key, Checkpoint)> {
    seq(|h|, i requires 0 <= i < |h| => (h[i].key, h[i].value))
  }

  /** Distinct entries that all occur in another list are no more than that list is long. */
  lemma {:induction false} Pigeonhole<T>(a: seq<T>, b: seq<T>)
    requires forall i, j :: 0 <= i < j < |a| ==> a[i] != a[j]
    requires forall i :: 0 <= i < |a| ==> a[i] in b
    ensures |a| <= |b|
  {
    if a != [] {
      var last := a[|a| - 1];
      var k :| 0 <= k < |b| && b[k] == last;
      var rest := b[..k] + b[k + 1..];
      var front := a[..|a| - 1];
      forall i | 0 <= i < |front|
        ensures front[i] in rest
      {
        assert front[i] == a[i];
        var j :| 0 <= j < |b| && b[j] == a[i];
        assert j != k;
        assert rest[if j < k then j else j - 1] == a[i];
      }
      Pigeonhole(front, rest);
    }
  }

  lemma MoreEffectsThanWritesRepeat(effects: seq<Effect>, h: seq<Write>)
    requires Covered(effects, h, [], []) && |effects| > |h|
    ensures !OnceEach(effects)
  {
    if OnceEach(effects) {
      var a, b := Marks(effects), Values(h);
      forall i | 0 <= i < |a|
        ensures a[i] in b
      {
        assert effects[i] in effects && Written(h, effects[i]);
        var j :| 0 <= j < |h| && h[j].key == effects[i].key && h[j].value == effects[i].checkpoint;
        assert b[j] == a[i];
      }
      Pigeonhole(a, b);
    }
  }

  lemma ChainedWritesAreOnce(effects: seq<Effect>, h: seq<Write>)
    requires Paired(effects, h) && Legal(h, map[])
    ensures OnceEach(effects)
  {
    hide Legal;
    forall i, j | 0 <= i < j < |effects| && effects[i].key == effects[j].key
      ensures effects[i].checkpoint != effects[j].checkpoint
    {
      ChainRises(h, i, j);
    }
  }

  /**
   Over every interleaving of applications in which no transaction is committed
   after a failed application: each record's effect is committed at most once if
   and only if no committed application found its candidate already durable.
   */
  lemma OnceIffNoneRepeated(steps: seq<Step>)
    requires NoDirectSaves(steps) && Execute(EMPTY, steps).abandoned == []
    ensures OnceEach(Execute(EMPTY, steps).effects) <==> Execute(EMPTY, steps).repeats == []
  {
    hide Legal, Next, Covered, OnceEach, Applied, Writes, NoDirectSaves;
    var db := Execute(EMPTY, steps);
    EveryRunIsSafe(steps);
    EveryRunBalances(steps);
    EveryRunCovers(steps);
    AllAppliedIsApplied(db.history);
    if db.repeats == [] {
      assert db.effects[..|db.history|] == db.effects;
      ChainedWritesAreOnce(db.effects, db.history);
    } else {
      MoreEffectsThanWritesRepeat(db.effects, db.history);
    }
  }
}
