/**
 What lets a preparation call go on, read off the requests and batches alone: which
 rechecks answer, which parts are written, which batches exist, and whom an answer is
 for.
 */
module PreparationGuards {
  import opened Assembly
  import opened Preparation
  import opened PreparationSafety
  import opened PreparationTheorems
  import opened PreparationTokens

  /** A request of the batch that is queued and in no file. */
  predicate Waits(db: Db, b: BatchId, r: RequestId) {
    && r in db.requests && db.requests[r].batch == b && db.requests[r].queued && db.requests[r].file.None?
  }

  // ----- the recheck -----

  /**
   In every reachable state a call that found the batch prepared is answered with the
   batch's files if and only if no request of the batch waits. Otherwise it fails: nothing
   is answered, and the lock is free again.
   */
  lemma RecheckAnswersIff(steps: seq<Step>, c: CallerId)
    requires c in Execute(steps).calls && Execute(steps).calls[c].Rechecking?
    ensures var db, db' := Execute(steps), Next(Execute(steps), Recheck(c));
            var b := db.calls[c].batch;
            && c in db'.calls && db'.calls[c].Ended? && b !in db'.locks
            && if exists r :: Waits(db, b, r) then db'.answers == db.answers
               else |db'.answers| == |db.answers| + 1 && db'.answers[..|db.answers|] == db.answers
                    && Answers(db, db'.answers[|db.answers|], b, db.calls[c].fileLimit)
  {
    hide Inv, Truthful, Next;
    EveryRunKeepsInv(steps);
    var db := Execute(steps);
    PreparedFilesAreThere(db);
    WaitingIsUnassigned(db, db.calls[c].batch);
    RecheckStep(db, c);
  }

  /** A truthful answer, with files in it, for this batch and limit. */
  predicate Answers(db: Db, a: Answer, b: BatchId, limit: nat) {
    a.batch == b && a.fileLimit == limit && Truthful(db, a) && !IsEmpty(a)
  }

  lemma WaitingIsUnassigned(db: Db, b: BatchId)
    ensures (exists r :: Waits(db, b, r)) <==> exists r :: Unassigned(db, r, b)
  {
    if r :| Waits(db, b, r) { assert Unassigned(db, r, b); }
    if r :| Unassigned(db, r, b) { assert Waits(db, b, r); }
  }

  lemma PreparedFilesAreThere(db: Db)
    requires Inv(db)
    ensures Consistent(db)
  {
    forall b, i | 0 <= i < |PreparedFiles(db, b)|
      ensures PreparedFiles(db, b)[i] in db.files
    {
      BatchIsOk(db, b);
    }
  }

  lemma RecheckStep(db: Db, c: CallerId)
    requires Inv(db) && Consistent(db) && c in db.calls && db.calls[c].Rechecking?
    ensures var db', b := Next(db, Recheck(c)), db.calls[c].batch;
            && c in db'.calls && db'.calls[c].Ended? && b !in db'.locks
            && if exists r :: Unassigned(db, r, b) then db'.answers == db.answers
               else |db'.answers| == |db.answers| + 1 && db'.answers[..|db.answers|] == db.answers
                    && Answers(db, db'.answers[|db.answers|], b, db.calls[c].fileLimit)
  {
    hide Inv, Truthful, IsEmpty, RowsOf, Unassigned;
    var b, limit := db.calls[c].batch, db.calls[c].fileLimit;
    RecheckAnswersFiles(db, c);
    var a := AnswerFor(b, limit, RowsOf(db.files, db.prepared[b]));
    TruthfulAnswer(db, b, limit);
    assert Next(db, Recheck(c)) == DoRecheck(db, c, db.calls[c]);
  }

  lemma TruthfulAnswer(db: Db, b: BatchId, limit: nat)
    requires b in db.prepared && PartList(db.files, db.prepared[b], b)
    ensures var a := AnswerFor(b, limit, RowsOf(db.files, db.prepared[b]));
            a.batch == b && a.fileLimit == limit && (IsEmpty(a) || Truthful(db, a))
  {
    AnswerIsCut(db, AnswerFor(b, limit, RowsOf(db.files, db.prepared[b])));
  }

  // ----- the guarded update -----

  /** The requests are all different, and each of them waits and is not yet assigned by this call. */
  predicate AllWait(db: Db, w: Call, ids: seq<RequestId>)
    requires w.Writing?
  {
    && (forall i, j :: 0 <= i < j < |ids| ==> ids[i] != ids[j])
    && forall i :: 0 <= i < |ids| ==> Waits(db, w.batch, ids[i]) && ids[i] !in w.assignment
  }

  /**
   A part is written if and only if every request in it still waits. Otherwise the call
   fails as a whole: its lock is free again and none of its parts is ever seen.
   */
  lemma PartIsWrittenIff(db: Db, c: CallerId, f: FileId)
    requires c in db.calls && db.calls[c].Writing? && |db.calls[c].written| < |db.calls[c].payloads| && f !in db.issued
    ensures var db', w := Next(db, WritePart(c, f)), db.calls[c];
            && c in db'.calls && SameTables(db, db') && db'.answers == db.answers
            && if AllWait(db, w, w.payloads[|w.written|].requestIds)
               then db'.calls[c].Writing? && db'.calls[c].written == w.written + [f]
                    && (forall r :: r in w.payloads[|w.written|].requestIds ==>
                          r in db'.calls[c].assignment && db'.calls[c].assignment[r] == f)
               else db'.calls[c].Ended? && w.batch !in db'.locks
  {
    hide Eligible, AllWait, Elements, DoWritePart, SameTables;
    var w := db.calls[c];
    var ids := w.payloads[|w.written|].requestIds;
    TouchedIff(db, w, ids);
    if |Eligible(db, w, ids)| == |ids| {
      PartWritten(db, c, w, f);
      InElements(ids);
    } else {
      PartRefused(db, c, w, f);
    }
    WriteTouchesTables(db, c, w, f);
    WriteDoesNotAnswer(db, c, w, f);
  }

  lemma WriteTouchesTables(db: Db, c: CallerId, w: Call, f: FileId)
    requires w.Writing? && |w.written| < |w.payloads|
    ensures SameTables(db, DoWritePart(db, c, w, f))
  {
    hide Eligible;
  }

  lemma InElements(ids: seq<RequestId>)
    ensures forall r :: r in Elements(ids) <==> r in ids
  {
  }

  lemma PartWritten(db: Db, c: CallerId, w: Call, f: FileId)
    requires w.Writing? && |w.written| < |w.payloads|
    requires |Eligible(db, w, w.payloads[|w.written|].requestIds)| == |w.payloads[|w.written|].requestIds|
    ensures var db', touched := DoWritePart(db, c, w, f), Eligible(db, w, w.payloads[|w.written|].requestIds);
            && c in db'.calls && db'.calls[c].Writing? && db'.calls[c].written == w.written + [f]
            && forall r :: r in touched ==> r in db'.calls[c].assignment && db'.calls[c].assignment[r] == f
  {
    hide Eligible;
  }

  lemma PartRefused(db: Db, c: CallerId, w: Call, f: FileId)
    requires w.Writing? && |w.written| < |w.payloads|
    requires |Eligible(db, w, w.payloads[|w.written|].requestIds)| != |w.payloads[|w.written|].requestIds|
    ensures var db' := DoWritePart(db, c, w, f); c in db'.calls && db'.calls[c].Ended? && w.batch !in db'.locks
  {
    hide Eligible;
  }

  lemma TouchedIff(db: Db, w: Call, ids: seq<RequestId>)
    requires w.Writing?
    ensures |Eligible(db, w, ids)| == |ids| <==> AllWait(db, w, ids)
    ensures |Eligible(db, w, ids)| == |ids| ==> Eligible(db, w, ids) == Elements(ids)
  {
    hide Unassigned;
    DistinctIffAsMany(ids);
    WaitIsUnassigned(db, w.batch);
    if AllWait(db, w, ids) {
      assert Eligible(db, w, ids) == Elements(ids);
    }
    if |Eligible(db, w, ids)| == |ids| {
      TouchedAll(db, w, ids);
      assert forall i :: 0 <= i < |ids| ==> ids[i] in Elements(ids);
    }
  }

  lemma WaitIsUnassigned(db: Db, b: BatchId)
    ensures forall r :: Waits(db, b, r) <==> Unassigned(db, r, b)
  {
  }

  lemma {:induction false} DistinctIffAsMany(ids: seq<RequestId>)
    ensures |Elements(ids)| == |ids| <==> forall i, j :: 0 <= i < j < |ids| ==> ids[i] != ids[j]
  {
    if ids != [] {
      var k := |ids| - 1;
      var before := ids[..k];
      DistinctIffAsMany(before);
      FewElements(before);
      assert Elements(ids) == Elements(before) + {ids[k]};
      if ids[k] in before {
        assert Elements(ids) == Elements(before);
      }
    }
  }

  // ----- batches and answers -----

  /** Batches come into being only by being created: preparing one that has disappeared writes nothing. */
  lemma OnlyCreationMakesBatches(steps: seq<Step>, step: Step, b: BatchId)
    requires b !in Execute(steps).batches && b in Next(Execute(steps), step).batches
    ensures step == CreateBatch(b)
  {
    hide Inv, DoRead, DoRecheck, DoWritePart, DoTakeLock, SumRequests, SumTokens, AnswerFor, RowsOf, Reassigned;
    var db := Execute(steps);
    EveryRunKeepsInv(steps);
    match step
    case Read(_, _, _, _, _) => ReadMakesNoBatch(db, step);
    case Recheck(c) => if Next(db, step) != db { RecheckMakesNoBatch(db, c, db.calls[c]); }
    case TakeLock(c) => if Next(db, step) != db { LockMakesNoBatch(db, c, db.calls[c]); }
    case WritePart(c, f) => if Next(db, step) != db { WriteTouchesTables(db, c, db.calls[c], f); }
    case Finish(c) => if Next(db, step) != db { CallIsOk(db, c); }
    case _ =>
  }

  lemma LockMakesNoBatch(db: Db, c: CallerId, call: Call)
    requires call.Assembled?
    ensures DoTakeLock(db, c, call).batches == db.batches
  {
  }

  lemma ReadMakesNoBatch(db: Db, step: Step)
    requires step.Read?
    ensures DoRead(db, step).batches == db.batches
  {
    hide AssemblyResult, IsSnapshot;
  }

  lemma RecheckMakesNoBatch(db: Db, c: CallerId, call: Call)
    requires call.Rechecking? && Consistent(db)
    ensures DoRecheck(db, c, call).batches == db.batches
  {
    hide AnswerFor, RowsOf;
  }

  /** Some call of the run asked about this batch with this limit. */
  predicate Asked(steps: seq<Step>, b: BatchId, limit: nat) {
    exists i :: 0 <= i < |steps| && steps[i].Read? && steps[i].batch == b && steps[i].fileLimit == limit
  }

  predicate CallsAsked(steps: seq<Step>, db: Db) {
    && (forall c :: c in db.calls && !db.calls[c].Ended? ==> Asked(steps, db.calls[c].batch, db.calls[c].fileLimit))
    && forall i :: 0 <= i < |db.answers| ==> Asked(steps, db.answers[i].batch, db.answers[i].fileLimit)
  }

  lemma AskedStays(steps: seq<Step>, step: Step, b: BatchId, limit: nat)
    requires Asked(steps, b, limit)
    ensures Asked(steps + [step], b, limit)
  {
    var i :| 0 <= i < |steps| && steps[i].Read? && steps[i].batch == b && steps[i].fileLimit == limit;
    assert (steps + [step])[i] == steps[i];
  }

  /** The call asks what it asked before. */
  predicate SameQuestion(db: Db, c: CallerId, call: Call)
    requires !call.Ended?
  {
    c in db.calls && !db.calls[c].Ended? && call.batch == db.calls[c].batch && call.fileLimit == db.calls[c].fileLimit
  }

  /** Every call that goes on after a step asks what it asked before. */
  ghost predicate KeepAsking(db: Db, db': Db) {
    forall c :: c in db'.calls && !db'.calls[c].Ended? ==> SameQuestion(db, c, db'.calls[c])
  }

  lemma LockKeepsAsking(db: Db, c: CallerId)
    requires c in db.calls && db.calls[c].Assembled?
    ensures KeepAsking(db, DoTakeLock(db, c, db.calls[c]))
  {
    hide PreparedFiles;
  }

  lemma RecheckKeepsAsking(db: Db, c: CallerId)
    requires c in db.calls && db.calls[c].Rechecking? && Consistent(db)
    ensures KeepAsking(db, DoRecheck(db, c, db.calls[c]))
  {
    hide AnswerFor, RowsOf, Unassigned;
  }

  lemma WriteKeepsAsking(db: Db, c: CallerId, f: FileId)
    requires c in db.calls && db.calls[c].Writing? && |db.calls[c].written| < |db.calls[c].payloads|
    ensures KeepAsking(db, DoWritePart(db, c, db.calls[c], f))
  {
    hide Eligible;
  }

  lemma FinishKeepsAsking(db: Db, c: CallerId)
    requires c in db.calls && db.calls[c].Writing?
    requires forall i :: 0 <= i < |db.calls[c].written| ==> db.calls[c].written[i] in db.calls[c].rows
    ensures KeepAsking(db, DoFinish(db, c, db.calls[c]))
  {
    hide AnswerFor, RowsOf, SumRequests, SumTokens, Reassigned;
  }

  lemma ReadAsks(db: Db, step: Step, c: CallerId)
    requires step.Read? && c in DoRead(db, step).calls && !DoRead(db, step).calls[c].Ended?
    ensures var call := DoRead(db, step).calls[c];
            || (call.batch == step.batch && call.fileLimit == step.fileLimit)
            || SameQuestion(db, c, call)
  {
    hide DoRead;
    ReadAddsOne(db, step);
  }

  /** A read changes nothing, or starts or ends its own call. */
  lemma ReadAddsOne(db: Db, step: Step)
    requires step.Read?
    ensures || DoRead(db, step) == db
            || DoRead(db, step) == With(db, step.caller, Ended)
            || (exists payloads ::
                  DoRead(db, step) == With(db, step.caller, Assembled(step.batch, payloads, step.fileLimit)))
  {
    hide AssemblyResult, IsSnapshot, With;
  }

  /** A call keeps its batch and limit, and only a read starts one. */
  lemma CallsKeepAsking(db: Db, step: Step, c: CallerId)
    requires c in Next(db, step).calls && !Next(db, step).calls[c].Ended?
    ensures var call := Next(db, step).calls[c];
            (step.Read? && call.batch == step.batch && call.fileLimit == step.fileLimit) || SameQuestion(db, c, call)
  {
    hide DoRead, DoTakeLock, DoRecheck, DoWritePart, DoFinish, RowLocked, Consistent;
    match step
    case Read(_, _, _, _, _) => ReadAsks(db, step, c);
    case TakeLock(d) => if Next(db, step) != db { LockKeepsAsking(db, d); }
    case Recheck(d) => if Next(db, step) != db { RecheckKeepsAsking(db, d); }
    case WritePart(d, f) => if Next(db, step) != db { WriteKeepsAsking(db, d, f); }
    case Finish(d) => if Next(db, step) != db { FinishKeepsAsking(db, d); }
    case _ =>
  }

  /** An answer is for the batch and limit of the call that gives it. */
  lemma AnswersTheCall(db: Db, step: Step)
    requires Next(db, step).answers != db.answers
    ensures (step.Recheck? || step.Finish?) && step.caller in db.calls && !db.calls[step.caller].Ended?
    ensures var call, answers := db.calls[step.caller], Next(db, step).answers;
            |answers| == |db.answers| + 1 && answers[..|db.answers|] == db.answers
            && answers[|db.answers|].batch == call.batch && answers[|db.answers|].fileLimit == call.fileLimit
  {
    hide DoRead, DoTakeLock, DoWritePart, RowLocked, Consistent, Below, AtOrAbove, RowsOf, Unassigned, SumRequests,
         SumTokens, Reassigned;
    if !step.Recheck? && !step.Finish? {
      OtherStepsDoNotAnswer(db, step);
    }
  }

  lemma {:induction false} EveryCallAsked(steps: seq<Step>)
    ensures CallsAsked(steps, Execute(steps))
  {
    hide Next, Asked;
    if steps != [] {
      var k := |steps| - 1;
      var db, step, db' := Execute(steps[..k]), steps[k], Execute(steps);
      EveryCallAsked(steps[..k]);
      assert steps == steps[..k] + [step];
      forall c | c in db'.calls && !db'.calls[c].Ended?
        ensures Asked(steps, db'.calls[c].batch, db'.calls[c].fileLimit)
      {
        CallsKeepAsking(db, step, c);
        if step.Read? && db'.calls[c].batch == step.batch && db'.calls[c].fileLimit == step.fileLimit {
          LastAsks(steps);
        } else {
          AskedStays(steps[..k], step, db'.calls[c].batch, db'.calls[c].fileLimit);
        }
      }
      forall i | 0 <= i < |db'.answers|
        ensures Asked(steps, db'.answers[i].batch, db'.answers[i].fileLimit)
      {
        if db'.answers != db.answers { AnswersTheCall(db, step); }
        AskedStays(steps[..k], step, db'.answers[i].batch, db'.answers[i].fileLimit);
      }
    }
  }

  lemma LastAsks(steps: seq<Step>)
    requires steps != [] && steps[|steps| - 1].Read?
    ensures Asked(steps, steps[|steps| - 1].batch, steps[|steps| - 1].fileLimit)
  {
  }

  /** Every answer of every run is for a batch and a limit that a call of the run asked for. */
  lemma AnswersWereAsked(steps: seq<Step>, i: nat)
    requires i < |Execute(steps).answers|
    ensures Asked(steps, Execute(steps).answers[i].batch, Execute(steps).answers[i].fileLimit)
  {
    EveryCallAsked(steps);
  }
}
