/**
 Preparation as its callers see it, over every interleaving: files and totals
 agree with the requests assigned to them, what is assigned stays assigned, and
 repeated calls agree.

 The last rests on a fact of its own: once a call has listed files for a batch, no
 later call answers it with none.
 */
module PreparationTheorems {
  import opened Assembly
  import opened Preparation
  import opened PreparationSafety

  /** The requests assigned to any of the listed files. */
  function AssignedToAny(requests: map<RequestId, Request>, ids: seq<FileId>): set<RequestId> {
    set r | r in requests && requests[r].file.Some? && requests[r].file.value in ids
  }

  lemma AssignedSplits(requests: map<RequestId, Request>, ids: seq<FileId>, k: nat)
    requires |ids| == k + 1 && forall i :: 0 <= i < k ==> ids[i] != ids[k]
    ensures |AssignedToAny(requests, ids)| == |AssignedToAny(requests, ids[..k])| + |AssignedTo(requests, ids[k])|
  {
    var before, last := AssignedToAny(requests, ids[..k]), AssignedTo(requests, ids[k]);
    assert ids == ids[..k] + [ids[k]];
    assert AssignedToAny(requests, ids) == before + last;
    assert before !! last;
  }

  /** The batch total counts each assigned request once. */
  lemma {:induction false} TotalCountsRequests(db: Db, b: BatchId, ids: seq<FileId>)
    requires PartList(db.files, ids, b)
    requires forall i :: 0 <= i < |ids| ==> |AssignedTo(db.requests, ids[i])| == db.files[ids[i]].requestCount
    ensures SumRequests(RowsOf(db.files, ids)) == |AssignedToAny(db.requests, ids)|
  {
    if ids == [] {
      assert AssignedToAny(db.requests, ids) == {};
    } else {
      var k := |ids| - 1;
      TotalCountsRequests(db, b, ids[..k]);
      assert RowsOf(db.files, ids)[..k] == RowsOf(db.files, ids[..k]);
      AssignedSplits(db.requests, ids, k);
    }
  }

  /**
   In every reachable state each file's count is the number of requests assigned
   to it, and each prepared batch's total is the sum over its files and the
   number of the batch's assigned requests.
   */
  lemma FilesAndTotalsAgree(steps: seq<Step>)
    ensures var db := Execute(steps);
            && (forall f :: f in db.files ==> |AssignedTo(db.requests, f)| == db.files[f].requestCount)
            && (forall r :: r in db.requests && db.requests[r].file.Some? ==>
                  db.requests[r].file.value in PreparedFiles(db, db.requests[r].batch))
            && (forall b :: b in db.prepared ==>
                  && b in db.batches && PartList(db.files, db.prepared[b], b)
                  && db.batches[b].requests == SumRequests(RowsOf(db.files, db.prepared[b]))
                  && db.batches[b].requests == |set r | r in db.requests && db.requests[r].batch == b
                     && db.requests[r].file.Some?|)
  {
    EveryRunKeepsInv(steps);
    var db := Execute(steps);
    forall b | b in db.prepared
      ensures b in db.batches && PartList(db.files, db.prepared[b], b)
      ensures db.batches[b].requests == SumRequests(RowsOf(db.files, db.prepared[b]))
      ensures db.batches[b].requests == |set r | r in db.requests && db.requests[r].batch == b
              && db.requests[r].file.Some?|
    {
      BatchTotal(db, b);
    }
  }

  lemma BatchTotal(db: Db, b: BatchId)
    requires Inv(db) && b in db.prepared
    ensures BatchOk(db, b)
    ensures db.batches[b].requests == |set r | r in db.requests && db.requests[r].batch == b
            && db.requests[r].file.Some?|
  {
    BatchIsOk(db, b);
    TotalCountsRequests(db, b, db.prepared[b]);
    assert AssignedToAny(db.requests, db.prepared[b])
           == set r | r in db.requests && db.requests[r].batch == b && db.requests[r].file.Some?;
  }

  /** What is committed about preparation only grows: assignments, files and file lists stay as they are. */
  predicate Grows(db: Db, db': Db) {
    && (forall r :: r in db.requests && db.requests[r].file.Some? ==>
          r in db'.requests && db'.requests[r].file == db.requests[r].file)
    && (forall f :: f in db.files ==> f in db'.files && db'.files[f] == db.files[f])
    && (forall b :: b in db.prepared ==> b in db'.prepared && db'.prepared[b] == db.prepared[b])
  }

  lemma FinishGrows(db: Db, c: CallerId)
    requires Inv(db) && c in db.calls && db.calls[c].Writing?
    requires forall i :: 0 <= i < |db.calls[c].written| ==> db.calls[c].written[i] in db.calls[c].rows
    ensures Grows(db, DoFinish(db, c, db.calls[c]))
  {
    hide Inv;
    CallIsOk(db, c);
  }

  predicate Untouched(db: Db, db': Db) {
    db'.requests == db.requests && db'.files == db.files && db'.prepared == db.prepared
  }

  lemma UntouchedGrows(db: Db, db': Db)
    requires Untouched(db, db')
    ensures Grows(db, db')
  {
  }

  lemma FreeRequestsGrow(db: Db, db': Db)
    requires FreeRequestsDiffer(db, db')
    ensures Grows(db, db')
  {
  }

  lemma ReadTouchesNothing(db: Db, step: Step)
    requires step.Read?
    ensures Untouched(db, DoRead(db, step))
  {
    hide AssemblyResult, IsSnapshot;
  }

  lemma LockTouchesNothing(db: Db, c: CallerId, call: Call)
    requires call.Assembled?
    ensures Untouched(db, DoTakeLock(db, c, call))
  {
  }

  lemma RecheckTouchesNothing(db: Db, c: CallerId, call: Call)
    requires call.Rechecking? && Consistent(db)
    ensures Untouched(db, DoRecheck(db, c, call))
  {
    hide AnswerFor;
  }

  lemma WriteTouchesNothing(db: Db, c: CallerId, call: Call, f: FileId)
    requires call.Writing? && |call.written| < |call.payloads|
    ensures Untouched(db, DoWritePart(db, c, call, f))
  {
    hide Eligible;
  }

  lemma StepGrows(db: Db, step: Step)
    requires Inv(db)
    ensures Grows(db, Next(db, step))
  {
    hide Grows, Untouched, FreeRequestsDiffer;
    if step.Finish? {
      FinishStepGrows(db, step);
    } else if step.InsertRequest? || step.Withdraw? {
      FreeStepDiffers(db, step);
      FreeRequestsGrow(db, Next(db, step));
    } else {
      OtherStepsTouchNothing(db, step);
      UntouchedGrows(db, Next(db, step));
    }
  }

  lemma FinishStepGrows(db: Db, step: Step)
    requires Inv(db) && step.Finish?
    ensures Grows(db, Next(db, step))
  {
    hide Inv, DoFinish, Grows;
    if Next(db, step) != db {
      FinishGrows(db, step.caller);
    } else {
      StutterTouchesNothing(db);
      UntouchedGrows(db, db);
    }
  }

  lemma FreeStepDiffers(db: Db, step: Step)
    requires step.InsertRequest? || step.Withdraw?
    ensures FreeRequestsDiffer(db, Next(db, step))
  {
  }

  lemma OtherStepsTouchNothing(db: Db, step: Step)
    requires !step.Finish? && !step.InsertRequest? && !step.Withdraw?
    ensures Untouched(db, Next(db, step))
  {
    hide DoRead, DoTakeLock, DoRecheck, DoWritePart, Consistent;
    match step
    case CreateBatch(_) =>
    case Read(_, _, _, _, _) => ReadTouchesNothing(db, step);
    case TakeLock(c) => if Next(db, step) != db { LockTouchesNothing(db, c, db.calls[c]); }
    case Recheck(c) => if Next(db, step) != db { RecheckTouchesNothing(db, c, db.calls[c]); }
    case WritePart(c, f) => if Next(db, step) != db { WriteTouchesNothing(db, c, db.calls[c], f); }
    case Crash(c) =>
  }

  lemma StutterTouchesNothing(db: Db)
    ensures Untouched(db, db)
  {
  }

  /** A request once assigned stays in its one file, and a prepared batch keeps its files, for the rest of every run. */
  lemma {:induction false} PreparationIsForever(steps: seq<Step>, n: nat)
    requires n <= |steps|
    ensures Grows(Execute(steps[..n]), Execute(steps))
  {
    hide Grows, Inv, Next;
    if n == |steps| {
      assert steps[..n] == steps;
      StutterTouchesNothing(Execute(steps));
      UntouchedGrows(Execute(steps), Execute(steps));
    } else {
      var k := |steps| - 1;
      assert steps[..k][..n] == steps[..n];
      PreparationIsForever(steps[..k], n);
      EveryRunKeepsInv(steps[..k]);
      StepGrows(Execute(steps[..k]), steps[k]);
      GrowsOn(Execute(steps[..n]), Execute(steps[..k]), Execute(steps));
    }
  }

  lemma GrowsOn(a: Db, b: Db, c: Db)
    requires Grows(a, b) && Grows(b, c)
    ensures Grows(a, c)
  {
  }

  /** The answer is the batch's committed files: the first `fileLimit` of them ready, the rest overflow. */
  predicate Truthful(db: Db, a: Answer) {
    && a.batch in db.prepared && PartList(db.files, db.prepared[a.batch], a.batch)
    && var rows := RowsOf(db.files, db.prepared[a.batch]);
       var cut := if |rows| <= a.fileLimit then |rows| else a.fileLimit;
       a.ready == rows[..cut] && a.overflow == rows[cut..]
  }

  /** A call that found nothing to prepare. */
  predicate IsEmpty(a: Answer) {
    a.ready == [] && a.overflow == []
  }

  lemma AnswerIsCut(db: Db, a: Answer)
    requires AnswerOk(db, a)
    ensures IsEmpty(a) || Truthful(db, a)
  {
    if !IsEmpty(a) {
      NumberedPartsAreCut(RowsOf(db.files, db.prepared[a.batch]), a.fileLimit);
    }
  }

  /** No answer for a batch forgets files that an earlier one listed. */
  predicate Remembers(answers: seq<Answer>) {
    forall i, j :: 0 <= i < j < |answers| && answers[i].batch == answers[j].batch && !IsEmpty(answers[i]) ==>
        !IsEmpty(answers[j])
  }

  lemma RemembersMore(answers: seq<Answer>, a: Answer)
    requires Remembers(answers)
    requires forall i :: 0 <= i < |answers| && answers[i].batch == a.batch && !IsEmpty(answers[i]) ==> !IsEmpty(a)
    ensures Remembers(answers + [a])
  {
  }

  /** Only a prepared batch has been answered with files. */
  lemma AnsweredIsPrepared(db: Db, i: nat)
    requires Inv(db) && i < |db.answers| && !IsEmpty(db.answers[i])
    ensures db.answers[i].batch in db.prepared
  {
    assert AnswerOk(db, db.answers[i]);
  }

  /** A call that finds the batch prepared answers with its files. */
  lemma RecheckAnswersFiles(db: Db, c: CallerId)
    requires Inv(db) && c in db.calls && db.calls[c].Rechecking?
    ensures var b := db.calls[c].batch;
            b in db.prepared && PartList(db.files, db.prepared[b], b)
            && !IsEmpty(AnswerFor(b, db.calls[c].fileLimit, RowsOf(db.files, db.prepared[b])))
  {
    CallIsOk(db, c);
    var b := db.calls[c].batch;
    BatchIsOk(db, b);
    NumberedPartsAreCut(RowsOf(db.files, db.prepared[b]), db.calls[c].fileLimit);
  }

  lemma RecheckRemembers(db: Db, c: CallerId)
    requires Inv(db) && c in db.calls && db.calls[c].Rechecking? && Consistent(db) && Remembers(db.answers)
    ensures Remembers(DoRecheck(db, c, db.calls[c]).answers)
  {
    hide Remembers, IsEmpty, AnswerFor, Inv, PartList;
    var b := db.calls[c].batch;
    RecheckAnswersFiles(db, c);
    RemembersMore(db.answers, AnswerFor(b, db.calls[c].fileLimit, RowsOf(db.files, db.prepared[b])));
  }

  lemma FinishRemembers(db: Db, c: CallerId)
    requires Inv(db) && c in db.calls && db.calls[c].Writing? && Remembers(db.answers)
    requires forall i :: 0 <= i < |db.calls[c].written| ==> db.calls[c].written[i] in db.calls[c].rows
    ensures Remembers(DoFinish(db, c, db.calls[c]).answers)
  {
    hide Remembers, IsEmpty, AnswerFor, Inv;
    var call := db.calls[c];
    CallIsOk(db, c);
    var a := AnswerFor(call.batch, call.fileLimit, RowsOf(call.rows, call.written));
    AnswerIsFor(call.batch, call.fileLimit, RowsOf(call.rows, call.written));
    forall i | 0 <= i < |db.answers| && db.answers[i].batch == a.batch
      ensures IsEmpty(db.answers[i])
    {
      if !IsEmpty(db.answers[i]) { AnsweredIsPrepared(db, i); }
    }
    RemembersMore(db.answers, a);
  }

  lemma AnswerIsFor(b: BatchId, limit: nat, rows: seq<FileRow>)
    ensures AnswerFor(b, limit, rows).batch == b
  {
  }

  lemma StepRemembers(db: Db, step: Step)
    requires Inv(db) && Remembers(db.answers)
    ensures Remembers(Next(db, step).answers)
  {
    hide Inv, Remembers, DoRecheck, DoFinish, Consistent, DoRead, DoTakeLock, DoWritePart;
    if step.Recheck? {
      if Next(db, step) != db { RecheckRemembers(db, step.caller); }
    } else if step.Finish? {
      if Next(db, step) != db { FinishRemembers(db, step.caller); }
    } else {
      OtherStepsDoNotAnswer(db, step);
    }
  }

  lemma OtherStepsDoNotAnswer(db: Db, step: Step)
    requires !step.Recheck? && !step.Finish?
    ensures Next(db, step).answers == db.answers
  {
    hide DoRead, DoTakeLock, DoWritePart, RowLocked, Consistent, DoRecheck, DoFinish;
    match step
    case CreateBatch(_) =>
    case InsertRequest(_, _, _) =>
    case Withdraw(_) =>
    case Read(_, _, _, _, _) => ReadDoesNotAnswer(db, step);
    case TakeLock(c) => if c in db.calls && db.calls[c].Assembled? { LockDoesNotAnswer(db, c, db.calls[c]); }
    case WritePart(c, f) => if Next(db, step) != db { WriteDoesNotAnswer(db, c, db.calls[c], f); }
    case Crash(_) =>
  }

  lemma ReadDoesNotAnswer(db: Db, step: Step)
    requires step.Read?
    ensures DoRead(db, step).answers == db.answers
  {
    hide AssemblyResult, IsSnapshot;
  }

  lemma LockDoesNotAnswer(db: Db, c: CallerId, call: Call)
    requires call.Assembled?
    ensures DoTakeLock(db, c, call).answers == db.answers
  {
  }

  lemma WriteDoesNotAnswer(db: Db, c: CallerId, call: Call, f: FileId)
    requires call.Writing? && |call.written| < |call.payloads|
    ensures DoWritePart(db, c, call, f).answers == db.answers
  {
    hide Eligible;
  }

  lemma {:induction false} EveryRunRemembers(steps: seq<Step>)
    ensures Remembers(Execute(steps).answers)
  {
    hide Inv, Remembers, Next;
    if steps == [] {
      NothingToRemember();
    } else {
      var k := |steps| - 1;
      EveryRunKeepsInv(steps[..k]);
      EveryRunRemembers(steps[..k]);
      StepRemembers(Execute(steps[..k]), steps[k]);
    }
  }

  lemma NothingToRemember()
    ensures Remembers(EMPTY.answers)
  {
  }

  /**
   Repeating a call with the same file limit gives the same lists, and they are
   the batch's committed files, if and only if the first call found any files or
   the repeated one still finds none.
   */
  lemma RepeatedCallsAgree(steps: seq<Step>, i: nat, j: nat)
    requires i < j < |Execute(steps).answers|
    requires Execute(steps).answers[i].batch == Execute(steps).answers[j].batch
    requires Execute(steps).answers[i].fileLimit == Execute(steps).answers[j].fileLimit
    ensures var db := Execute(steps);
            var a, b := db.answers[i], db.answers[j];
            && (!IsEmpty(a) ==> b == a && Truthful(db, a))
            && (a == b <==> !IsEmpty(a) || IsEmpty(b))
  {
    hide Next, PartList, RowsOf;
    EveryRunKeepsInv(steps);
    EveryRunRemembers(steps);
    var db := Execute(steps);
    AnswerIsCut(db, db.answers[i]);
    AnswerIsCut(db, db.answers[j]);
  }
}
