/**
 Token totals over every interleaving of preparation calls: each file records the
 tokens of the requests assigned to it, and each prepared batch those of all its
 assigned requests.
 */
module PreparationTokens {
  import opened Assembly
  import opened Preparation
  import opened PreparationSafety
  import opened PreparationTheorems

  // ----- the tokens of a set of requests -----

  function TokensIn(requests: map<RequestId, Request>, r: RequestId): nat {
    if r in requests then requests[r].tokens else 0
  }

  ghost function Pick(s: set<RequestId>): (r: RequestId)
    requires s != {}
    ensures r in s
  {
    var r :| r in s; r
  }

  ghost function TokensOf(requests: map<RequestId, Request>, s: set<RequestId>): nat {
    if s == {} then 0 else TokensOf(requests, s - {Pick(s)}) + TokensIn(requests, Pick(s))
  }

  lemma {:induction false} TakeOut(requests: map<RequestId, Request>, s: set<RequestId>, x: RequestId)
    requires x in s
    ensures TokensOf(requests, s) == TokensOf(requests, s - {x}) + TokensIn(requests, x)
  {
    var r := Pick(s);
    if r != x {
      TakeOut(requests, s - {r}, x);
      TakeOut(requests, s - {x}, r);
      assert s - {r} - {x} == s - {x} - {r};
    }
  }

  lemma {:induction false} TokensOfUnion(requests: map<RequestId, Request>, a: set<RequestId>, b: set<RequestId>)
    requires a !! b
    ensures TokensOf(requests, a + b) == TokensOf(requests, a) + TokensOf(requests, b)
    decreases |b|
  {
    if b == {} {
      assert a + b == a;
    } else {
      var x := Pick(b);
      TokensOfUnion(requests, a, b - {x});
      TakeOut(requests, a + b, x);
      assert a + b - {x} == a + (b - {x});
    }
  }

  /** The requests of `before` are still there, with the same tokens. */
  predicate SameTokens(before: map<RequestId, Request>, after: map<RequestId, Request>) {
    forall r :: r in before ==> r in after && after[r].tokens == before[r].tokens
  }

  lemma {:induction false} TokensStay(before: map<RequestId, Request>, after: map<RequestId, Request>,
                                      s: set<RequestId>)
    requires SameTokens(before, after) && s <= before.Keys
    ensures TokensOf(after, s) == TokensOf(before, s)
  {
    if s != {} {
      TokensStay(before, after, s - {Pick(s)});
    }
  }

  function Elements(ids: seq<RequestId>): set<RequestId> {
    set r | r in ids
  }

  lemma {:induction false} FewElements(ids: seq<RequestId>)
    ensures |Elements(ids)| <= |ids|
  {
    if ids != [] {
      var k := |ids| - 1;
      FewElements(ids[..k]);
      assert Elements(ids) == Elements(ids[..k]) + {ids[k]};
    }
  }

  lemma {:induction false} TokensOfRows(requests: map<RequestId, Request>, rows: seq<Queued>)
    requires forall i, j :: 0 <= i < j < |rows| ==> rows[i].id != rows[j].id
    requires forall i :: 0 <= i < |rows| ==> rows[i].tokens == TokensIn(requests, rows[i].id)
    ensures TokensOf(requests, Elements(Ids(rows))) == Tokens(rows)
  {
    if rows != [] {
      var k := |rows| - 1;
      TokensOfRows(requests, rows[..k]);
      assert Ids(rows) == Ids(rows[..k]) + [rows[k].id];
      assert Elements(Ids(rows)) == Elements(Ids(rows[..k])) + {rows[k].id};
      TakeOut(requests, Elements(Ids(rows)), rows[k].id);
      assert Elements(Ids(rows)) - {rows[k].id} == Elements(Ids(rows[..k]));
    }
  }

  // ----- the invariant -----

  ghost predicate PayloadAdds(requests: map<RequestId, Request>, p: Payload) {
    && Elements(p.requestIds) <= requests.Keys
    && p.totalTokens == TokensOf(requests, Elements(p.requestIds))
  }

  ghost predicate RowsAdd(requests: map<RequestId, Request>, rows: map<FileId, FileRow>, assignment: map<RequestId,
                          FileId>) {
    forall f :: f in rows ==> rows[f].totalTokens == TokensOf(requests, MappedTo(assignment, f))
  }

  ghost predicate CallAdds(requests: map<RequestId, Request>, call: Call) {
    match call
    case Assembled(_, payloads, _) => forall i :: 0 <= i < |payloads| ==> PayloadAdds(requests, payloads[i])
    case Writing(_, payloads, _, _, rows, assignment) =>
      (forall i :: 0 <= i < |payloads| ==> PayloadAdds(requests, payloads[i])) && RowsAdd(requests, rows, assignment)
    case _ => true
  }

  ghost predicate FilesAdd(db: Db) {
    forall f :: f in db.files ==> db.files[f].totalTokens == TokensOf(db.requests, AssignedTo(db.requests, f))
  }

  ghost predicate TokensAdd(db: Db) {
    FilesAdd(db) && forall c :: c in db.calls ==> CallAdds(db.requests, db.calls[c])
  }

  // ----- what other calls keep -----

  lemma PayloadStays(before: map<RequestId, Request>, after: map<RequestId, Request>, p: Payload)
    requires SameTokens(before, after) && PayloadAdds(before, p)
    ensures PayloadAdds(after, p)
  {
    TokensStay(before, after, Elements(p.requestIds));
  }

  lemma CallStays(before: map<RequestId, Request>, after: map<RequestId, Request>, call: Call)
    requires SameTokens(before, after) && CallAdds(before, call)
    requires call.Writing? ==> forall r :: r in call.assignment ==> r in before
    ensures CallAdds(after, call)
  {
    hide PayloadAdds, SameTokens;
    if call.Assembled? || call.Writing? {
      forall i | 0 <= i < |call.payloads|
        ensures PayloadAdds(after, call.payloads[i])
      {
        PayloadStays(before, after, call.payloads[i]);
      }
    }
    if call.Writing? {
      forall f | f in call.rows
        ensures call.rows[f].totalTokens == TokensOf(after, MappedTo(call.assignment, f))
      {
        TokensStay(before, after, MappedTo(call.assignment, f));
      }
    }
  }

  lemma WriterAssignsRequests(db: Db, c: CallerId)
    requires Inv(db) && c in db.calls && db.calls[c].Writing?
    ensures forall r :: r in db.calls[c].assignment ==> r in db.requests
  {
    CallIsOk(db, c);
  }

  /** Calls that did not move still have payloads and pending files that add up. */
  lemma OthersStay(db: Db, db': Db, c: CallerId)
    requires Inv(db) && TokensAdd(db) && SameTokens(db.requests, db'.requests)
    requires forall d :: d in db'.calls && d != c ==> d in db.calls && db'.calls[d] == db.calls[d]
    requires c in db'.calls ==> CallAdds(db'.requests, db'.calls[c])
    ensures forall d :: d in db'.calls ==> CallAdds(db'.requests, db'.calls[d])
  {
    hide Inv, CallAdds, SameTokens, FilesAdd;
    forall d | d in db'.calls && d != c
      ensures CallAdds(db'.requests, db'.calls[d])
    {
      if db.calls[d].Writing? { WriterAssignsRequests(db, d); }
      CallStays(db.requests, db'.requests, db.calls[d]);
    }
  }

  lemma SameRequests(requests: map<RequestId, Request>)
    ensures SameTokens(requests, requests)
  {
  }

  /** A step that changes one call and neither requests nor files. */
  lemma CallStepAdds(db: Db, db': Db, c: CallerId)
    requires Inv(db) && TokensAdd(db) && db'.requests == db.requests && db'.files == db.files
    requires forall d :: d in db'.calls && d != c ==> d in db.calls && db'.calls[d] == db.calls[d]
    requires c in db'.calls ==> CallAdds(db'.requests, db'.calls[c])
    ensures TokensAdd(db')
  {
    hide Inv, CallAdds, SameTokens;
    SameRequests(db.requests);
    OthersStay(db, db', c);
  }

  // ----- reading -----

  lemma SnapshotTokens(db: Db, b: BatchId, rows: seq<Queued>)
    requires IsSnapshot(db, b, rows)
    ensures forall i, j :: 0 <= i < j < |rows| ==> rows[i].id != rows[j].id
    ensures forall i :: 0 <= i < |rows| ==>
              rows[i].id in db.requests && rows[i].tokens == TokensIn(db.requests, rows[i].id)
  {
    forall i | 0 <= i < |rows|
      ensures rows[i].id in db.requests
    {
      assert Unassigned(db, rows[i].id, b);
    }
  }

  /** A part of the rows read records their tokens. */
  lemma CarriedAdds(requests: map<RequestId, Request>, rows: seq<Queued>, p: Payload, start: nat)
    requires forall i, j :: 0 <= i < j < |rows| ==> rows[i].id != rows[j].id
    requires forall i :: 0 <= i < |rows| ==> rows[i].id in requests && rows[i].tokens == TokensIn(requests, rows[i].id)
    requires Carries(p, rows, start)
    ensures PayloadAdds(requests, p)
  {
    hide TokensOf, TokensIn, Tokens, ByteCount;
    var part := rows[start..start + p.recordCount];
    assert forall i :: 0 <= i < |part| ==> part[i] == rows[start + i];
    assert p.requestIds == Ids(part);
    TokensOfRows(requests, part);
  }

  lemma ReadAdds(db: Db, step: Step)
    requires Inv(db) && TokensAdd(db) && step.Read?
    ensures TokensAdd(DoRead(db, step))
  {
    hide Inv, TokensAdd, AssemblyResult, IsSnapshot, Carries, PayloadAdds;
    var db' := DoRead(db, step);
    if db' != db {
      if AssemblyResult(step.lim, step.rows).Parts? {
        var ps := AssemblyResult(step.lim, step.rows).payloads;
        SnapshotTokens(db, step.batch, step.rows);
        PartsCarryRows(step.lim, step.rows);
        forall i | 0 <= i < |ps|
          ensures PayloadAdds(db.requests, ps[i])
        {
          CarriedAdds(db.requests, step.rows, ps[i], RowsBefore(ps, i));
        }
      }
      CallStepAdds(db, db', step.caller);
    }
  }

  // ----- locking, rechecking and crashing -----

  lemma LockAdds(db: Db, c: CallerId)
    requires Inv(db) && TokensAdd(db) && c in db.calls && db.calls[c].Assembled?
    ensures TokensAdd(DoTakeLock(db, c, db.calls[c]))
  {
    hide Inv, TokensAdd, CallAdds;
    var db' := DoTakeLock(db, c, db.calls[c]);
    if db' != db {
      LockedCallAdds(db, c);
      CallStepAdds(db, db', c);
    }
  }

  lemma LockedCallAdds(db: Db, c: CallerId)
    requires TokensAdd(db) && c in db.calls && db.calls[c].Assembled?
    ensures var db' := DoTakeLock(db, c, db.calls[c]); c in db'.calls && CallAdds(db.requests, db'.calls[c])
  {
    hide TokensAdd, PayloadAdds, PreparedFiles;
    CallAddsUp(db, c);
  }

  lemma CallAddsUp(db: Db, c: CallerId)
    requires TokensAdd(db) && c in db.calls
    ensures CallAdds(db.requests, db.calls[c])
  {
  }

  lemma UnlockAdds(db: Db, db': Db, c: CallerId, b: BatchId)
    requires Inv(db) && TokensAdd(db)
    requires db' == Unlocked(db, c, b).(issued := db'.issued, answers := db'.answers)
    ensures TokensAdd(db')
  {
    hide Inv, TokensAdd;
    CallStepAdds(db, db', c);
  }

  lemma RecheckAdds(db: Db, c: CallerId)
    requires Inv(db) && TokensAdd(db) && c in db.calls && db.calls[c].Rechecking? && Consistent(db)
    ensures TokensAdd(DoRecheck(db, c, db.calls[c]))
  {
    hide Inv, TokensAdd, AnswerFor, RowsOf, Unassigned;
    UnlockAdds(db, DoRecheck(db, c, db.calls[c]), c, db.calls[c].batch);
  }

  // ----- writing one part -----

  /** The guarded update touched as many requests as the part has, so it touched exactly those. */
  lemma TouchedAll(db: Db, w: Call, ids: seq<RequestId>)
    requires w.Writing? && |Eligible(db, w, ids)| == |ids|
    ensures Eligible(db, w, ids) == Elements(ids)
  {
    hide Unassigned;
    var touched := Eligible(db, w, ids);
    assert touched <= Elements(ids);
    FewElements(ids);
    assert Elements(ids) == touched + (Elements(ids) - touched);
  }

  lemma PendingFileIsNew(db: Db, c: CallerId, f: FileId)
    requires Inv(db) && c in db.calls && db.calls[c].Writing? && f !in db.issued
    ensures f !in db.calls[c].rows && forall r :: r in db.calls[c].assignment ==> db.calls[c].assignment[r] != f
  {
    hide CommittedOk, AnswerOk;
    CallIsOk(db, c);
  }

  lemma RowsAfterPart(requests: map<RequestId, Request>, w: Call, touched: set<RequestId>, f: FileId, row: FileRow)
    requires w.Writing? && RowsAdd(requests, w.rows, w.assignment) && f !in w.rows
    requires forall r :: r in touched ==> r !in w.assignment
    requires forall r :: r in w.assignment ==> w.assignment[r] != f
    requires row.totalTokens == TokensOf(requests, touched)
    ensures RowsAdd(requests, w.rows[f := row], w.assignment + map r | r in touched :: f)
  {
    hide TokensOf, MappedTo;
    var rows, assignment := w.rows[f := row], w.assignment + map r | r in touched :: f;
    forall g | g in rows
      ensures rows[g].totalTokens == TokensOf(requests, MappedTo(assignment, g))
    {
      MappedAfter(w.assignment, touched, f, g);
    }
  }

  lemma WritePartAdds(db: Db, c: CallerId, f: FileId)
    requires Inv(db) && TokensAdd(db) && c in db.calls && db.calls[c].Writing? && f !in db.issued
    requires |db.calls[c].written| < |db.calls[c].payloads|
    ensures TokensAdd(DoWritePart(db, c, db.calls[c], f))
  {
    hide Inv, TokensAdd, Unassigned, RowsAdd, TokensOf, Elements;
    var w, db' := db.calls[c], DoWritePart(db, c, db.calls[c], f);
    var payload := w.payloads[|w.written|];
    var touched := Eligible(db, w, payload.requestIds);
    CallAddsUp(db, c);
    if |touched| == |payload.requestIds| {
      TouchedAll(db, w, payload.requestIds);
      PendingFileIsNew(db, c, f);
      assert PayloadAdds(db.requests, payload);
      var row := FileRow(w.batch, payload.partIndex, payload.recordCount, payload.totalTokens);
      RowsAfterPart(db.requests, w, touched, f, row);
      CallStepAdds(db, db', c);
    } else {
      UnlockAdds(db, db', c, w.batch);
    }
  }

  // ----- commit -----

  lemma ReassignedTokens(requests: map<RequestId, Request>, assignment: map<RequestId, FileId>)
    ensures SameTokens(requests, Reassigned(requests, assignment))
  {
  }

  lemma CommitFilesAdd(db: Db, c: CallerId)
    requires Inv(db) && TokensAdd(db) && c in db.calls && db.calls[c].Writing?
    requires forall i :: 0 <= i < |db.calls[c].written| ==> db.calls[c].written[i] in db.calls[c].rows
    ensures FilesAdd(DoFinish(db, c, db.calls[c]))
  {
    hide Inv, SumRequests, SumTokens, AnswerFor, RowsOf, Reassigned, MappedTo, AssignedTo, TokensOf, CallAdds,
         SameTokens;
    var w, db' := db.calls[c], DoFinish(db, c, db.calls[c]);
    ReassignedTokens(db.requests, w.assignment);
    forall f | f in db'.files
      ensures db'.files[f].totalTokens == TokensOf(db'.requests, AssignedTo(db'.requests, f))
    {
      AssignedAfterCommit(db, c, f);
      KnownSets(db, c, f);
      PendingAdds(db, c, f);
      if f in w.rows {
        TokensStay(db.requests, db'.requests, MappedTo(w.assignment, f));
      } else {
        TokensStay(db.requests, db'.requests, AssignedTo(db.requests, f));
      }
    }
  }

  lemma KnownSets(db: Db, c: CallerId, f: FileId)
    requires Inv(db) && c in db.calls && db.calls[c].Writing?
    ensures AssignedTo(db.requests, f) <= db.requests.Keys
    ensures MappedTo(db.calls[c].assignment, f) <= db.requests.Keys
  {
    hide Inv;
    WriterAssignsRequests(db, c);
  }

  lemma PendingAdds(db: Db, c: CallerId, f: FileId)
    requires TokensAdd(db) && c in db.calls && db.calls[c].Writing?
    ensures f in db.calls[c].rows ==>
              db.calls[c].rows[f].totalTokens == TokensOf(db.requests, MappedTo(db.calls[c].assignment, f))
  {
    hide FilesAdd, PayloadAdds, TokensOf, MappedTo;
    CallAddsUp(db, c);
  }

  lemma FinishAdds(db: Db, c: CallerId)
    requires Inv(db) && TokensAdd(db) && c in db.calls && db.calls[c].Writing?
    requires forall i :: 0 <= i < |db.calls[c].written| ==> db.calls[c].written[i] in db.calls[c].rows
    ensures TokensAdd(DoFinish(db, c, db.calls[c]))
  {
    var w, db' := db.calls[c], DoFinish(db, c, db.calls[c]);
    CommitFilesAdd(db, c);
    ReassignedTokens(db.requests, w.assignment);
    hide Inv, SumRequests, SumTokens, AnswerFor, RowsOf, Reassigned, FilesAdd, SameTokens;
    OthersStay(db, db', c);
  }

  // ----- requests coming and going -----

  lemma FreeRequestsAdd(db: Db, db': Db)
    requires Inv(db) && TokensAdd(db) && FreeRequestsDiffer(db, db') && SameTokens(db.requests, db'.requests)
    ensures TokensAdd(db')
  {
    hide Inv, TokensOf, CallAdds, SameTokens;
    forall f | f in db'.files
      ensures db'.files[f].totalTokens == TokensOf(db'.requests, AssignedTo(db'.requests, f))
    {
      assert AssignedTo(db'.requests, f) == AssignedTo(db.requests, f);
      TokensStay(db.requests, db'.requests, AssignedTo(db.requests, f));
    }
    forall d | d in db'.calls
      ensures CallAdds(db'.requests, db'.calls[d])
    {
      if db.calls[d].Writing? { WriterAssignsRequests(db, d); }
      CallStays(db.requests, db'.requests, db.calls[d]);
    }
  }

  lemma FreeStepKeepsTokens(db: Db, step: Step)
    requires step.InsertRequest? || step.Withdraw?
    ensures SameTokens(db.requests, Next(db, step).requests)
  {
    hide RowLocked;
  }

  lemma StepAdds(db: Db, step: Step)
    requires Inv(db) && TokensAdd(db)
    ensures TokensAdd(Next(db, step))
  {
    hide Inv, TokensAdd, DoRead, DoTakeLock, DoRecheck, DoWritePart, DoFinish, FreeRequestsDiffer, SameTokens,
         RowLocked;
    match step
    case CreateBatch(b) => UntouchedAdds(db, Next(db, step));
    case InsertRequest(_, _, _) => FreeStepAdds(db, step);
    case Withdraw(_) => FreeStepAdds(db, step);
    case Read(_, _, _, _, _) => ReadAdds(db, step);
    case TakeLock(c) => if c in db.calls && db.calls[c].Assembled? { LockAdds(db, c); }
    case Recheck(c) => if c in db.calls && db.calls[c].Rechecking? && Consistent(db) { RecheckAdds(db, c); }
    case WritePart(c, f) =>
      if c in db.calls && db.calls[c].Writing? && |db.calls[c].written| < |db.calls[c].payloads| && f !in db.issued {
        WritePartAdds(db, c, f);
      }
    case Finish(c) =>
      if c in db.calls && db.calls[c].Writing? && |db.calls[c].written| == |db.calls[c].payloads|
         && forall i :: 0 <= i < |db.calls[c].written| ==> db.calls[c].written[i] in db.calls[c].rows {
        FinishAdds(db, c);
      }
    case Crash(c) =>
      if c in db.calls && InTransaction(db.calls[c]) { UnlockAdds(db, Next(db, step), c, db.calls[c].batch); }
  }

  lemma FreeStepAdds(db: Db, step: Step)
    requires Inv(db) && TokensAdd(db) && (step.InsertRequest? || step.Withdraw?)
    ensures TokensAdd(Next(db, step))
  {
    hide Inv, TokensAdd, FreeRequestsDiffer, SameTokens, Next;
    FreeStepDiffers(db, step);
    FreeStepKeepsTokens(db, step);
    FreeRequestsAdd(db, Next(db, step));
  }

  lemma UntouchedAdds(db: Db, db': Db)
    requires TokensAdd(db) && db'.requests == db.requests && db'.files == db.files && db'.calls == db.calls
    ensures TokensAdd(db')
  {
  }

  lemma {:induction false} EveryRunAdds(steps: seq<Step>)
    ensures TokensAdd(Execute(steps))
  {
    hide Next, Inv, TokensAdd;
    if steps == [] {
      EmptyAdds();
    } else {
      var before := steps[..|steps| - 1];
      EveryRunAdds(before);
      EveryRunKeepsInv(before);
      StepAdds(Execute(before), steps[|steps| - 1]);
    }
  }

  lemma EmptyAdds()
    ensures TokensAdd(EMPTY)
  {
  }

  // ----- totals -----

  lemma {:induction false} TotalAddsTokens(db: Db, b: BatchId, ids: seq<FileId>)
    requires FilesAdd(db) && PartList(db.files, ids, b)
    ensures SumTokens(RowsOf(db.files, ids)) == TokensOf(db.requests, AssignedToAny(db.requests, ids))
  {
    hide TokensOf, AssignedTo;
    if ids == [] {
      assert AssignedToAny(db.requests, ids) == {};
      NoTokens(db.requests);
    } else {
      var k := |ids| - 1;
      TotalAddsTokens(db, b, ids[..k]);
      assert RowsOf(db.files, ids)[..k] == RowsOf(db.files, ids[..k]);
      AssignedUnion(db.requests, ids, k);
      TokensOfUnion(db.requests, AssignedToAny(db.requests, ids[..k]), AssignedTo(db.requests, ids[k]));
    }
  }

  lemma NoTokens(requests: map<RequestId, Request>)
    ensures TokensOf(requests, {}) == 0
  {
  }

  lemma AssignedUnion(requests: map<RequestId, Request>, ids: seq<FileId>, k: nat)
    requires |ids| == k + 1 && forall i :: 0 <= i < k ==> ids[i] != ids[k]
    ensures AssignedToAny(requests, ids) == AssignedToAny(requests, ids[..k]) + AssignedTo(requests, ids[k])
    ensures AssignedToAny(requests, ids[..k]) !! AssignedTo(requests, ids[k])
  {
    assert ids == ids[..k] + [ids[k]];
  }

  /** The requests of a batch that have been assigned to a file. */
  function AssignedOf(db: Db, b: BatchId): set<RequestId> {
    set r | r in db.requests && db.requests[r].batch == b && db.requests[r].file.Some?
  }

  /**
   In every reachable state each file's token total is that of the requests assigned
   to it, and each prepared batch's is that of all its assigned requests.
   */
  lemma TokenTotalsAgree(steps: seq<Step>)
    ensures var db := Execute(steps);
            && (forall f :: f in db.files ==>
                  db.files[f].totalTokens == TokensOf(db.requests, AssignedTo(db.requests, f)))
            && (forall b :: b in db.prepared ==>
                  b in db.batches && db.batches[b].tokens == TokensOf(db.requests, AssignedOf(db, b)))
  {
    hide Inv, TokensOf, AssignedTo;
    EveryRunAdds(steps);
    EveryRunKeepsInv(steps);
    var db := Execute(steps);
    forall b | b in db.prepared
      ensures b in db.batches && db.batches[b].tokens == TokensOf(db.requests, AssignedOf(db, b))
    {
      BatchIsOk(db, b);
      TotalAddsTokens(db, b, db.prepared[b]);
      AssignedInFiles(db, b);
    }
  }

  lemma AssignedInFiles(db: Db, b: BatchId)
    requires Inv(db) && b in db.prepared
    ensures AssignedToAny(db.requests, db.prepared[b]) == AssignedOf(db, b)
  {
  }
}
