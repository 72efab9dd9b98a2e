/**
 What every interleaving of preparation calls keeps. The invariant has four parts.

 Committed state agrees with itself: each assigned request's file exists and is of
 its batch, each file counts the requests assigned to it, and each prepared batch
 lists its own files, numbered from zero, with their sums as its totals. A call that
 is writing holds its batch's lock, and what it has pending is consistent: files
 with fresh ids that nobody sees yet, and requests that are still waiting. No two
 calls have a pending file in common. And every answer given so far is empty, or is
 its batch's committed files cut at the file limit.

 One lemma for each kind of step shows that it keeps all four.
 */
module PreparationSafety {
  import opened Bytes
  import opened Assembly
  import opened Preparation

  function AssignedTo(requests: map<RequestId, Request>, f: FileId): set<RequestId> {
    set r | r in requests && requests[r].file == Some(f)
  }

  function MappedTo(assignment: map<RequestId, FileId>, f: FileId): set<RequestId> {
    set r | r in assignment && assignment[r] == f
  }

  /** The files of one batch: distinct, numbered from zero, and all of that batch. */
  predicate PartList(files: map<FileId, FileRow>, ids: seq<FileId>, b: BatchId) {
    && (forall i :: 0 <= i < |ids| ==> ids[i] in files && files[ids[i]].batch == b && files[ids[i]].partIndex == i)
    && (forall i, j :: 0 <= i < j < |ids| ==> ids[i] != ids[j])
  }

  /** Committed requests, files and batch totals agree. */
  predicate CommittedOk(db: Db) {
    && (forall r :: r in db.requests && db.requests[r].file.Some? ==>
          db.requests[r].file.value in db.files && db.files[db.requests[r].file.value].batch == db.requests[r].batch)
    && (forall f :: f in db.files ==> f in db.issued && |AssignedTo(db.requests, f)| == db.files[f].requestCount)
    && (forall f :: f in db.files ==> db.files[f].batch in db.prepared && f in db.prepared[db.files[f].batch])
    && (forall b :: b in db.prepared ==>
          && db.prepared[b] != [] && PartList(db.files, db.prepared[b], b)
          && b in db.batches
          && db.batches[b] == Totals(SumRequests(RowsOf(db.files, db.prepared[b])),
                                     SumTokens(RowsOf(db.files, db.prepared[b]))))
  }

  predicate NumberedPayloads(payloads: seq<Payload>) {
    forall i :: 0 <= i < |payloads| ==>
        payloads[i].partIndex == i && payloads[i].recordCount == |payloads[i].requestIds|
  }

  /** A call that is writing: its pending files and assignments are its own, consistent, and not yet visible. */
  predicate WritingOk(db: Db, w: Call)
    requires w.Writing?
  {
    && NumberedPayloads(w.payloads) && |w.written| <= |w.payloads|
    && w.batch !in db.prepared && w.batch in db.batches
    && PartList(w.rows, w.written, w.batch)
    && (forall f :: f in w.rows ==> f in w.written && f in db.issued && f !in db.files
                                    && |MappedTo(w.assignment, f)| == w.rows[f].requestCount)
    && (forall r :: r in w.assignment ==> Unassigned(db, r, w.batch) && w.assignment[r] in w.rows)
  }

  predicate CallOk(db: Db, c: CallerId, call: Call) {
    match call
    case Assembled(_, payloads, _) => NumberedPayloads(payloads)
    case Rechecking(b, _) => b in db.prepared && b in db.locks && db.locks[b] == c
    case Writing(b, _, _, _, _, _) => b in db.locks && db.locks[b] == c && WritingOk(db, call)
    case Ended => true
  }

  predicate SameFiles(w: Call, v: Call, f: FileId) {
    w.Writing? && v.Writing? && f in w.rows && f in v.rows
  }

  predicate AnswerOk(db: Db, a: Answer) {
    || (a.ready == [] && a.overflow == [])
    || (a.batch in db.prepared && PartList(db.files, db.prepared[a.batch], a.batch)
        && a == AnswerFor(a.batch, a.fileLimit, RowsOf(db.files, db.prepared[a.batch])))
  }

  ghost predicate Inv(db: Db) {
    && CommittedOk(db)
    && (forall c :: c in db.calls ==> CallOk(db, c, db.calls[c]))
    && (forall c, d, f :: c in db.calls && d in db.calls && c != d ==> !SameFiles(db.calls[c], db.calls[d], f))
    && (forall i :: 0 <= i < |db.answers| ==> AnswerOk(db, db.answers[i]))
  }

  /** What a step may do to calls other than its own. */
  predicate Spares(db: Db, db': Db, c: CallerId) {
    && (forall d :: d in db'.calls && d != c ==> d in db.calls && db'.calls[d] == db.calls[d])
    && (forall b :: b in db.locks && db.locks[b] != c ==> b in db'.locks && db'.locks[b] == db.locks[b])
    && db.issued <= db'.issued
    && (forall b :: b in db.batches ==> b in db'.batches)
  }

  lemma CallIsOk(db: Db, c: CallerId)
    requires Inv(db) && c in db.calls
    ensures CallOk(db, c, db.calls[c])
  {
  }

  lemma SparedCallIsOk(db: Db, db': Db, c: CallerId, d: CallerId)
    requires d in db.calls && d in db'.calls && d != c && Spares(db, db', c) && CallOk(db, d, db.calls[d])
    requires forall b :: b in db.prepared ==> b in db'.prepared
    requires db.calls[d].Writing? ==>
               && db.calls[d].batch !in db'.prepared
               && (forall f :: f in db.calls[d].rows ==> f !in db'.files)
               && (forall r :: r in db.calls[d].assignment ==> Unassigned(db', r, db.calls[d].batch))
    ensures CallOk(db', d, db'.calls[d])
  {
  }

  /** `db'` has the same committed tables as `db`, save that more file ids may have been issued. */
  predicate SameTables(db: Db, db': Db) {
    && db'.requests == db.requests && db'.files == db.files && db'.prepared == db.prepared && db'.batches == db.batches
    && db.issued <= db'.issued
  }

  lemma CommittedStays(db: Db, db': Db)
    requires CommittedOk(db) && SameTables(db, db')
    ensures CommittedOk(db')
  {
  }

  lemma AnswersStay(db: Db, db': Db)
    requires Inv(db) && SameTables(db, db') && db'.answers == db.answers
    ensures forall i :: 0 <= i < |db'.answers| ==> AnswerOk(db', db'.answers[i])
  {
    forall i | 0 <= i < |db'.answers|
      ensures AnswerOk(db', db'.answers[i])
    {
      assert AnswerOk(db, db.answers[i]);
    }
  }

  lemma OtherCallStays(db: Db, db': Db, c: CallerId, d: CallerId)
    requires d in db.calls && d in db'.calls && d != c && Spares(db, db', c) && SameTables(db, db')
             && CallOk(db, d, db.calls[d])
    ensures CallOk(db', d, db'.calls[d])
  {
    SparedCallIsOk(db, db', c, d);
  }

  /** Steps that leave every committed table alone. */
  lemma CallStepKeepsInv(db: Db, db': Db, c: CallerId)
    requires Inv(db) && Spares(db, db', c) && SameTables(db, db')
    requires c in db'.calls && CallOk(db', c, db'.calls[c])
    requires forall d, f :: d in db'.calls && d != c ==> !SameFiles(db'.calls[c], db'.calls[d], f)
    requires forall i :: 0 <= i < |db'.answers| ==> AnswerOk(db', db'.answers[i])
    ensures Inv(db')
  {
    hide CallOk, CommittedOk, AnswerOk;
    CommittedStays(db, db');
    forall d | d in db'.calls
      ensures CallOk(db', d, db'.calls[d])
    {
      if d != c {
        OtherCallStays(db, db', c, d);
      }
    }
    forall d, e, f | d in db'.calls && e in db'.calls && d != e
      ensures !SameFiles(db'.calls[d], db'.calls[e], f)
    {
      if d == c {
        assert !SameFiles(db'.calls[c], db'.calls[e], f);
      } else if e == c {
        assert !SameFiles(db'.calls[c], db'.calls[d], f);
      } else {
        assert !SameFiles(db.calls[d], db.calls[e], f);
      }
    }
  }

  lemma QuietCallKeepsInv(db: Db, c: CallerId, call: Call, locks: map<BatchId, CallerId>, issued: set<FileId>)
    requires Inv(db) && !call.Writing?
    requires forall b :: b in db.locks && db.locks[b] != c ==> b in locks && locks[b] == db.locks[b]
    requires db.issued <= issued
    requires var db' := db.(calls := db.calls[c := call], locks := locks, issued := issued); CallOk(db', c, call)
    ensures Inv(db.(calls := db.calls[c := call], locks := locks, issued := issued))
  {
    hide CallOk, CommittedOk, AnswerOk, Inv;
    var db' := db.(calls := db.calls[c := call], locks := locks, issued := issued);
    AnswersStay(db, db');
    CallStepKeepsInv(db, db', c);
  }

  lemma UnlockKeepsInv(db: Db, c: CallerId)
    requires Inv(db) && c in db.calls && InTransaction(db.calls[c])
    ensures Inv(Unlocked(db, c, db.calls[c].batch))
  {
    assert CallOk(db, c, db.calls[c]);
    QuietCallKeepsInv(db, c, Ended, db.locks - {db.calls[c].batch}, db.issued);
    var b := db.calls[c].batch;
    assert Unlocked(db, c, b) == db.(calls := db.calls[c := Ended], locks := db.locks - {b}, issued := db.issued);
  }

  lemma ReadKeepsInv(db: Db, step: Step)
    requires Inv(db) && step.Read?
    ensures Inv(DoRead(db, step))
  {
    hide Inv, Greedy, Payloads, FirstOversized, Admission, IsSnapshot, NumberedPayloads;
    var db' := DoRead(db, step);
    if db' != db {
      PayloadsAreNumbered(Greedy(step.lim, step.rows));
      QuietCallKeepsInv(db, step.caller, db'.calls[step.caller], db.locks, db.issued);
    }
  }

  lemma PayloadsAreNumbered(parts: seq<seq<Queued>>)
    ensures NumberedPayloads(Payloads(parts))
  {
  }

  lemma TakeLockKeepsInv(db: Db, c: CallerId)
    requires Inv(db) && c in db.calls && db.calls[c].Assembled?
    ensures Inv(DoTakeLock(db, c, db.calls[c]))
  {
    hide Inv, CallOk, Spares;
    var call, db' := db.calls[c], DoTakeLock(db, c, db.calls[c]);
    if db' != db {
      TakenLockIsOk(db, c);
      LockSparesOthers(db, c);
      LockWritesNothing(db, c);
      if db'.calls[c].Writing? {
        hide DoTakeLock, AnswerOk;
        AnswersStay(db, db');
        CallStepKeepsInv(db, db', c);
      } else {
        QuietCallKeepsInv(db, c, db'.calls[c], db'.locks, db.issued);
      }
    }
  }

  /** What taking the lock leaves alone. */
  lemma LockSparesOthers(db: Db, c: CallerId)
    requires c in db.calls && db.calls[c].Assembled? && DoTakeLock(db, c, db.calls[c]) != db
    ensures var db' := DoTakeLock(db, c, db.calls[c]);
            SameTables(db, db') && db'.answers == db.answers && Spares(db, db', c) && c in db'.calls
  {
    hide PreparedFiles, SameTables, Spares;
    var b, call := db.calls[c].batch, DoTakeLock(db, c, db.calls[c]).calls[c];
    assert b !in db.locks;
    LockingSpares(db, c, b, call);
  }

  lemma LockingSpares(db: Db, c: CallerId, b: BatchId, call: Call)
    requires b !in db.locks
    ensures var db' := With(db, c, call); SameTables(db, db') && Spares(db, db', c)
    ensures var db' := With(db.(locks := db.locks[b := c]), c, call); SameTables(db, db') && Spares(db, db', c)
  {
  }

  /** A call that has just taken the lock has written no files. */
  lemma LockWritesNothing(db: Db, c: CallerId)
    requires c in db.calls && db.calls[c].Assembled? && DoTakeLock(db, c, db.calls[c]) != db
    ensures var w := DoTakeLock(db, c, db.calls[c]).calls[c]; forall v, f :: !SameFiles(w, v, f)
  {
    hide PreparedFiles;
  }

  /** The call that took the lock. */
  lemma TakenLockIsOk(db: Db, c: CallerId)
    requires Inv(db) && c in db.calls && db.calls[c].Assembled?
    requires DoTakeLock(db, c, db.calls[c]) != db
    ensures var db' := DoTakeLock(db, c, db.calls[c]); c in db'.calls && CallOk(db', c, db'.calls[c])
  {
    hide Inv, CommittedOk, AnswerOk, WritingOk, PreparedFiles, PartList, NumberedPayloads;
    var db' := DoTakeLock(db, c, db.calls[c]);
    CallIsOk(db, c);
    NotPrepared(db, db.calls[c].batch);
    if db'.calls[c].Writing? {
      EmptyWriterIsOk(db', db'.calls[c]);
    }
  }

  lemma EmptyWriterIsOk(db: Db, w: Call)
    requires w.Writing? && w.written == [] && w.rows == map[] && w.assignment == map[]
    requires NumberedPayloads(w.payloads) && w.batch !in db.prepared && w.batch in db.batches
    ensures WritingOk(db, w)
  {
  }

  lemma NotPrepared(db: Db, b: BatchId)
    requires Inv(db)
    ensures b in db.prepared <==> PreparedFiles(db, b) != []
    ensures b in db.prepared ==> PartList(db.files, db.prepared[b], b)
  {
  }

  /** Appending an answer that tells the truth. */
  lemma AnswerKeepsInv(db: Db, a: Answer)
    requires Inv(db) && AnswerOk(db, a)
    ensures Inv(db.(answers := db.answers + [a]))
  {
    hide CommittedOk, CallOk, AnswerOk;
    var db' := db.(answers := db.answers + [a]);
    assert CommittedOk(db') by { CommittedStays(db, db'); }
    forall c | c in db'.calls
      ensures CallOk(db', c, db'.calls[c])
    {
      SameCall(db, db', c);
    }
    forall i | 0 <= i < |db'.answers|
      ensures AnswerOk(db', db'.answers[i])
    {
      SameAnswer(db, db', db'.answers[i]);
    }
  }

  lemma SameCall(db: Db, db': Db, c: CallerId)
    requires SameTables(db, db') && db'.locks == db.locks && c in db.calls && CallOk(db, c, db.calls[c])
    ensures CallOk(db', c, db.calls[c])
  {
  }

  lemma SameAnswer(db: Db, db': Db, a: Answer)
    requires SameTables(db, db')
    ensures AnswerOk(db, a) <==> AnswerOk(db', a)
  {
  }

  lemma RecheckKeepsInv(db: Db, c: CallerId)
    requires Inv(db) && c in db.calls && db.calls[c].Rechecking? && Consistent(db)
    ensures Inv(DoRecheck(db, c, db.calls[c]))
  {
    hide Inv, CommittedOk;
    var call := db.calls[c];
    var b := call.batch;
    CallIsOk(db, c);
    NotPrepared(db, b);
    UnlockKeepsInv(db, c);
    if !exists r :: Unassigned(db, r, b) {
      AnswerKeepsInv(Unlocked(db, c, b), AnswerFor(b, call.fileLimit, RowsOf(db.files, PreparedFiles(db, b))));
    }
  }

  // ----- writing one part -----

  lemma MappedAfter(assignment: map<RequestId, FileId>, touched: set<RequestId>, f: FileId, g: FileId)
    requires forall r :: r in touched ==> r !in assignment
    requires forall r :: r in assignment ==> assignment[r] != f
    ensures var after := assignment + map r | r in touched :: f;
            MappedTo(after, g) == if g == f then touched else MappedTo(assignment, g)
  {
  }

  lemma PartListGrows(rows: map<FileId, FileRow>, ids: seq<FileId>, b: BatchId, f: FileId, row: FileRow)
    requires PartList(rows, ids, b) && f !in rows && row.batch == b && row.partIndex == |ids|
    ensures PartList(rows[f := row], ids + [f], b)
  {
  }

  /** One more part keeps a writing call consistent. */
  lemma WriterGrows(db: Db, w: Call, f: FileId, row: FileRow, touched: set<RequestId>, db': Db, w': Call)
    requires w.Writing? && WritingOk(db, w) && f !in db.issued && |w.written| < |w.payloads|
    requires forall g :: g in db.files ==> g in db.issued
    requires SameTables(db, db') && f in db'.issued
    requires row.batch == w.batch && row.partIndex == |w.written| && row.requestCount == |touched|
    requires forall r :: r in touched ==> Unassigned(db, r, w.batch) && r !in w.assignment
    requires w' == w.(written := w.written + [f], rows := w.rows[f := row],
                      assignment := w.assignment + map r | r in touched :: f)
    ensures WritingOk(db', w')
  {
    hide Unassigned, MappedTo, PartList, NumberedPayloads;
    PartListGrows(w.rows, w.written, w.batch, f, row);
    forall g | g in w'.rows
      ensures g in w'.written && g in db'.issued && g !in db'.files
              && |MappedTo(w'.assignment, g)| == w'.rows[g].requestCount
    {
      MappedAfter(w.assignment, touched, f, g);
    }
    forall r | r in w'.assignment
      ensures Unassigned(db', r, w'.batch) && w'.assignment[r] in w'.rows
    {
      StillUnassigned(db, db', r, w.batch);
    }
  }

  lemma StillUnassigned(db: Db, db': Db, r: RequestId, b: BatchId)
    requires db'.requests == db.requests
    ensures Unassigned(db, r, b) <==> Unassigned(db', r, b)
  {
  }

  lemma WrittenPartIsOk(db: Db, c: CallerId, f: FileId)
    requires Inv(db) && c in db.calls && db.calls[c].Writing? && f !in db.issued
    requires |db.calls[c].written| < |db.calls[c].payloads|
    requires |Eligible(db, db.calls[c], db.calls[c].payloads[|db.calls[c].written|].requestIds)|
             == |db.calls[c].payloads[|db.calls[c].written|].requestIds|
    ensures var db' := DoWritePart(db, c, db.calls[c], f); c in db'.calls && CallOk(db', c, db'.calls[c])
  {
    hide CommittedOk, AnswerOk, Inv, WritingOk, Unassigned;
    var w := db.calls[c];
    CallIsOk(db, c);
    WriterPayloads(db, w);
    IssuedFiles(db);
    var db' := DoWritePart(db, c, w, f);
    var payload, touched := w.payloads[|w.written|], Eligible(db, w, w.payloads[|w.written|].requestIds);
    var row := FileRow(w.batch, payload.partIndex, payload.recordCount, payload.totalTokens);
    WriterGrows(db, w, f, row, touched, db', db'.calls[c]);
  }

  lemma WriterPayloads(db: Db, w: Call)
    requires w.Writing? && WritingOk(db, w)
    ensures NumberedPayloads(w.payloads)
  {
  }

  lemma IssuedFiles(db: Db)
    requires Inv(db)
    ensures forall f :: f in db.files ==> f in db.issued
  {
  }

  lemma NewFileIsNobodysElse(db: Db, c: CallerId, f: FileId)
    requires Inv(db) && c in db.calls && db.calls[c].Writing? && f !in db.issued
    requires |db.calls[c].written| < |db.calls[c].payloads|
    ensures var db' := DoWritePart(db, c, db.calls[c], f);
            c in db'.calls && forall d, g :: d in db'.calls && d != c ==> !SameFiles(db'.calls[c], db'.calls[d], g)
  {
    hide CommittedOk, AnswerOk;
    var db' := DoWritePart(db, c, db.calls[c], f);
    forall d, g | d in db'.calls && d != c
      ensures !SameFiles(db'.calls[c], db'.calls[d], g)
    {
      CallIsOk(db, d);
      assert !SameFiles(db.calls[c], db.calls[d], g);
    }
  }

  lemma WritePartKeepsInv(db: Db, c: CallerId, f: FileId)
    requires Inv(db) && c in db.calls && db.calls[c].Writing? && f !in db.issued
    requires |db.calls[c].written| < |db.calls[c].payloads|
    ensures Inv(DoWritePart(db, c, db.calls[c], f))
  {
    hide Inv, CommittedOk, AnswerOk, CallOk, WritingOk;
    var w := db.calls[c];
    var db' := DoWritePart(db, c, w, f);
    if |Eligible(db, w, w.payloads[|w.written|].requestIds)| == |w.payloads[|w.written|].requestIds| {
      WrittenPartIsOk(db, c, f);
      NewFileIsNobodysElse(db, c, f);
      AnswersStay(db, db');
      CallStepKeepsInv(db, db', c);
    } else {
      IssueKeepsInv(db, f);
      UnlockKeepsInv(db.(issued := db.issued + {f}), c);
    }
  }

  lemma IssueKeepsInv(db: Db, f: FileId)
    requires Inv(db)
    ensures Inv(db.(issued := db.issued + {f}))
  {
    hide CommittedOk, CallOk, AnswerOk;
    var db' := db.(issued := db.issued + {f});
    CommittedStays(db, db');
    AnswersStay(db, db');
    forall c | c in db'.calls
      ensures CallOk(db', c, db'.calls[c])
    {
      SameCall(db, db', c);
    }
  }

  // ----- commit -----

  lemma AssignedAfterCommit(db: Db, c: CallerId, f: FileId)
    requires Inv(db) && c in db.calls && db.calls[c].Writing?
    ensures f in db.files ==>
              AssignedTo(Reassigned(db.requests, db.calls[c].assignment), f) == AssignedTo(db.requests, f)
    ensures f in db.calls[c].rows ==>
              AssignedTo(Reassigned(db.requests, db.calls[c].assignment), f) == MappedTo(db.calls[c].assignment, f)
  {
    hide CommittedOk, AnswerOk, PartList, NumberedPayloads, Inv, MappedTo, AssignedTo;
    var w := db.calls[c];
    CallIsOk(db, c);
    FilesAreAssigned(db, f);
    if f in db.files {
      UnmappedKeepsFile(db.requests, w.assignment, f);
    }
    if f in w.rows {
      NewFileIsMapped(db.requests, w.assignment, f);
    }
  }

  lemma FilesAreAssigned(db: Db, f: FileId)
    requires Inv(db)
    ensures f !in db.files ==> AssignedTo(db.requests, f) == {}
    ensures forall r :: r in db.requests && db.requests[r].file == Some(f) ==> f in db.files
  {
  }

  lemma UnmappedKeepsFile(requests: map<RequestId, Request>, assignment: map<RequestId, FileId>, f: FileId)
    requires forall r :: r in assignment ==> assignment[r] != f && r in requests && requests[r].file.None?
    ensures AssignedTo(Reassigned(requests, assignment), f) == AssignedTo(requests, f)
  {
  }

  lemma NewFileIsMapped(requests: map<RequestId, Request>, assignment: map<RequestId, FileId>, f: FileId)
    requires forall r :: r in assignment ==> r in requests
    requires forall r :: r in requests ==> requests[r].file != Some(f)
    ensures AssignedTo(Reassigned(requests, assignment), f) == MappedTo(assignment, f)
  {
  }

  lemma RowsOfGrow(files: map<FileId, FileRow>, more: map<FileId, FileRow>, ids: seq<FileId>)
    requires forall i :: 0 <= i < |ids| ==> ids[i] in files && ids[i] !in more
    ensures RowsOf(files + more, ids) == RowsOf(files, ids)
  {
  }

  /** After a commit each request's file is there and of its batch, and each file counts its requests. */
  lemma CommitKeepsRequests(db: Db, c: CallerId)
    requires Inv(db) && c in db.calls && db.calls[c].Writing?
    requires forall i :: 0 <= i < |db.calls[c].written| ==> db.calls[c].written[i] in db.calls[c].rows
    ensures var db' := DoFinish(db, c, db.calls[c]);
            && (forall r :: r in db'.requests && db'.requests[r].file.Some? ==>
                  db'.requests[r].file.value in db'.files
                  && db'.files[db'.requests[r].file.value].batch == db'.requests[r].batch)
            && (forall f :: f in db'.files ==>
                  f in db'.issued && |AssignedTo(db'.requests, f)| == db'.files[f].requestCount)
  {
    CommitCountsRequests(db, c);
    CommitFilesRequests(db, c);
  }

  lemma CommitCountsRequests(db: Db, c: CallerId)
    requires Inv(db) && c in db.calls && db.calls[c].Writing?
    requires forall i :: 0 <= i < |db.calls[c].written| ==> db.calls[c].written[i] in db.calls[c].rows
    ensures var db' := DoFinish(db, c, db.calls[c]);
            forall f :: f in db'.files ==> f in db'.issued && |AssignedTo(db'.requests, f)| == db'.files[f].requestCount
  {
    hide AnswerOk, PartList, NumberedPayloads, AssignedTo, MappedTo, Reassigned, SumRequests, SumTokens, AnswerFor,
         RowsOf;
    var w, db' := db.calls[c], DoFinish(db, c, db.calls[c]);
    CallIsOk(db, c);
    forall f | f in db'.files
      ensures f in db'.issued && |AssignedTo(db'.requests, f)| == db'.files[f].requestCount
    {
      AssignedAfterCommit(db, c, f);
    }
  }

  lemma CommitFilesRequests(db: Db, c: CallerId)
    requires Inv(db) && c in db.calls && db.calls[c].Writing?
    requires forall i :: 0 <= i < |db.calls[c].written| ==> db.calls[c].written[i] in db.calls[c].rows
    ensures var db' := DoFinish(db, c, db.calls[c]);
            forall r :: r in db'.requests && db'.requests[r].file.Some? ==>
              db'.requests[r].file.value in db'.files
              && db'.files[db'.requests[r].file.value].batch == db'.requests[r].batch
  {
    hide AnswerOk, NumberedPayloads, AssignedTo, MappedTo, SumRequests, SumTokens, AnswerFor, RowsOf;
    var w, db' := db.calls[c], DoFinish(db, c, db.calls[c]);
    CallIsOk(db, c);
    forall r | r in db'.requests && db'.requests[r].file.Some?
      ensures db'.requests[r].file.value in db'.files
              && db'.files[db'.requests[r].file.value].batch == db'.requests[r].batch
    {
      if r in w.assignment {
        assert w.assignment[r] in w.rows && w.assignment[r] in w.written;
      }
    }
  }

  predicate BatchOk(db: Db, b: BatchId)
    requires b in db.prepared
  {
    && db.prepared[b] != [] && PartList(db.files, db.prepared[b], b)
    && b in db.batches
    && db.batches[b] == Totals(SumRequests(RowsOf(db.files, db.prepared[b])),
                               SumTokens(RowsOf(db.files, db.prepared[b])))
  }

  lemma BatchIsOk(db: Db, b: BatchId)
    requires Inv(db) && b in db.prepared
    ensures BatchOk(db, b)
  {
  }

  /** Another batch's files and totals are as before. */
  lemma OtherBatchStays(db: Db, c: CallerId, b: BatchId)
    requires Inv(db) && c in db.calls && db.calls[c].Writing? && CallOk(db, c, db.calls[c])
    requires b in db.prepared
    ensures var db' := DoFinish(db, c, db.calls[c]);
            && b in db'.prepared && BatchOk(db', b)
            && db'.prepared[b] == db.prepared[b]
               && RowsOf(db'.files, db.prepared[b]) == RowsOf(db.files, db.prepared[b])
  {
    hide Inv, SumRequests, SumTokens, AnswerFor, Reassigned;
    BatchIsOk(db, b);
    RowsOfGrow(db.files, db.calls[c].rows, db.prepared[b]);
  }

  lemma OwnBatchIsOk(db: Db, c: CallerId)
    requires c in db.calls && db.calls[c].Writing? && CallOk(db, c, db.calls[c])
    ensures var db' := DoFinish(db, c, db.calls[c]);
            db.calls[c].batch in db'.prepared ==>
              BatchOk(db', db.calls[c].batch) && db'.prepared[db.calls[c].batch] == db.calls[c].written
              && RowsOf(db'.files, db.calls[c].written) == RowsOf(db.calls[c].rows, db.calls[c].written)
  {
    hide SumRequests, SumTokens, AnswerFor, Reassigned;
    var w, db' := db.calls[c], DoFinish(db, c, db.calls[c]);
    assert RowsOf(db'.files, w.written) == RowsOf(w.rows, w.written);
  }

  lemma CommitListsFiles(db: Db, c: CallerId)
    requires Inv(db) && c in db.calls && db.calls[c].Writing?
    requires CallOk(db, c, db.calls[c])
    ensures var db' := DoFinish(db, c, db.calls[c]);
            forall f :: f in db'.files ==> db'.files[f].batch in db'.prepared && f in db'.prepared[db'.files[f].batch]
  {
    hide SumRequests, SumTokens, AnswerFor, Reassigned;
    var w, db' := db.calls[c], DoFinish(db, c, db.calls[c]);
    forall f | f in db'.files
      ensures db'.files[f].batch in db'.prepared && f in db'.prepared[db'.files[f].batch]
    {
      if f in w.rows {
        assert f in w.written;
      }
    }
  }

  lemma CommitKeepsCommitted(db: Db, c: CallerId)
    requires Inv(db) && c in db.calls && db.calls[c].Writing?
    requires forall i :: 0 <= i < |db.calls[c].written| ==> db.calls[c].written[i] in db.calls[c].rows
    ensures CommittedOk(DoFinish(db, c, db.calls[c]))
  {
    hide Inv, CallOk, SumRequests, SumTokens, AnswerFor, PartList, RowsOf;
    var db' := DoFinish(db, c, db.calls[c]);
    CallIsOk(db, c);
    CommitKeepsRequests(db, c);
    CommitListsFiles(db, c);
    OwnBatchIsOk(db, c);
    forall b | b in db'.prepared
      ensures BatchOk(db', b)
    {
      if b != db.calls[c].batch {
        OtherBatchStays(db, c, b);
      }
    }
  }

  /** Another writing call touches other requests and other files. */
  lemma OtherWriterSurvives(db: Db, c: CallerId, d: CallerId)
    requires Inv(db) && c in db.calls && db.calls[c].Writing? && d in db.calls && d != c
    requires forall i :: 0 <= i < |db.calls[c].written| ==> db.calls[c].written[i] in db.calls[c].rows
    ensures var db' := DoFinish(db, c, db.calls[c]);
            d in db'.calls && db'.calls[d] == db.calls[d] && CallOk(db', d, db.calls[d])
  {
    hide CommittedOk, AnswerOk, SumRequests, SumTokens, AnswerFor, WritingOk, Inv, RowsOf;
    var w, v, db' := db.calls[c], db.calls[d], DoFinish(db, c, db.calls[c]);
    CallIsOk(db, c);
    CallIsOk(db, d);
    if v.Writing? {
      WritersApart(db, c, d);
    }
    SparedCallIsOk(db, db', c, d);
  }

  lemma WritersApart(db: Db, c: CallerId, d: CallerId)
    requires Inv(db) && c in db.calls && db.calls[c].Writing? && d in db.calls && d != c && db.calls[d].Writing?
    ensures var w, v := db.calls[c], db.calls[d];
            && v.batch != w.batch && v.batch !in db.prepared
            && (forall f :: f in v.rows ==> f !in w.rows && f !in db.files)
            && (forall r :: r in v.assignment ==> Unassigned(db, r, v.batch) && r !in w.assignment)
  {
    hide CommittedOk, AnswerOk;
    CallIsOk(db, c);
    CallIsOk(db, d);
    forall f | f in db.calls[d].rows
      ensures f !in db.calls[c].rows
    {
      assert !SameFiles(db.calls[c], db.calls[d], f);
    }
  }

  lemma AnswerSurvivesCommit(db: Db, c: CallerId, a: Answer)
    requires Inv(db) && c in db.calls && db.calls[c].Writing? && CallOk(db, c, db.calls[c])
    requires AnswerOk(db, a)
    ensures AnswerOk(DoFinish(db, c, db.calls[c]), a)
  {
    hide Inv, CallOk, WritingOk;
    if a.batch in db.prepared {
      OtherBatchStays(db, c, a.batch);
    }
  }

  lemma OwnAnswerIsOk(db: Db, c: CallerId)
    requires Inv(db) && c in db.calls && db.calls[c].Writing? && CallOk(db, c, db.calls[c])
    ensures var w := db.calls[c];
            AnswerOk(DoFinish(db, c, w), AnswerFor(w.batch, w.fileLimit, RowsOf(w.rows, w.written)))
  {
    hide Inv, SumRequests, SumTokens;
    OwnBatchIsOk(db, c);
  }

  lemma FinishKeepsInv(db: Db, c: CallerId)
    requires Inv(db) && c in db.calls && db.calls[c].Writing?
    requires forall i :: 0 <= i < |db.calls[c].written| ==> db.calls[c].written[i] in db.calls[c].rows
    ensures Inv(DoFinish(db, c, db.calls[c]))
  {
    hide CommittedOk, CallOk, AnswerOk, AnswerFor, SumRequests, SumTokens, Reassigned, RowsOf;
    var db' := DoFinish(db, c, db.calls[c]);
    CallIsOk(db, c);
    CommitKeepsCommitted(db, c);
    forall d | d in db'.calls
      ensures CallOk(db', d, db'.calls[d])
    {
      if d == c {
        EndedIsOk(db', c);
      } else {
        OtherWriterSurvives(db, c, d);
      }
    }
    forall i | 0 <= i < |db'.answers|
      ensures AnswerOk(db', db'.answers[i])
    {
      if i < |db.answers| {
        AnswerSurvivesCommit(db, c, db.answers[i]);
      } else {
        OwnAnswerIsOk(db, c);
      }
    }
    forall d, e, f | d in db'.calls && e in db'.calls && d != e
      ensures !SameFiles(db'.calls[d], db'.calls[e], f)
    {
      if d != c && e != c {
        assert !SameFiles(db.calls[d], db.calls[e], f);
      }
    }
  }

  lemma EndedIsOk(db: Db, c: CallerId)
    ensures CallOk(db, c, Ended)
  {
  }

  // ----- requests coming and going -----

  /** New requests and withdrawals leave files, pending calls and answers intact. */
  lemma RequestsChangeKeepsInv(db: Db, db': Db)
    requires Inv(db)
    requires FreeRequestsDiffer(db, db')
    ensures Inv(db')
  {
    hide AnswerOk, CommittedOk, CallOk;
    CommittedIgnoresFreeRequests(db, db');
    forall c | c in db'.calls
      ensures CallOk(db', c, db'.calls[c])
    {
      CallIsOk(db, c);
      CallIgnoresFreeRequests(db, db', c);
    }
    forall i | 0 <= i < |db'.answers|
      ensures AnswerOk(db', db'.answers[i])
    {
      AnswerIgnoresRequests(db, db', db'.answers[i]);
    }
  }

  /** Only requests that are in no file and locked by no writer differ between `db` and `db'`. */
  predicate FreeRequestsDiffer(db: Db, db': Db) {
    && db' == db.(requests := db'.requests)
    && (forall r :: r in db.requests ==> r in db'.requests)
    && (forall r :: r in db'.requests ==>
          if r in db.requests then db'.requests[r].batch == db.requests[r].batch
              && db'.requests[r].file == db.requests[r].file
                                && (RowLocked(db, r) ==> db'.requests[r] == db.requests[r])
          else db'.requests[r].file.None?)
  }

  lemma CommittedIgnoresFreeRequests(db: Db, db': Db)
    requires CommittedOk(db) && FreeRequestsDiffer(db, db')
    ensures CommittedOk(db')
  {
    forall f | f in db'.files
      ensures |AssignedTo(db'.requests, f)| == db'.files[f].requestCount
    {
      assert AssignedTo(db'.requests, f) == AssignedTo(db.requests, f);
    }
  }

  lemma CallIgnoresFreeRequests(db: Db, db': Db, c: CallerId)
    requires FreeRequestsDiffer(db, db') && c in db.calls && CallOk(db, c, db.calls[c])
    ensures CallOk(db', c, db.calls[c])
  {
    hide PartList, MappedTo, NumberedPayloads, RowLocked;
    var w := db.calls[c];
    if w.Writing? {
      forall r | r in w.assignment
        ensures Unassigned(db', r, w.batch)
      {
        WriterLocks(db, c, r);
        LockedStays(db, db', r, w.batch);
      }
    }
  }

  lemma WriterLocks(db: Db, c: CallerId, r: RequestId)
    requires c in db.calls && db.calls[c].Writing? && r in db.calls[c].assignment
    ensures RowLocked(db, r)
  {
  }

  lemma LockedStays(db: Db, db': Db, r: RequestId, b: BatchId)
    requires FreeRequestsDiffer(db, db') && RowLocked(db, r) && Unassigned(db, r, b)
    ensures Unassigned(db', r, b)
  {
  }

  lemma AnswerIgnoresRequests(db: Db, db': Db, a: Answer)
    requires db'.files == db.files && db'.prepared == db.prepared
    ensures AnswerOk(db, a) <==> AnswerOk(db', a)
  {
  }

  lemma CreateKeepsInv(db: Db, b: BatchId)
    requires Inv(db) && b !in db.batches
    ensures Inv(db.(batches := db.batches[b := Totals(0, 0)]))
  {
    hide AnswerOk, CallOk, SameFiles;
    var db' := db.(batches := db.batches[b := Totals(0, 0)]);
    assert CommittedOk(db');
    forall i | 0 <= i < |db'.answers|
      ensures AnswerOk(db', db'.answers[i])
    {
      AnswerIgnoresRequests(db, db', db'.answers[i]);
    }
    forall c | c in db'.calls
      ensures CallOk(db', c, db'.calls[c])
    {
      CallIsOk(db, c);
      CallIgnoresNewBatch(db, b, c, db.calls[c]);
    }
  }

  lemma CallIgnoresNewBatch(db: Db, b: BatchId, c: CallerId, call: Call)
    requires b !in db.batches && CallOk(db, c, call)
    ensures CallOk(db.(batches := db.batches[b := Totals(0, 0)]), c, call)
  {
    hide PartList, NumberedPayloads, MappedTo;
  }

  lemma StepKeepsInv(db: Db, step: Step)
    requires Inv(db)
    ensures Inv(Next(db, step))
  {
    hide Inv, DoRead, DoTakeLock, DoRecheck, DoWritePart, DoFinish;
    match step
    case CreateBatch(b) => if b !in db.batches { CreateKeepsInv(db, b); }
    case InsertRequest(r, b, _) => RequestsChangeKeepsInv(db, Next(db, step));
    case Withdraw(r) => RequestsChangeKeepsInv(db, Next(db, step));
    case Read(_, _, _, _, _) => ReadKeepsInv(db, step);
    case TakeLock(c) => if c in db.calls && db.calls[c].Assembled? { TakeLockKeepsInv(db, c); }
    case Recheck(c) => if c in db.calls && db.calls[c].Rechecking? && Consistent(db) { RecheckKeepsInv(db, c); }
    case WritePart(c, f) =>
      if c in db.calls && db.calls[c].Writing? && |db.calls[c].written| < |db.calls[c].payloads| && f !in db.issued {
        WritePartKeepsInv(db, c, f);
      }
    case Finish(c) =>
      if c in db.calls && db.calls[c].Writing? && |db.calls[c].written| == |db.calls[c].payloads|
         && forall i :: 0 <= i < |db.calls[c].written| ==> db.calls[c].written[i] in db.calls[c].rows {
        FinishKeepsInv(db, c);
      }
    case Crash(c) => if c in db.calls && InTransaction(db.calls[c]) { UnlockKeepsInv(db, c); }
  }

  lemma {:induction false} EveryRunKeepsInv(steps: seq<Step>)
    ensures Inv(Execute(steps))
  {
    if steps != [] {
      EveryRunKeepsInv(steps[..|steps| - 1]);
      StepKeepsInv(Execute(steps[..|steps| - 1]), steps[|steps| - 1]);
    }
  }
}
