/**
 Nothing a caller can do rules out a different answer after an empty one: every
 reachable state has a continuation in which the same call answers with files.

 The continuation creates the batch if need be, lets whoever holds its lock crash,
 and withdraws the requests that wait for it; none of them can be locked then,
 because only a call that holds the batch's lock locks its rows. If the batch is
 prepared, a new call answers its files. If it is not, one more request is inserted
 and a new call writes a file for it. That a locked batch always has a holder who
 can crash is an invariant of its own.
 */
module PreparationContinuation {
  import opened Assembly
  import opened Bytes
  import opened Preparation
  import opened PreparationSafety
  import opened PreparationTheorems
  import opened PreparationWitness
  import opened Runs

  // ----- locks have holders -----

  /** A locked batch is locked by a call that is in its transaction. */
  predicate Holding(db: Db, b: BatchId)
    requires b in db.locks
  {
    var c := db.locks[b];
    c in db.calls && InTransaction(db.calls[c]) && db.calls[c].batch == b
  }

  predicate LocksAreHeld(db: Db) {
    forall b :: b in db.locks ==> Holding(db, b)
  }

  /** A step changes at most the lock of its own call's batch. */
  predicate LocksMove(db: Db, db': Db, c: CallerId) {
    && (forall b :: b in db'.locks && db'.locks[b] != c ==> b in db.locks && db.locks[b] == db'.locks[b])
    && (forall b :: b in db'.locks && db'.locks[b] == c ==> Holding(db', b))
    && (forall d :: d in db.calls && d != c ==> d in db'.calls && db'.calls[d] == db.calls[d])
  }

  lemma MovedLocksAreHeld(db: Db, db': Db, c: CallerId)
    requires LocksAreHeld(db) && LocksMove(db, db', c)
    ensures LocksAreHeld(db')
  {
    forall b | b in db'.locks
      ensures Holding(db', b)
    {
      if db'.locks[b] != c { assert Holding(db, b); }
    }
  }

  /** Ending a call gives back its one lock. */
  lemma UnlockingMoves(db: Db, c: CallerId)
    requires LocksAreHeld(db) && c in db.calls && InTransaction(db.calls[c])
    ensures LocksMove(db, Unlocked(db, c, db.calls[c].batch), c)
  {
    var db' := Unlocked(db, c, db.calls[c].batch);
    forall b | b in db'.locks
      ensures db'.locks[b] != c
    {
      assert Holding(db, b);
    }
  }

  lemma StepKeepsLocksHeld(db: Db, step: Step)
    requires LocksAreHeld(db)
    ensures LocksAreHeld(Next(db, step))
  {
    hide DoRead, DoTakeLock, DoRecheck, DoWritePart, DoFinish, LocksAreHeld, RowLocked, Consistent;
    var db' := Next(db, step);
    match step
    case CreateBatch(_) => SameLocksAreHeld(db, db');
    case InsertRequest(_, _, _) => SameLocksAreHeld(db, db');
    case Withdraw(_) => SameLocksAreHeld(db, db');
    case Read(c, _, _, _, _) => if db' != db { ReadMoves(db, step); MovedLocksAreHeld(db, db', c); }
    case TakeLock(c) => if db' != db { LockMoves(db, c); MovedLocksAreHeld(db, db', c); }
    case Recheck(c) => if db' != db { RecheckMoves(db, c); MovedLocksAreHeld(db, db', c); }
    case WritePart(c, f) => if db' != db { WriteMoves(db, c, f); MovedLocksAreHeld(db, db', c); }
    case Finish(c) => if db' != db { FinishMoves(db, c); MovedLocksAreHeld(db, db', c); }
    case Crash(c) => if db' != db { UnlockingMoves(db, c); MovedLocksAreHeld(db, db', c); }
  }

  lemma SameLocksAreHeld(db: Db, db': Db)
    requires LocksAreHeld(db) && db'.locks == db.locks && db'.calls == db.calls
    ensures LocksAreHeld(db')
  {
    forall b | b in db'.locks
      ensures Holding(db', b)
    {
      assert Holding(db, b);
    }
  }

  lemma ReadMoves(db: Db, step: Step)
    requires LocksAreHeld(db) && step.Read? && DoRead(db, step) != db
    ensures LocksMove(db, DoRead(db, step), step.caller)
  {
    hide AssemblyResult, IsSnapshot, LocksAreHeld, Holding;
    HoldsNothing(db, step.caller);
  }

  lemma LockMoves(db: Db, c: CallerId)
    requires LocksAreHeld(db) && c in db.calls && db.calls[c].Assembled?
    ensures LocksMove(db, DoTakeLock(db, c, db.calls[c]), c)
  {
    hide PreparedFiles, LocksAreHeld, LocksMove;
    var b := db.calls[c].batch;
    HoldsNothing(db, c);
    if b !in db.locks {
      TakingMoves(db, c, b, DoTakeLock(db, c, db.calls[c]).calls[c]);
    } else {
      StayingMoves(db, c);
    }
  }

  lemma TakingMoves(db: Db, c: CallerId, b: BatchId, call: Call)
    requires b !in db.locks && forall a :: a in db.locks ==> db.locks[a] != c
    ensures LocksMove(db, With(db, c, call), c)
    ensures InTransaction(call) && call.batch == b ==>
              LocksMove(db, With(db.(locks := db.locks[b := c]), c, call), c)
  {
  }

  lemma StayingMoves(db: Db, c: CallerId)
    requires forall a :: a in db.locks ==> db.locks[a] != c
    ensures LocksMove(db, db, c)
  {
  }

  lemma RecheckMoves(db: Db, c: CallerId)
    requires LocksAreHeld(db) && c in db.calls && db.calls[c].Rechecking? && Consistent(db)
    ensures LocksMove(db, DoRecheck(db, c, db.calls[c]), c)
  {
    hide AnswerFor, RowsOf, LocksAreHeld;
    UnlockingMoves(db, c);
  }

  lemma WriteMoves(db: Db, c: CallerId, f: FileId)
    requires LocksAreHeld(db) && c in db.calls && db.calls[c].Writing? && |db.calls[c].written| < |db.calls[c].payloads|
    ensures LocksMove(db, DoWritePart(db, c, db.calls[c], f), c)
  {
    hide Eligible, LocksAreHeld;
    var call, issued := db.calls[c], db.(issued := db.issued + {f});
    SameLocksAreHeld(db, issued);
    UnlockingMoves(issued, c);
    HoldsOwnBatch(db, c);
    var db' := DoWritePart(db, c, call, f);
    if db'.calls[c].Writing? {
      WritingMoves(db, db', c);
    }
  }

  lemma HoldsOwnBatch(db: Db, c: CallerId)
    requires LocksAreHeld(db) && c in db.calls && InTransaction(db.calls[c])
    ensures forall b :: b in db.locks && db.locks[b] == c ==> b == db.calls[c].batch
  {
    forall b | b in db.locks && db.locks[b] == c
      ensures b == db.calls[c].batch
    {
      assert Holding(db, b);
    }
  }

  lemma HoldsNothing(db: Db, c: CallerId)
    requires LocksAreHeld(db) && (c !in db.calls || !InTransaction(db.calls[c]))
    ensures forall b :: b in db.locks ==> db.locks[b] != c
  {
    forall b | b in db.locks
      ensures db.locks[b] != c
    {
      assert Holding(db, b);
    }
  }

  lemma WritingMoves(db: Db, db': Db, c: CallerId)
    requires c in db.calls && c in db'.calls && InTransaction(db.calls[c]) && db'.calls[c].Writing?
    requires db'.calls[c].batch == db.calls[c].batch
    requires db'.locks == db.locks && db'.calls == db.calls[c := db'.calls[c]]
    requires forall b :: b in db.locks && db.locks[b] == c ==> b == db.calls[c].batch
    ensures LocksMove(db, db', c)
  {
  }

  lemma FinishMoves(db: Db, c: CallerId)
    requires LocksAreHeld(db) && c in db.calls && db.calls[c].Writing?
    requires forall i :: 0 <= i < |db.calls[c].written| ==> db.calls[c].written[i] in db.calls[c].rows
    ensures LocksMove(db, DoFinish(db, c, db.calls[c]), c)
  {
    hide AnswerFor, RowsOf, Reassigned, SumRequests, SumTokens, LocksAreHeld;
    UnlockingMoves(db, c);
  }

  /** The two invariants every reachable state has. */
  ghost predicate Sound(db: Db) {
    Inv(db) && LocksAreHeld(db)
  }

  lemma {:induction false} RunKeepsSound(db: Db, steps: seq<Step>)
    requires Sound(db)
    ensures Sound(Run(Next, db, steps))
    decreases |steps|
  {
    hide Inv, LocksAreHeld, Next;
    if steps != [] {
      var before := steps[..|steps| - 1];
      RunKeepsSound(db, before);
      StepKeepsInv(Run(Next, db, before), steps[|steps| - 1]);
      StepKeepsLocksHeld(Run(Next, db, before), steps[|steps| - 1]);
    }
  }

  lemma EmptyIsSound()
    ensures Sound(EMPTY)
  {
    EveryRunKeepsInv([]);
  }

  // ----- making way -----

  lemma RunOne(db: Db, step: Step)
    ensures Run(Next, db, [step]) == Next(db, step)
  {
    hide Next;
    assert [step][..0] == [];
  }

  /** The batch exists and is not locked, and nobody has answered since `db`. */
  ghost predicate Cleared(db: Db, db': Db, b: BatchId) {
    Sound(db') && b in db'.batches && b !in db'.locks && db'.answers == db.answers
  }

  /** Create the batch if it is gone, and let whoever holds its lock crash. */
  lemma Clear(db: Db, b: BatchId) returns (more: seq<Step>)
    requires Sound(db)
    ensures Cleared(db, Run(Next, db, more), b)
  {
    hide Inv;
    var created := Next(db, CreateBatch(b));
    more := [CreateBatch(b)];
    RunOne(db, CreateBatch(b));
    RunKeepsSound(db, more);
    if b in created.locks {
      var crash := Crash(created.locks[b]);
      assert Holding(created, b);
      RunOne(created, crash);
      RunAppend(Next, db, more, [crash]);
      more := more + [crash];
      RunKeepsSound(db, more);
    }
  }

  function UnassignedOf(db: Db, b: BatchId): set<RequestId> {
    set r | r in db.requests && Unassigned(db, r, b)
  }

  /** Only a call that writes for a batch has rows of it locked, and it holds the batch's lock. */
  lemma FreeBatchHasFreeRows(db: Db, b: BatchId, r: RequestId)
    requires Inv(db) && b !in db.locks && Unassigned(db, r, b)
    ensures !RowLocked(db, r)
  {
    hide PartList, NumberedPayloads, MappedTo, CommittedOk, AnswerOk;
    forall c | c in db.calls && db.calls[c].Writing?
      ensures r !in db.calls[c].assignment
    {
      CallIsOk(db, c);
    }
  }

  lemma WithdrawOne(db: Db, b: BatchId, r: RequestId)
    requires Unassigned(db, r, b) && !RowLocked(db, r)
    ensures var db' := Next(db, Withdraw(r));
            && UnassignedOf(db', b) == UnassignedOf(db, b) - {r}
            && db'.batches == db.batches && db'.locks == db.locks && db'.answers == db.answers
               && db'.prepared == db.prepared
  {
  }

  /** All waiting requests of an unlocked batch can be withdrawn. */
  lemma {:induction false} WithdrawAll(db: Db, b: BatchId) returns (more: seq<Step>)
    requires Sound(db) && b in db.batches && b !in db.locks
    ensures Cleared(db, Run(Next, db, more), b) && UnassignedOf(Run(Next, db, more), b) == {}
    decreases |UnassignedOf(db, b)|
  {
    hide Inv, LocksAreHeld, Next, RowLocked, Unassigned;
    if UnassignedOf(db, b) == {} {
      more := [];
      RunNone(Next, db);
    } else {
      var r :| r in UnassignedOf(db, b);
      FreeBatchHasFreeRows(db, b, r);
      WithdrawOne(db, b, r);
      RunOne(db, Withdraw(r));
      RunKeepsSound(db, [Withdraw(r)]);
      var db' := Next(db, Withdraw(r));
      var rest := WithdrawAll(db', b);
      RunAppend(Next, db, [Withdraw(r)], rest);
      more := [Withdraw(r)] + rest;
    }
  }

  // ----- answering with files -----

  /** One more answer, for the batch and the limit, and not an empty one. */
  predicate AnswersFiles(db: Db, db': Db, b: BatchId, limit: nat) {
    && |db'.answers| == |db.answers| + 1 && db'.answers[..|db.answers|] == db.answers
    && var a := db'.answers[|db.answers|]; a.batch == b && a.fileLimit == limit && !IsEmpty(a)
  }

  lemma {:induction false} FreshNumber(used: set<nat>) returns (n: nat)
    ensures forall m :: m in used ==> m < n
  {
    if used == {} {
      n := 0;
    } else {
      var m :| m in used;
      var k := FreshNumber(used - {m});
      n := if k > m then k else m + 1;
      assert forall x :: x in used ==> x == m || x in used - {m};
    }
  }

  function Zeros(n: nat): string {
    seq(n, _ => '0')
  }

  lemma FreshRequest(used: set<RequestId>) returns (r: RequestId)
    ensures r !in used
  {
    var lengths := set s | s in used :: |s|;
    var n := FreshNumber(lengths);
    r := Zeros(n);
    assert r in used ==> |r| in lengths;
  }

  /** A prepared batch with nothing waiting answers its files. */
  lemma PreparedAnswers(db: Db, b: BatchId, limit: nat) returns (more: seq<Step>)
    requires Sound(db) && b in db.batches && b !in db.locks && UnassignedOf(db, b) == {} && b in db.prepared
    ensures AnswersFiles(db, Run(Next, db, more), b, limit)
  {
    hide Inv, LocksAreHeld, Next, RowsOf, AnswerFor, IsEmpty;
    var c := FreshNumber(db.calls.Keys);
    more := [Read(c, b, [], LIMITS, limit), TakeLock(c), Recheck(c)];
    RunThree(Next, db, more);
    var d1 := db.(calls := db.calls[c := Assembled(b, [], limit)]);
    NothingToRead(db, b, c, limit);
    var d2 := d1.(locks := d1.locks[b := c], calls := d1.calls[c := Rechecking(b, limit)]);
    PreparedIsRechecked(db, d1, b, c, limit);
    RecheckAnswersAll(db, d2, b, c, limit);
  }

  lemma NothingToRead(db: Db, b: BatchId, c: CallerId, limit: nat)
    requires UnassignedOf(db, b) == {} && c !in db.calls
    ensures Next(db, Read(c, b, [], LIMITS, limit)) == db.(calls := db.calls[c := Assembled(b, [], limit)])
  {
    hide AssemblyResult;
    SinglePayload();
    forall r
      ensures !Unassigned(db, r, b)
    {
      assert Unassigned(db, r, b) ==> r in UnassignedOf(db, b);
    }
    assert IsSnapshot(db, b, []);
  }

  lemma PreparedIsRechecked(db: Db, d1: Db, b: BatchId, c: CallerId, limit: nat)
    requires Inv(db) && b in db.batches && b !in db.locks && b in db.prepared
    requires d1 == db.(calls := db.calls[c := Assembled(b, [], limit)])
    ensures Next(d1, TakeLock(c)) == d1.(locks := d1.locks[b := c], calls := d1.calls[c := Rechecking(b, limit)])
  {
    hide Inv;
    BatchIsOk(db, b);
  }

  lemma RecheckAnswersAll(db: Db, d2: Db, b: BatchId, c: CallerId, limit: nat)
    requires Inv(db) && b in db.prepared && UnassignedOf(db, b) == {}
    requires d2 == db.(locks := db.locks[b := c], calls := db.calls[c := Rechecking(b, limit)])
    ensures AnswersFiles(db, Next(d2, Recheck(c)), b, limit)
  {
    hide Inv, IsEmpty, RowsOf;
    AllFilesAreThere(db, d2);
    BatchIsOk(db, b);
    NumberedAnswerIsNotEmpty(db, b, limit);
    forall r
      ensures !Unassigned(d2, r, b)
    {
      assert Unassigned(db, r, b) ==> r in UnassignedOf(db, b);
    }
  }

  lemma AllFilesAreThere(db: Db, d2: Db)
    requires Inv(db) && d2.prepared == db.prepared && d2.files == db.files
    ensures Consistent(d2)
  {
    forall b, i | 0 <= i < |PreparedFiles(d2, b)|
      ensures PreparedFiles(d2, b)[i] in d2.files
    {
      BatchIsOk(db, b);
    }
  }

  lemma NumberedAnswerIsNotEmpty(db: Db, b: BatchId, limit: nat)
    requires b in db.prepared && BatchOk(db, b)
    ensures !IsEmpty(AnswerFor(b, limit, RowsOf(db.files, db.prepared[b])))
    ensures AnswerFor(b, limit, RowsOf(db.files, db.prepared[b])).batch == b
    ensures AnswerFor(b, limit, RowsOf(db.files, db.prepared[b])).fileLimit == limit
  {
    NumberedPartsAreCut(RowsOf(db.files, db.prepared[b]), limit);
  }

  function Waiting(r: RequestId): Queued {
    Queued(r, "m", "", 0)
  }

  function PartOf(r: RequestId): Payload {
    Payload(0, 1, 0, [r], [""], 1)
  }

  lemma OnePart(r: RequestId)
    ensures AssemblyResult(LIMITS, [Waiting(r)]) == Parts([PartOf(r)])
  {
    var rows := [Waiting(r)];
    assert rows[..0] == [] && rows[..1] == rows && rows[1..] == [];
    assert Greedy(LIMITS, rows) == [rows];
    assert Tokens(rows) == 0 && ByteCount(rows) == 1;
    assert PayloadOf(0, rows) == PartOf(r);
  }

  /** An unprepared batch takes a new request and answers with its file. */
  lemma UnpreparedAnswers(db: Db, b: BatchId, limit: nat) returns (more: seq<Step>)
    requires Sound(db) && b in db.batches && b !in db.locks && UnassignedOf(db, b) == {} && b !in db.prepared
    ensures AnswersFiles(db, Run(Next, db, more), b, limit)
  {
    hide Inv, LocksAreHeld, Next, IsEmpty;
    var c := FreshNumber(db.calls.Keys);
    var f := FreshNumber(db.issued);
    var r := FreshRequest(db.requests.Keys);
    var first, last := [InsertRequest(r, b, 0), Read(c, b, [Waiting(r)], LIMITS, limit), TakeLock(c)],
        [WritePart(c, f), Finish(c)];
    more := first + last;
    RunAppend(Next, db, first, last);
    RunThree(Next, db, first);
    var d1 := db.(requests := db.requests[r := Request(b, 0, true, None)]);
    InsertsRequest(db, r, b);
    var d2 := d1.(calls := d1.calls[c := Assembled(b, [PartOf(r)], limit)]);
    ReadsWaiting(db, d1, b, r, c, limit);
    var w := Writing(b, [PartOf(r)], limit, [], map[], map[]);
    var d3 := d2.(locks := d2.locks[b := c], calls := d2.calls[c := w]);
    UnpreparedIsWritten(d2, b, r, c, limit);
    RunOne(d3, WritePart(c, f));
    RunOne(Next(d3, WritePart(c, f)), Finish(c));
    RunAppend(Next, d3, [WritePart(c, f)], [Finish(c)]);
    assert last == [WritePart(c, f)] + [Finish(c)];
    WritesItsPart(d3, w, b, r, c, f, limit);
    FinishAnswers(Next(d3, WritePart(c, f)), b, r, c, f, limit);
  }

  lemma InsertsRequest(db: Db, r: RequestId, b: BatchId)
    requires r !in db.requests
    ensures Next(db, InsertRequest(r, b, 0)) == db.(requests := db.requests[r := Request(b, 0, true, None)])
  {
  }

  lemma ReadsWaiting(db: Db, d1: Db, b: BatchId, r: RequestId, c: CallerId, limit: nat)
    requires UnassignedOf(db, b) == {} && c !in db.calls && r !in db.requests
    requires d1 == db.(requests := db.requests[r := Request(b, 0, true, None)])
    ensures Next(d1, Read(c, b, [Waiting(r)], LIMITS, limit))
            == d1.(calls := d1.calls[c := Assembled(b, [PartOf(r)], limit)])
  {
    hide AssemblyResult;
    OnePart(r);
    var rows := [Waiting(r)];
    forall q
      ensures Unassigned(d1, q, b) <==> exists i :: 0 <= i < |rows| && rows[i].id == q
    {
      assert Unassigned(db, q, b) ==> q in UnassignedOf(db, b);
      assert q == r ==> rows[0].id == q;
    }
    assert IsSnapshot(d1, b, rows);
  }

  lemma UnpreparedIsWritten(d2: Db, b: BatchId, r: RequestId, c: CallerId, limit: nat)
    requires c in d2.calls && d2.calls[c] == Assembled(b, [PartOf(r)], limit)
    requires b !in d2.locks && b in d2.batches && b !in d2.prepared
    ensures Next(d2, TakeLock(c))
            == d2.(locks := d2.locks[b := c], calls := d2.calls[c := Writing(b, [PartOf(r)], limit, [], map[], map[])])
  {
  }

  lemma WritesItsPart(d3: Db, w: Call, b: BatchId, r: RequestId, c: CallerId, f: FileId, limit: nat)
    requires w == Writing(b, [PartOf(r)], limit, [], map[], map[])
    requires c in d3.calls && d3.calls[c] == w && f !in d3.issued && Unassigned(d3, r, b)
    ensures var d4 := Next(d3, WritePart(c, f));
            && d4.answers == d3.answers && c in d4.calls && d4.calls[c].Writing?
            && d4.calls[c].(assignment := map[]) == w.(written := [f], rows := map[f := FileRow(b, 0, 1, 0)])
  {
    var touched := Eligible(d3, w, [r]);
    assert touched == {r};
  }

  lemma FinishAnswers(d4: Db, b: BatchId, r: RequestId, c: CallerId, f: FileId, limit: nat)
    requires c in d4.calls && d4.calls[c].Writing?
    requires d4.calls[c].(assignment := map[])
             == Writing(b, [PartOf(r)], limit, [f], map[f := FileRow(b, 0, 1, 0)], map[])
    ensures AnswersFiles(d4, Next(d4, Finish(c)), b, limit)
  {
    var row := FileRow(b, 0, 1, 0);
    assert RowsOf(map[f := row], [f]) == [row];
    NumberedPartsAreCut([row], limit);
  }

  /**
   From every reachable state, for every batch and file limit, some continuation
   answers that call with files; so an empty answer never settles what the same
   call will answer.
   */
  lemma SomeContinuationAnswers(steps: seq<Step>, b: BatchId, limit: nat) returns (more: seq<Step>)
    ensures AnswersFiles(Execute(steps), Execute(steps + more), b, limit)
  {
    hide Sound, Next, Cleared, AnswersFiles;
    var db := Execute(steps);
    ExecuteIsRun(steps);
    EmptyIsSound();
    RunKeepsSound(EMPTY, steps);
    var clear := Clear(db, b);
    var db1 := Run(Next, db, clear);
    ClearedParts(db, db1, b);
    var withdraw := WithdrawAll(db1, b);
    var db2 := Run(Next, db1, withdraw);
    ClearedParts(db1, db2, b);
    var answer: seq<Step>;
    if b in db2.prepared {
      answer := PreparedAnswers(db2, b, limit);
    } else {
      answer := UnpreparedAnswers(db2, b, limit);
    }
    SameAnswersBefore(db, db2, Run(Next, db2, answer), b, limit);
    more := clear + withdraw + answer;
    RunAppend(Next, db, clear, withdraw);
    RunAppend(Next, db, clear + withdraw, answer);
    RunAppend(Next, EMPTY, steps, more);
    ExecuteIsRun(steps + more);
  }

  lemma ClearedParts(db: Db, db': Db, b: BatchId)
    requires Cleared(db, db', b)
    ensures Sound(db') && b in db'.batches && b !in db'.locks && db'.answers == db.answers
  {
  }

  lemma SameAnswersBefore(db: Db, db2: Db, end: Db, b: BatchId, limit: nat)
    requires db2.answers == db.answers && AnswersFiles(db2, end, b, limit)
    ensures AnswersFiles(db, end, b, limit)
  {
  }
}
