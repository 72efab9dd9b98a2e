/**
 A call that finds nothing to prepare leaves the batch unprepared, so a later
 call with the same file limit may answer otherwise: one such run.

 The first call creates nothing but an empty answer. Then one request is inserted,
 and the second call reads it, takes the lock, writes one part under a fresh file
 id and answers with that file. Every state in between is written out, so that each
 step can be followed by itself.
 */
module PreparationWitness {
  import opened Bytes
  import opened Assembly
  import opened Preparation
  import opened PreparationTheorems
  import opened Runs

  const BATCH: BatchId := "b"
  const LIMITS: PackLimits := PackLimits(1, 1, 10)
  const REQUEST: Queued := Queued("r", "m", "", 0)
  const FILE: FileRow := FileRow(BATCH, 0, 1, 0)

  const QUIET_CALL: seq<Step> := [CreateBatch(BATCH), Read(1, BATCH, [], LIMITS, 1), TakeLock(1), Finish(1)]

  const BUSY_CALL: seq<Step> :=
    [InsertRequest("r", BATCH, 0), Read(2, BATCH, [REQUEST], LIMITS, 1), TakeLock(2), WritePart(2, 7), Finish(2)]

  /** The state after the first call: the batch exists, nothing is prepared, and the answer was empty. */
  const QUIET: Db := Db(map[], map[], map[], map[BATCH := Totals(0, 0)], {}, map[], map[1 := Ended],
                        [Answer(BATCH, 1, [], [])])

  lemma {:induction false} ExecuteIsRun(steps: seq<Step>)
    ensures Execute(steps) == Run(Next, EMPTY, steps)
  {
    hide Next;
    if steps != [] {
      ExecuteIsRun(steps[..|steps| - 1]);
    }
  }

  lemma SinglePayload()
    ensures AssemblyResult(LIMITS, []) == Parts([])
    ensures AssemblyResult(LIMITS, [REQUEST]) == Parts([PayloadOf(0, [REQUEST])])
    ensures PayloadOf(0, [REQUEST]) == Payload(0, 1, 0, ["r"], [""], 1)
  {
    assert [REQUEST][..0] == [] && [REQUEST][..1] == [REQUEST] && [REQUEST][1..] == [];
    assert Greedy(LIMITS, [REQUEST]) == [[REQUEST]];
    assert Tokens([REQUEST]) == 0 && ByteCount([REQUEST]) == 1;
  }

  const CREATED: Db := EMPTY.(batches := map[BATCH := Totals(0, 0)])
  const ASSEMBLED: Db := CREATED.(calls := map[1 := Assembled(BATCH, [], 1)])
  const QUIET_WRITER: Call := Writing(BATCH, [], 1, [], map[], map[])

  lemma QuietReads()
    ensures Next(EMPTY, QUIET_CALL[0]) == CREATED
    ensures Next(CREATED, QUIET_CALL[1]) == ASSEMBLED
  {
    hide AssemblyResult;
    SinglePayload();
    assert IsSnapshot(CREATED, BATCH, []);
  }

  lemma QuietWrites()
    ensures Next(Next(ASSEMBLED, QUIET_CALL[2]), QUIET_CALL[3]) == QUIET
  {
    var locked := ASSEMBLED.(calls := map[1 := QUIET_WRITER], locks := map[BATCH := 1]);
    assert Next(ASSEMBLED, QUIET_CALL[2]) == locked;
    assert RowsOf(map[], []) == [];
    QuietFinish(locked);
  }

  lemma QuietFinish(locked: Db)
    requires locked == ASSEMBLED.(calls := map[1 := QUIET_WRITER], locks := map[BATCH := 1])
    ensures Next(locked, QUIET_CALL[3]) == QUIET
  {
    var end := DoFinish(locked, 1, QUIET_WRITER);
    assert RowsOf(map[], []) == [];
    assert end.requests == map[] && end.files == map[] && end.batches == map[BATCH := Totals(0, 0)];
  }

  lemma QuietRun()
    ensures Run(Next, EMPTY, QUIET_CALL) == QUIET
  {
    hide Next;
    RunFour(Next, EMPTY, QUIET_CALL);
    QuietReads();
    QuietWrites();
  }

  lemma ReadsRequest(db: Db)
    requires db == QUIET.(requests := map["r" := Request(BATCH, 0, true, None)])
    ensures IsSnapshot(db, BATCH, [REQUEST])
    ensures Next(db, BUSY_CALL[1]) == db.(calls := db.calls[2 := Assembled(BATCH, [PayloadOf(0, [REQUEST])], 1)])
  {
    hide Greedy;
    SinglePayload();
    assert [REQUEST][0].id == "r";
    forall r
      ensures Unassigned(db, r, BATCH) <==> exists i :: 0 <= i < |[REQUEST]| && [REQUEST][i].id == r
    {
      assert r == "r" ==> [REQUEST][0].id == r;
    }
  }

  lemma AssignsOne(touched: set<RequestId>, before: map<RequestId, FileId>, f: FileId)
    requires touched == {"r"} && before == map[]
    ensures before + (map r | r in touched :: f) == map["r" := f]
  {
  }

  lemma WritesPart(db: Db, call: Call)
    requires call == Writing(BATCH, [PayloadOf(0, [REQUEST])], 1, [], map[], map[])
    requires db.requests == map["r" := Request(BATCH, 0, true, None)] && 7 !in db.issued && 2 in db.calls
             && db.calls[2] == call
    ensures Next(db, BUSY_CALL[3])
            == db.(issued := db.issued + {7},
                   calls := db.calls[2 := call.(written := [7], rows := map[7 := FILE], assignment := map["r" := 7])])
  {
    hide Greedy;
    SinglePayload();
    assert Eligible(db, call, ["r"]) == {"r"};
    var touched := Eligible(db, call, PayloadOf(0, [REQUEST]).requestIds);
    assert touched == {"r"};
    AssignsOne(touched, map[], 7);
    var after := Next(db, BUSY_CALL[3]);
    assert after == DoWritePart(db, 2, call, 7);
    assert after.issued == db.issued + {7};
    assert after.calls[2].rows == map[7 := FILE];
    assert after.calls[2].written == [7];
    assert after.calls[2].assignment == map["r" := 7];
  }

  lemma BusyRun()
    ensures |Run(Next, QUIET, BUSY_CALL).answers| == 2
    ensures Run(Next, QUIET, BUSY_CALL).answers == QUIET.answers + [Answer(BATCH, 1, [FILE], [])]
  {
    hide Greedy;
    var db1 := QUIET.(requests := map["r" := Request(BATCH, 0, true, None)]);
    assert Next(QUIET, BUSY_CALL[0]) == db1;
    RunSnoc(Next, QUIET, [], BUSY_CALL[0]);
    RunNone(Next, QUIET);
    assert BUSY_CALL[..1] == [] + [BUSY_CALL[0]] && BUSY_CALL == BUSY_CALL[..1] + BUSY_CALL[1..];
    RunAppend(Next, QUIET, BUSY_CALL[..1], BUSY_CALL[1..]);
    RunFour(Next, db1, BUSY_CALL[1..]);
    ReadsRequest(db1);
    var db2 := Next(db1, BUSY_CALL[1]);
    var call := Writing(BATCH, [PayloadOf(0, [REQUEST])], 1, [], map[], map[]);
    var db3 := db2.(calls := db2.calls[2 := call], locks := map[BATCH := 2]);
    assert Next(db2, BUSY_CALL[2]) == db3;
    WritesPart(db3, call);
    AnswersFile(Next(db3, BUSY_CALL[3]));
  }

  lemma AnswersFile(db: Db)
    requires 2 in db.calls
    requires db.calls[2] == Writing(BATCH, [PayloadOf(0, [REQUEST])], 1, [7], map[7 := FILE], map["r" := 7])
    ensures Next(db, Finish(2)).answers == db.answers + [Answer(BATCH, 1, [FILE], [])]
  {
    hide Greedy;
    assert RowsOf(map[7 := FILE], [7]) == [FILE];
    assert [FILE][..0] == [];
    assert Below([], 1) == [] && AtOrAbove([], 1) == [] && [] + [FILE] == [FILE];
    assert Below([FILE], 1) == [FILE] && AtOrAbove([FILE], 1) == [];
  }

  /** An empty answer, a request inserted, and the same call again: the answers differ. */
  lemma EmptyAnswerMayChange()
    ensures var answers := Execute(QUIET_CALL + BUSY_CALL).answers;
            |answers| == 2 && answers[0].batch == answers[1].batch && answers[0].fileLimit == answers[1].fileLimit
            && IsEmpty(answers[0]) && !IsEmpty(answers[1])
  {
    ExecuteIsRun(QUIET_CALL + BUSY_CALL);
    RunAppend(Next, EMPTY, QUIET_CALL, BUSY_CALL);
    QuietRun();
    BusyRun();
  }
}
