/**
 Preparing a batch once under concurrency. A call reads the unassigned rows and
 assembles them outside any transaction, then persists under a per-batch lock:
 existing files are returned, otherwise files are written and requests assigned
 one part at a time, all committed together. Any number of calls, request
 inserts and withdrawals interleave between statements; a step that is not
 enabled leaves the state unchanged.
 */
module Preparation {
  import opened Bytes
  import opened Sequences
  import opened Assembly

  type BatchId = string
  type RequestId = string
  type FileId = nat
  type CallerId = nat

  /** A request's row, with the tokens its content counts. */
  datatype Request = Request(batch: BatchId, tokens: nat, queued: bool, file: Option<FileId>)

  datatype FileRow = FileRow(batch: BatchId, partIndex: nat, requestCount: nat, totalTokens: nat)

  datatype Totals = Totals(requests: nat, tokens: nat)

  datatype Call =
    | Assembled(batch: BatchId, payloads: seq<Payload>, fileLimit: nat)
    | Rechecking(batch: BatchId, fileLimit: nat)
    | Writing(batch: BatchId, payloads: seq<Payload>, fileLimit: nat, written: seq<FileId>, rows: map<FileId, FileRow>,
              assignment: map<RequestId, FileId>)
    | Ended

  /** What a call hands back: its files in part order, split at the file limit. */
  datatype Answer = Answer(batch: BatchId, fileLimit: nat, ready: seq<FileRow>, overflow: seq<FileRow>)

  datatype Db = Db(
    requests: map<RequestId, Request>,
    files: map<FileId, FileRow>, prepared: map<BatchId, seq<FileId>>, batches: map<BatchId, Totals>,
    issued: set<FileId>, locks: map<BatchId, CallerId>, calls: map<CallerId, Call>, answers: seq<Answer>)

  const EMPTY: Db := Db(map[], map[], map[], map[], {}, map[], map[], [])

  function PreparedFiles(db: Db, b: BatchId): seq<FileId> {
    if b in db.prepared then db.prepared[b] else []
  }

  predicate Unassigned(db: Db, r: RequestId, b: BatchId) {
    r in db.requests && db.requests[r].batch == b && db.requests[r].queued && db.requests[r].file.None?
  }

  // ----- splitting files into ready and overflow -----

  function RowsOf(files: map<FileId, FileRow>, ids: seq<FileId>): seq<FileRow>
    requires forall i :: 0 <= i < |ids| ==> ids[i] in files
  {
    seq(|ids|, i requires 0 <= i < |ids| => files[ids[i]])
  }

  function Below(rows: seq<FileRow>, limit: nat): seq<FileRow> {
    if rows == [] then []
    else
      var last := rows[|rows| - 1];
      Below(rows[..|rows| - 1], limit) + if last.partIndex < limit then [last] else []
  }

  function AtOrAbove(rows: seq<FileRow>, limit: nat): seq<FileRow> {
    if rows == [] then []
    else
      var last := rows[|rows| - 1];
      AtOrAbove(rows[..|rows| - 1], limit) + if last.partIndex < limit then [] else [last]
  }

  method Categorize(rows: seq<FileRow>, limit: nat) returns (ready: seq<FileRow>, overflow: seq<FileRow>)
    ensures ready == Below(rows, limit) && overflow == AtOrAbove(rows, limit)
  {
    ready, overflow := [], [];
    for i := 0 to |rows|
      invariant ready == Below(rows[..i], limit) && overflow == AtOrAbove(rows[..i], limit)
    {
      assert rows[..i + 1][..i] == rows[..i];
      if rows[i].partIndex < limit {
        ready := ready + [rows[i]];
      } else {
        overflow := overflow + [rows[i]];
      }
    }
    assert rows[..|rows|] == rows;
  }

  /** For parts numbered from zero the split is a cut: the first `limit` parts are ready, in order. */
  lemma {:induction false} NumberedPartsAreCut(rows: seq<FileRow>, limit: nat)
    requires forall i :: 0 <= i < |rows| ==> rows[i].partIndex == i
    ensures var n := if |rows| <= limit then |rows| else limit;
            Below(rows, limit) == rows[..n] && AtOrAbove(rows, limit) == rows[n..]
  {
    if rows != [] {
      var k, before := |rows| - 1, rows[..|rows| - 1];
      hide Below, AtOrAbove;
      NumberedPartsAreCut(before, limit);
      SnocEqual(rows, before + [rows[k]]);
      SplitSnoc(before, rows[k], limit);
      CutSnoc(before, rows[k], limit);
    }
  }

  lemma SplitSnoc(before: seq<FileRow>, last: FileRow, limit: nat)
    ensures Below(before + [last], limit) == Below(before, limit) + if last.partIndex < limit then [last] else []
    ensures AtOrAbove(before + [last], limit) == AtOrAbove(before, limit) + if last.partIndex < limit then []
            else [last]
  {
    SnocInit(before, last);
  }

  lemma CutSnoc(before: seq<FileRow>, last: FileRow, limit: nat)
    ensures var rows, k := before + [last], |before|;
            if k < limit then rows[..k + 1] == before + [last] && rows[k + 1..] == []
            else rows[..limit] == before[..limit] && rows[limit..] == before[limit..] + [last]
  {
  }

  function AnswerFor(b: BatchId, limit: nat, rows: seq<FileRow>): Answer {
    Answer(b, limit, Below(rows, limit), AtOrAbove(rows, limit))
  }

  // ----- steps -----

  datatype Step =
    | CreateBatch(batch: BatchId)
    | InsertRequest(request: RequestId, batch: BatchId, tokens: nat)
    | Withdraw(request: RequestId)
    | Read(caller: CallerId, batch: BatchId, rows: seq<Queued>, lim: PackLimits, fileLimit: nat)
    | TakeLock(caller: CallerId)
    | Recheck(caller: CallerId)
    | WritePart(caller: CallerId, fileId: FileId)
    | Finish(caller: CallerId)
    | Crash(caller: CallerId)

  /** The rows a call reads: the queued, unassigned requests of the batch, each once, with its own tokens. */
  ghost predicate IsSnapshot(db: Db, b: BatchId, rows: seq<Queued>) {
    && (forall i, j :: 0 <= i < j < |rows| ==> rows[i].id != rows[j].id)
    && (forall i :: 0 <= i < |rows| && rows[i].id in db.requests ==>
          rows[i].tokens == db.requests[rows[i].id].tokens)
    && forall r :: Unassigned(db, r, b) <==> exists i :: 0 <= i < |rows| && rows[i].id == r
  }

  function With(db: Db, c: CallerId, call: Call): Db {
    db.(calls := db.calls[c := call])
  }

  /** Ends the transaction of `c` on batch `b` and frees the lock. */
  function Unlocked(db: Db, c: CallerId, b: BatchId): Db {
    db.(calls := db.calls[c := Ended], locks := db.locks - {b})
  }

  ghost function DoRead(db: Db, step: Step): Db
    requires step.Read?
  {
    if step.caller in db.calls || !IsSnapshot(db, step.batch, step.rows) || step.lim.records == 0 then db
    else match AssemblyResult(step.lim, step.rows)
      case Failed(_) => With(db, step.caller, Ended)
      case Parts(payloads) => With(db, step.caller, Assembled(step.batch, payloads, step.fileLimit))
  }

  function DoTakeLock(db: Db, c: CallerId, call: Call): Db
    requires call.Assembled?
  {
    var b := call.batch;
    if b in db.locks then db
    else if b !in db.batches then With(db, c, Ended)
    else
      var locked := db.(locks := db.locks[b := c]);
      if PreparedFiles(db, b) != [] then With(locked, c, Rechecking(b, call.fileLimit))
      else With(locked, c, Writing(b, call.payloads, call.fileLimit, [], map[], map[]))
  }

  ghost function DoRecheck(db: Db, c: CallerId, call: Call): Db
    requires call.Rechecking? && forall i :: 0 <= i < |PreparedFiles(db, call.batch)| ==>
               PreparedFiles(db, call.batch)[i] in db.files
  {
    var b := call.batch;
    if exists r :: Unassigned(db, r, b) then Unlocked(db, c, b)
    else
      var rows := RowsOf(db.files, PreparedFiles(db, b));
      Unlocked(db, c, b).(answers := db.answers + [AnswerFor(b, call.fileLimit, rows)])
  }

  /** The requests the guarded UPDATE touches. */
  function Eligible(db: Db, call: Call, ids: seq<RequestId>): set<RequestId>
    requires call.Writing?
  {
    set r | r in ids && Unassigned(db, r, call.batch) && r !in call.assignment
  }

  function DoWritePart(db: Db, c: CallerId, call: Call, f: FileId): Db
    requires call.Writing? && |call.written| < |call.payloads|
  {
    var payload := call.payloads[|call.written|];
    var touched := Eligible(db, call, payload.requestIds);
    var issued := db.(issued := db.issued + {f});
    if |touched| != |payload.requestIds| then Unlocked(issued, c, call.batch)
    else
      var row := FileRow(call.batch, payload.partIndex, payload.recordCount, payload.totalTokens);
      With(issued, c, call.(written := call.written + [f], rows := call.rows[f := row],
                            assignment := call.assignment + map r | r in touched :: f))
  }

  function SumRequests(rows: seq<FileRow>): nat {
    if rows == [] then 0 else SumRequests(rows[..|rows| - 1]) + rows[|rows| - 1].requestCount
  }

  function SumTokens(rows: seq<FileRow>): nat {
    if rows == [] then 0 else SumTokens(rows[..|rows| - 1]) + rows[|rows| - 1].totalTokens
  }

  function Reassigned(requests: map<RequestId, Request>, assignment: map<RequestId, FileId>): map<RequestId, Request> {
    map r | r in requests :: if r in assignment then requests[r].(file := Some(assignment[r])) else requests[r]
  }

  function DoFinish(db: Db, c: CallerId, call: Call): Db
    requires call.Writing? && forall i :: 0 <= i < |call.written| ==> call.written[i] in call.rows
  {
    var b, rows := call.batch, RowsOf(call.rows, call.written);
    Unlocked(db, c, b).(
      requests := Reassigned(db.requests, call.assignment),
      files := db.files + call.rows,
      prepared := if call.written == [] then db.prepared else db.prepared[b := call.written],
      batches := db.batches[b := Totals(SumRequests(rows), SumTokens(rows))],
      answers := db.answers + [AnswerFor(b, call.fileLimit, rows)])
  }

  ghost predicate Consistent(db: Db) {
    forall b, i :: 0 <= i < |PreparedFiles(db, b)| ==> PreparedFiles(db, b)[i] in db.files
  }

  predicate InTransaction(call: Call) {
    call.Rechecking? || call.Writing?
  }

  predicate RowLocked(db: Db, r: RequestId) {
    exists c :: c in db.calls && db.calls[c].Writing? && r in db.calls[c].assignment
  }

  ghost function Next(db: Db, step: Step): Db {
    match step
    case CreateBatch(b) => if b in db.batches then db else db.(batches := db.batches[b := Totals(0, 0)])
    case InsertRequest(r, b, tokens) =>
      if r in db.requests then db else db.(requests := db.requests[r := Request(b, tokens, true, None)])
    case Withdraw(r) =>
      if r !in db.requests || RowLocked(db, r) then db
      else db.(requests := db.requests[r := db.requests[r].(queued := false)])
    case Read(_, _, _, _, _) => DoRead(db, step)
    case TakeLock(c) => if c in db.calls && db.calls[c].Assembled? then DoTakeLock(db, c, db.calls[c]) else db
    case Recheck(c) =>
      if c in db.calls && db.calls[c].Rechecking? && Consistent(db) then DoRecheck(db, c, db.calls[c]) else db
    case WritePart(c, f) =>
      if c in db.calls && db.calls[c].Writing? && |db.calls[c].written| < |db.calls[c].payloads| && f !in db.issued
      then DoWritePart(db, c, db.calls[c], f) else db
    case Finish(c) =>
      if c in db.calls && db.calls[c].Writing? && |db.calls[c].written| == |db.calls[c].payloads|
         && (forall i :: 0 <= i < |db.calls[c].written| ==> db.calls[c].written[i] in db.calls[c].rows)
      then DoFinish(db, c, db.calls[c]) else db
    case Crash(c) =>
      if c in db.calls && InTransaction(db.calls[c]) then Unlocked(db, c, db.calls[c].batch) else db
  }

  ghost function Execute(steps: seq<Step>): Db {
    if steps == [] then EMPTY else Next(Execute(steps[..|steps| - 1]), steps[|steps| - 1])
  }
}
