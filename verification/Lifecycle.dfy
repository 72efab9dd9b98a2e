/**
 The durable projection of remote batch lifecycles: provider observations are
 normalised and merged into one row per job by a guarded upsert.
 */
module Lifecycle {
  import opened Bytes

  datatype Status =
    | Validating | InProgress | Finalizing | Cancelling
    | Completed | Failed | Expired | Cancelled
    | Unknown

  predicate Terminal(s: Status) {
    s.Completed? || s.Failed? || s.Expired? || s.Cancelled?
  }

  type Instant = int

  /** A decoded JSON value where text is expected. */
  datatype Raw = Absent | Str(text: string) | Foreign

  /**
   A provider response as far as the projection reads it. For file ids and counts
   `None` is an absent value or one of another type, which the source treats alike.
   */
  datatype ProviderBatch = ProviderBatch(
    status: Raw, endpoint: Raw,
    inputFileId: Option<string>, outputFileId: Option<string>, errorFileId: Option<string>,
    total: Option<int>, completed: Option<int>, failed: Option<int>,
    metadata: string)

  const EMPTY_METADATA := "{}"

  datatype Snapshot = Snapshot(
    order: nat, status: Status, endpoint: Option<string>,
    inputFileId: Option<string>, outputFileId: Option<string>, errorFileId: Option<string>,
    total: nat, totalKnown: bool, completed: nat, failed: nat,
    metadata: string, observedAt: Instant, terminalAt: Option<Instant>)

  datatype Row = Row(
    order: nat, status: Status, endpoint: Option<string>,
    inputFileId: Option<string>, outputFileId: Option<string>, errorFileId: Option<string>,
    total: nat, totalKnown: bool, completed: nat, failed: nat,
    metadata: string, firstSeenAt: Instant, lastObservedAt: Instant, terminalAt: Option<Instant>)

  // ----- normalisation -----

  predicate Missing(raw: Raw) {
    raw.Absent? || raw == Str("")
  }

  function StatusNamed(name: string): Option<Status> {
    if name == "validating" then Some(Validating)
    else if name == "in_progress" then Some(InProgress)
    else if name == "finalizing" then Some(Finalizing)
    else if name == "cancelling" then Some(Cancelling)
    else if name == "completed" then Some(Completed)
    else if name == "failed" then Some(Failed)
    else if name == "expired" then Some(Expired)
    else if name == "cancelled" then Some(Cancelled)
    else None
  }

  /** A missing status is unknown; anything else must be the text of a supported one. */
  function ProviderStatus(raw: Raw): Option<Status> {
    if Missing(raw) then Some(Unknown) else if raw.Foreign? then None else StatusNamed(raw.text)
  }

  const SUPPORTED_ENDPOINTS: set<string> :=
    {"/v1/responses", "/v1/chat/completions", "/v1/embeddings", "/v1/completions", "/v1/moderations"}

  predicate EndpointAccepted(raw: Raw) {
    Missing(raw) || (raw.Str? && raw.text in SUPPORTED_ENDPOINTS)
  }

  function EndpointOf(raw: Raw): Option<string> {
    if raw.Str? && raw.text != "" then Some(raw.text) else None
  }

  predicate OptionalAccepted(raw: Option<string>, accepts: string -> bool) {
    raw.None? || raw.value == "" || accepts(raw.value)
  }

  function Present(raw: Option<string>): Option<string> {
    if raw.None? || raw.value == "" then None else raw
  }

  function ProviderCount(raw: Option<int>): nat {
    if raw.Some? && raw.value >= 0 then raw.value else 0
  }

  /** The order, the file ids and the counts are acceptable. */
  predicate RestAccepted(p: ProviderBatch, order: nat, validId: string -> bool) {
    && order > 0
    && OptionalAccepted(p.inputFileId, validId) && OptionalAccepted(p.outputFileId, validId)
    && OptionalAccepted(p.errorFileId, validId)
    && (p.total.Some? && p.total.value >= 0 ==> ProviderCount(p.completed) + ProviderCount(p.failed) <= p.total.value)
  }

  /** Validates one observation, or refuses it before any row is touched. */
  function Normalize(p: ProviderBatch, order: nat, observedAt: Instant, validId: string -> bool): Option<Snapshot> {
    var status := ProviderStatus(p.status);
    if status.None? || !EndpointAccepted(p.endpoint) || !RestAccepted(p, order, validId) then None
    else Some(Snapshot(order, status.value, EndpointOf(p.endpoint),
                       Present(p.inputFileId), Present(p.outputFileId), Present(p.errorFileId),
                       ProviderCount(p.total), p.total.Some? && p.total.value >= 0,
                       ProviderCount(p.completed), ProviderCount(p.failed), p.metadata, observedAt,
                       if Terminal(status.value) then Some(observedAt) else None))
  }

  // ----- what a recorded snapshot says -----

  /** The provider's word for a status; it has none for an unknown one. */
  function StatusText(s: Status): string {
    match s
    case Validating => "validating"
    case InProgress => "in_progress"
    case Finalizing => "finalizing"
    case Cancelling => "cancelling"
    case Completed => "completed"
    case Failed => "failed"
    case Expired => "expired"
    case Cancelled => "cancelled"
    case Unknown => ""
  }

  /** The status, or nothing at all for an unknown one, is what the provider wrote. */
  predicate Names(raw: Raw, s: Status) {
    raw == Str(StatusText(s)) || (raw.Absent? && s.Unknown?)
  }

  /** An id as the provider gave it; the empty text is none. */
  predicate SameId(raw: Option<string>, id: Option<string>) {
    if raw.Some? && raw.value != "" then id == raw else id.None?
  }

  /** A count as the provider gave it, if it gave one that is not negative. */
  predicate SameCount(raw: Option<int>, count: nat) {
    if raw.Some? && raw.value >= 0 then count == raw.value else count == 0
  }

  /** The snapshot is the provider's response, field by field. */
  predicate Reports(s: Snapshot, p: ProviderBatch, order: nat, observedAt: Instant) {
    && s.order == order && s.observedAt == observedAt
    && Names(p.status, s.status)
    && (if p.endpoint.Str? && p.endpoint.text != "" then s.endpoint == Some(p.endpoint.text) else s.endpoint.None?)
    && SameId(p.inputFileId, s.inputFileId)
    && SameId(p.outputFileId, s.outputFileId)
    && SameId(p.errorFileId, s.errorFileId)
    && (s.totalKnown <==> p.total.Some? && p.total.value >= 0)
    && SameCount(p.total, s.total) && SameCount(p.completed, s.completed) && SameCount(p.failed, s.failed)
    && s.metadata == p.metadata
    && s.terminalAt == if p.status in [Str("completed"), Str("failed"), Str("expired"), Str("cancelled")]
                       then Some(observedAt) else None
  }

  /** The row is the snapshot, first and last seen when it was observed. */
  predicate Shows(r: Row, s: Snapshot) {
    && r.order == s.order && r.status == s.status && r.endpoint == s.endpoint
    && r.inputFileId == s.inputFileId && r.outputFileId == s.outputFileId && r.errorFileId == s.errorFileId
    && r.total == s.total && r.totalKnown == s.totalKnown && r.completed == s.completed && r.failed == s.failed
    && r.metadata == s.metadata && r.firstSeenAt == r.lastObservedAt == s.observedAt && r.terminalAt == s.terminalAt
  }

  /** No two snapshots report one response. */
  lemma ReportsOne(s: Snapshot, t: Snapshot, p: ProviderBatch, order: nat, observedAt: Instant)
    requires Reports(s, p, order, observedAt) && Reports(t, p, order, observedAt)
    ensures s == t
  {
  }

  /**
   A row does not follow a snapshot that is not newer, that would leave a terminal
   status, or whose greatest counts taken together exceed the greatest total.
   */
  predicate Stays(r: Row, s: Snapshot) {
    || s.order <= r.order
    || (r.status in [Completed, Failed, Expired, Cancelled] && s.status != r.status)
    || (&& (r.totalKnown || s.totalKnown)
        && exists c, f :: c in [r.completed, s.completed] && f in [r.failed, s.failed]
                          && c + f > r.total && c + f > s.total)
  }

  predicate BadId(raw: Option<string>, validId: string -> bool) {
    raw.Some? && raw.value != "" && !validId(raw.value)
  }

  /** What makes a response refusable: its status, endpoint, order, an id, or counts above the total it gives. */
  predicate Unacceptable(p: ProviderBatch, order: nat, validId: string -> bool) {
    || p.status.Foreign? || (p.status.Str? && forall s: Status :: p.status.text != StatusText(s))
    || p.endpoint.Foreign?
    || (p.endpoint.Str? && p.endpoint.text !in ["", "/v1/responses", "/v1/chat/completions", "/v1/embeddings",
                                                "/v1/completions", "/v1/moderations"])
    || order == 0
    || BadId(p.inputFileId, validId) || BadId(p.outputFileId, validId) || BadId(p.errorFileId, validId)
    || (&& p.total.Some? && p.total.value >= 0
        && (if p.completed.Some? && p.completed.value >= 0 then p.completed.value else 0)
           + (if p.failed.Some? && p.failed.value >= 0 then p.failed.value else 0) > p.total.value)
  }

  /** A response is refused exactly if it is unacceptable, and a snapshot of any other is the response itself. */
  lemma NormalizedReports(p: ProviderBatch, order: nat, observedAt: Instant, validId: string -> bool)
    ensures Normalize(p, order, observedAt, validId).None? <==> Unacceptable(p, order, validId)
    ensures var s := Normalize(p, order, observedAt, validId); s.Some? ==> Reports(s.value, p, order, observedAt)
  {
    hide Reports, Unacceptable;
    StatusNames(p.status);
    RefusedMeans(p, order, observedAt, validId);
    if Normalize(p, order, observedAt, validId).Some? {
      SnapshotMeans(p, order, observedAt, validId);
    }
  }

  /** Names of statuses are read as the statuses they name, and no other text is one. */
  lemma StatusNames(raw: Raw)
    ensures ProviderStatus(raw).Some? ==> Names(raw, ProviderStatus(raw).value)
    ensures ProviderStatus(raw).None? <==> raw.Foreign? || (raw.Str? && forall s: Status :: raw.text != StatusText(s))
  {
    if raw.Str? && ProviderStatus(raw).None? {
      forall s: Status
        ensures raw.text != StatusText(s)
      {
        assert ProviderStatus(Str(StatusText(s))) == Some(s);
      }
    }
  }

  lemma RefusedMeans(p: ProviderBatch, order: nat, observedAt: Instant, validId: string -> bool)
    requires ProviderStatus(p.status).None? <==>
               p.status.Foreign? || (p.status.Str? && forall s: Status :: p.status.text != StatusText(s))
    ensures Normalize(p, order, observedAt, validId).None? <==> Unacceptable(p, order, validId)
  {
    hide ProviderStatus, StatusText;
  }

  lemma SnapshotMeans(p: ProviderBatch, order: nat, observedAt: Instant, validId: string -> bool)
    requires Normalize(p, order, observedAt, validId).Some?
    requires Names(p.status, ProviderStatus(p.status).value)
    ensures Reports(Normalize(p, order, observedAt, validId).value, p, order, observedAt)
  {
  }

  // ----- the guarded upsert -----

  function Coalesce<T>(first: Option<T>, second: Option<T>): Option<T> {
    if first.Some? then first else second
  }

  function Greatest(a: nat, b: nat): nat {
    if a >= b then a else b
  }

  function Inserted(s: Snapshot): Row {
    Row(s.order, s.status, s.endpoint, s.inputFileId, s.outputFileId, s.errorFileId,
        s.total, s.totalKnown, s.completed, s.failed, s.metadata, s.observedAt, s.observedAt, s.terminalAt)
  }

  /** The WHERE clause of the conflict update. */
  predicate Accepts(row: Row, s: Snapshot) {
    && s.order > row.order
    && (row.totalKnown || s.totalKnown ==>
          Greatest(row.completed, s.completed) + Greatest(row.failed, s.failed) <= Greatest(row.total, s.total))
    && (Terminal(row.status) ==> s.status == row.status)
  }

  lemma AcceptsUnlessStays(row: Row, s: Snapshot)
    ensures Accepts(row, s) <==> !Stays(row, s)
  {
    assert Greatest(row.completed, s.completed) in [row.completed, s.completed];
    assert Greatest(row.failed, s.failed) in [row.failed, s.failed];
  }

  function Merged(row: Row, s: Snapshot): Row {
    Row(s.order, s.status, Coalesce(s.endpoint, row.endpoint),
        Coalesce(s.inputFileId, row.inputFileId), Coalesce(s.outputFileId, row.outputFileId),
        Coalesce(s.errorFileId, row.errorFileId),
        Greatest(row.total, s.total), row.totalKnown || s.totalKnown,
        Greatest(row.completed, s.completed), Greatest(row.failed, s.failed),
        if s.metadata == EMPTY_METADATA then row.metadata else s.metadata,
        row.firstSeenAt, s.observedAt, Coalesce(row.terminalAt, s.terminalAt))
  }

  function Upsert(row: Option<Row>, s: Snapshot): Row {
    match row
    case None => Inserted(s)
    case Some(r) => if Accepts(r, s) then Merged(r, s) else r
  }

  datatype JobKey = JobKey(tenant: string, endpointAlias: string, batchId: string)

  function RowOf(rows: map<JobKey, Row>, k: JobKey): Option<Row> {
    if k in rows then Some(rows[k]) else None
  }

  /** What the recorder returns: the incoming snapshot when it was accepted, the durable row when it was not. */
  datatype PersistResult = Invalid | Recorded(snapshot: Snapshot) | Superseded(row: Row)

  class LifecycleTable {
    var rows: map<JobKey, Row>

    constructor ()
      ensures rows == map[]
    {
      rows := map[];
    }

    /** One atomic upsert; the row is its old value merged with the observation, or unchanged. */
    method Persist(key: JobKey, p: ProviderBatch, order: nat, observedAt: Instant, validId: string -> bool)
      returns (result: PersistResult)
      modifies this
      ensures match Normalize(p, order, observedAt, validId)
              case None => result == Invalid && rows == old(rows)
              case Some(s) =>
                && rows == old(rows)[key := Upsert(old(RowOf(rows, key)), s)]
                && result == if key in old(rows) && !Accepts(old(rows)[key], s) then Superseded(old(rows)[key])
                             else Recorded(s)
      ensures result.Invalid? <==> Unacceptable(p, order, validId)
      ensures result.Recorded? ==> Reports(result.snapshot, p, order, observedAt)
      ensures key !in old(rows) && !result.Invalid? ==>
                result.Recorded? && key in rows && Shows(rows[key], result.snapshot)
      ensures key in old(rows) && result.Recorded? ==> !Stays(old(rows)[key], result.snapshot)
      ensures result.Superseded? ==>
                forall s :: Reports(s, p, order, observedAt) ==> Stays(old(rows)[key], s)
    {
      hide Normalize, Reports, Unacceptable, Accepts, Stays;
      NormalizedReports(p, order, observedAt, validId);
      var normalized := Normalize(p, order, observedAt, validId);
      if normalized.None? {
        return Invalid;
      }
      var s := normalized.value;
      forall t | Reports(t, p, order, observedAt)
        ensures t == s
      {
        ReportsOne(s, t, p, order, observedAt);
      }
      if key !in rows {
        rows := rows[key := Inserted(s)];
        return Recorded(s);
      }
      AcceptsUnlessStays(rows[key], s);
      if !Accepts(rows[key], s) {
        assert rows[key := rows[key]] == rows;
        return Superseded(rows[key]);
      }
      rows := rows[key := Merged(rows[key], s)];
      result := Recorded(s);
    }
  }

  // ----- what every row satisfies -----

  predicate SnapshotOk(s: Snapshot) {
    && s.order > 0
    && (s.totalKnown ==> s.completed + s.failed <= s.total)
    && (!s.totalKnown ==> s.total == 0)
    && s.terminalAt == (if Terminal(s.status) then Some(s.observedAt) else None)
  }

  predicate RowOk(r: Row) {
    && r.order > 0
    && (r.totalKnown ==> r.completed + r.failed <= r.total)
    && (!r.totalKnown ==> r.total == 0)
    && (r.terminalAt.Some? <==> Terminal(r.status))
  }

  lemma NormalizedIsOk(p: ProviderBatch, order: nat, observedAt: Instant, validId: string -> bool)
    requires Normalize(p, order, observedAt, validId).Some?
    ensures SnapshotOk(Normalize(p, order, observedAt, validId).value)
  {
  }

  predicate Sticky<T>(before: Option<T>, after: Option<T>) {
    before.Some? ==> after.Some?
  }

  /** How a row may change over time. */
  predicate Evolves(a: Row, b: Row) {
    a == b ||
    (&& a.order < b.order
     && a.total <= b.total && a.completed <= b.completed && a.failed <= b.failed
     && (a.totalKnown ==> b.totalKnown)
     && (Terminal(a.status) ==> b.status == a.status)
     && (a.terminalAt.Some? ==> b.terminalAt == a.terminalAt)
     && a.firstSeenAt == b.firstSeenAt
     && Sticky(a.endpoint, b.endpoint) && Sticky(a.inputFileId, b.inputFileId)
     && Sticky(a.outputFileId, b.outputFileId) && Sticky(a.errorFileId, b.errorFileId)
     && (a.metadata != EMPTY_METADATA ==> b.metadata != EMPTY_METADATA))
  }

  lemma UpsertKeepsRowOk(row: Option<Row>, s: Snapshot)
    requires SnapshotOk(s) && (row.Some? ==> RowOk(row.value))
    ensures RowOk(Upsert(row, s))
    ensures row.Some? ==> Evolves(row.value, Upsert(row, s))
  {
  }

  /** The row left by a list of deliveries, in delivery order. */
  function Delivered(deliveries: seq<Snapshot>): Option<Row> {
    if deliveries == [] then None
    else Some(Upsert(Delivered(deliveries[..|deliveries| - 1]), deliveries[|deliveries| - 1]))
  }

  predicate AllOk(deliveries: seq<Snapshot>) {
    forall i :: 0 <= i < |deliveries| ==> SnapshotOk(deliveries[i])
  }

  /** Every reachable row is consistent. */
  lemma {:induction false} ReachableRowsAreOk(deliveries: seq<Snapshot>)
    requires AllOk(deliveries) && deliveries != []
    ensures Delivered(deliveries).Some? && RowOk(Delivered(deliveries).value)
  {
    var before := deliveries[..|deliveries| - 1];
    if before != [] {
      ReachableRowsAreOk(before);
    }
    UpsertKeepsRowOk(Delivered(before), deliveries[|deliveries| - 1]);
  }

  /** Between any two moments of one row's life it only evolves. */
  lemma {:induction false} RowsOnlyEvolve(deliveries: seq<Snapshot>, n: nat)
    requires AllOk(deliveries) && 0 < n <= |deliveries|
    ensures Delivered(deliveries[..n]).Some? && Delivered(deliveries).Some?
    ensures Evolves(Delivered(deliveries[..n]).value, Delivered(deliveries).value)
  {
    if n < |deliveries| {
      var before := deliveries[..|deliveries| - 1];
      assert before[..n] == deliveries[..n];
      RowsOnlyEvolve(before, n);
      ReachableRowsAreOk(before);
      UpsertKeepsRowOk(Delivered(before), deliveries[|deliveries| - 1]);
    } else {
      assert deliveries[..n] == deliveries;
    }
  }

  /** The terminal instant is that of the delivery that first made the row terminal. */
  lemma {:induction false} TerminalAtIsFirst(deliveries: seq<Snapshot>) returns (i: nat)
    requires AllOk(deliveries) && deliveries != [] && Terminal(Delivered(deliveries).value.status)
    ensures i < |deliveries| && Terminal(deliveries[i].status)
    ensures i == 0 || !Terminal(Delivered(deliveries[..i]).value.status)
    ensures Delivered(deliveries).value.terminalAt == Some(deliveries[i].observedAt)
    ensures Delivered(deliveries).value.status == deliveries[i].status
  {
    var k := |deliveries| - 1;
    var before := deliveries[..k];
    assert Delivered(deliveries) == Some(Upsert(Delivered(before), deliveries[k]));
    if before != [] {
      ReachableRowsAreOk(before);
      if Terminal(Delivered(before).value.status) {
        i := TerminalAtIsFirst(before);
        assert before[..i] == deliveries[..i];
        return;
      }
    }
    i := k;
  }

  // ----- convergence -----

  /** What a later observation must look like for the row to follow it. */
  predicate Follows(a: Snapshot, b: Snapshot) {
    && a.total <= b.total && a.completed <= b.completed && a.failed <= b.failed
    && (a.totalKnown ==> b.totalKnown)
    && (Terminal(a.status) ==> b.status == a.status)
  }

  predicate Reflects(r: Row, s: Snapshot) {
    r.order == s.order && r.status == s.status && r.total == s.total && r.totalKnown == s.totalKnown
    && r.completed == s.completed && r.failed == s.failed
  }

  /** A later observation replaces an earlier one exactly when it follows it. */
  lemma FollowingIsExact(row: Row, a: Snapshot, b: Snapshot)
    requires SnapshotOk(a) && SnapshotOk(b) && Reflects(row, a) && a.order < b.order
    ensures Reflects(Upsert(Some(row), b), b) <==> Follows(a, b)
  {
  }

  /** Observations of one job whose orders tell them apart and whose history is monotone. */
  ghost predicate MonotoneHistory(history: set<Snapshot>) {
    && (forall s :: s in history ==> SnapshotOk(s))
    && (forall a, b :: a in history && b in history && a.order < b.order ==> Follows(a, b))
  }

  ghost predicate Distinguished(history: set<Snapshot>) {
    forall a, b :: a in history && b in history && a.order == b.order ==> a == b
  }

  /** The observation of highest order among those delivered. */
  function Latest(deliveries: seq<Snapshot>): (s: Snapshot)
    requires deliveries != []
    ensures s in deliveries
    ensures forall d :: d in deliveries ==> d.order <= s.order
  {
    var k := |deliveries| - 1;
    var last := deliveries[k];
    if k == 0 then last
    else
      var s := Latest(deliveries[..k]);
      assert forall d :: d in deliveries ==> d in deliveries[..k] || d == last;
      if s.order < last.order then last else s
  }

  ghost predicate Drawn(deliveries: seq<Snapshot>, history: set<Snapshot>) {
    forall d :: d in deliveries ==> d in history
  }

  lemma {:induction false} DeliveryConverges(deliveries: seq<Snapshot>, history: set<Snapshot>)
    requires MonotoneHistory(history) && Distinguished(history)
    requires deliveries != [] && Drawn(deliveries, history)
    ensures Delivered(deliveries).Some? && Reflects(Delivered(deliveries).value, Latest(deliveries))
  {
    var k := |deliveries| - 1;
    var before, last := deliveries[..k], deliveries[k];
    assert last in deliveries;
    if before != [] {
      DeliveryConverges(before, history);
      var s := Latest(before);
      assert s in history && last in history;
      if s.order < last.order {
        FollowingIsExact(Delivered(before).value, s, last);
      }
    }
  }

  /**
   Whatever subset of the observations is delivered, in whatever order and with
   whatever repeats, the row shows the observation of highest order delivered:
   for exactly the histories that are monotone in observation order.
   */
  lemma ConvergesIffMonotone(history: set<Snapshot>)
    requires Distinguished(history) && forall s :: s in history ==> SnapshotOk(s)
    ensures MonotoneHistory(history) <==>
              forall deliveries :: deliveries != [] && Drawn(deliveries, history) ==>
                Delivered(deliveries).Some? && Reflects(Delivered(deliveries).value, Latest(deliveries))
  {
    if MonotoneHistory(history) {
      forall deliveries | deliveries != [] && Drawn(deliveries, history)
        ensures Delivered(deliveries).Some? && Reflects(Delivered(deliveries).value, Latest(deliveries))
      {
        DeliveryConverges(deliveries, history);
      }
    } else {
      var a, b :| a in history && b in history && a.order < b.order && !Follows(a, b);
      PairDiverges(a, b, history);
    }
  }

  lemma PairDiverges(a: Snapshot, b: Snapshot, history: set<Snapshot>)
    requires SnapshotOk(a) && SnapshotOk(b) && a in history && b in history
    requires a.order < b.order && !Follows(a, b)
    ensures var d := [a, b]; Drawn(d, history) && Latest(d) == b && !Reflects(Delivered(d).value, Latest(d))
  {
    var d := [a, b];
    assert d[..1] == [a] && [a][..0] == [];
    assert Delivered([a]) == Some(Inserted(a));
    FollowingIsExact(Inserted(a), a, b);
    assert b in d && Latest(d) in d;
  }
}
