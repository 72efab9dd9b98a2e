/**
 Many clients polling at once. Each reserves an order from the database
 sequence before it talks to the provider and records the answer afterwards, so
 recordings may land in any order.
 */
module Pollers {
  import opened Bytes
  import opened Lifecycle
  import opened Sequences

  // ----- the durable client's normalisation seam -----

  predicate HasNul(s: string) {
    '\0' in s
  }

  /** Provider text survives only if it is text, non-empty and free of NUL. */
  predicate Survives(raw: Raw) {
    raw.Str? && raw.text != "" && !HasNul(raw.text)
  }

  /** What the durable client hands to the recorder. */
  function Forwarded(p: ProviderBatch): ProviderBatch {
    p.(status := if Survives(p.status) then p.status else Str("unknown"),
       endpoint := if Survives(p.endpoint) then p.endpoint else Absent,
       inputFileId := Present(p.inputFileId), outputFileId := Present(p.outputFileId),
           errorFileId := Present(p.errorFileId))
  }

  /** An endpoint that the recorder refuses for what it is and the client silently drops. */
  predicate Dropped(endpoint: Raw) {
    endpoint.Foreign? || (endpoint.Str? && HasNul(endpoint.text))
  }

  lemma NoNameHasNul(s: string)
    requires HasNul(s)
    ensures StatusNamed(s) == None && s !in SUPPORTED_ENDPOINTS && s != ""
  {
  }

  lemma UnknownIsUnsupported()
    ensures ProviderStatus(Str("unknown")) == None
  {
    assert "unknown"[0] == 'u';
  }

  /**
   How forwarding changes what is recorded: without a status nothing is recorded
   any more; an endpoint that the recorder would refuse as foreign or NUL-bearing
   is recorded as absent; everything else is recorded as it would have been.
   */
  lemma ForwardingEffect(p: ProviderBatch, order: nat, observedAt: Instant, validId: string -> bool)
    ensures Normalize(Forwarded(p), order, observedAt, validId)
            == if Missing(p.status) then None
               else if Dropped(p.endpoint) then Normalize(p.(endpoint := Absent), order, observedAt, validId)
               else Normalize(p, order, observedAt, validId)
    ensures Dropped(p.endpoint) ==> Normalize(p, order, observedAt, validId) == None
  {
    hide StatusNamed;
    UnknownIsUnsupported();
    if p.status.Str? && HasNul(p.status.text) { NoNameHasNul(p.status.text); }
    if p.endpoint.Str? && HasNul(p.endpoint.text) { NoNameHasNul(p.endpoint.text); }
    assert RestAccepted(Forwarded(p), order, validId) == RestAccepted(p, order, validId);
  }

  /**
   Forwarding preserves an observation if and only if it neither loses a missing
   status that the recorder alone would have stored as unknown, nor hides an
   endpoint that the recorder alone would have refused.
   */
  lemma ForwardingPreservesIff(p: ProviderBatch, order: nat, observedAt: Instant, validId: string -> bool)
    ensures Normalize(Forwarded(p), order, observedAt, validId) == Normalize(p, order, observedAt, validId)
      <==> !(RestAccepted(p, order, validId)
             && ((Missing(p.status) && EndpointAccepted(p.endpoint))
                 || (Dropped(p.endpoint) && p.status.Str? && StatusNamed(p.status.text).Some?)))
  {
    hide StatusNamed, RestAccepted;
    ForwardingEffect(p, order, observedAt, validId);
    EmptyIsNoStatus();
    RestIgnoresEndpoint(p, order, validId);
  }

  lemma EmptyIsNoStatus()
    ensures StatusNamed("") == None
  {
  }

  lemma RestIgnoresEndpoint(p: ProviderBatch, order: nat, validId: string -> bool)
    ensures RestAccepted(p.(endpoint := Absent), order, validId) == RestAccepted(p, order, validId)
  {
  }

  function Plain(status: Raw, endpoint: Raw): ProviderBatch {
    ProviderBatch(status, endpoint, None, None, None, None, None, None, EMPTY_METADATA)
  }

  /** One input of each failing class: no status, an empty one, an endpoint with a NUL, and one that is not text. */
  lemma ForwardingWitnesses(observedAt: Instant, validId: string -> bool)
    ensures forall status :: status in {Absent, Str("")} ==>
              && Normalize(Plain(status, Absent), 1, observedAt, validId).Some?
              && Normalize(Forwarded(Plain(status, Absent)), 1, observedAt, validId).None?
    ensures forall endpoint :: endpoint in {Str("\0"), Foreign} ==>
              && Normalize(Plain(Str("completed"), endpoint), 1, observedAt, validId).None?
              && Normalize(Forwarded(Plain(Str("completed"), endpoint)), 1, observedAt, validId).Some?
  {
    UnknownIsUnsupported();
    assert HasNul("\0");
    NoNameHasNul("\0");
    assert !HasNul("completed");
  }

  // ----- interleavings -----

  type PollerId = nat

  datatype Recording = Recording(key: JobKey, snapshot: Snapshot)

  datatype World = World(last: nat, reserved: map<PollerId, nat>, rows: map<JobKey, Row>, recorded: seq<Recording>)

  const START: World := World(0, map[], map[], [])

  datatype Step =
    | Reserve(poller: PollerId)
    | Record(poller: PollerId, key: JobKey, batch: ProviderBatch, observedAt: Instant, validId: string -> bool)
    | Abandon(poller: PollerId)

  function Next(w: World, step: Step): World {
    match step
    case Reserve(p) => w.(last := w.last + 1, reserved := w.reserved[p := w.last + 1])
    case Abandon(p) => w.(reserved := w.reserved - {p})
    case Record(p, key, batch, observedAt, validId) =>
      if p !in w.reserved then w
      else
        var done := w.(reserved := w.reserved - {p});
        match Normalize(Forwarded(batch), w.reserved[p], observedAt, validId)
        case None => done
        case Some(s) =>
          done.(rows := w.rows[key := Upsert(RowOf(w.rows, key), s)], recorded := w.recorded + [Recording(key, s)])
  }

  function Execute(steps: seq<Step>): World {
    if steps == [] then START else Next(Execute(steps[..|steps| - 1]), steps[|steps| - 1])
  }

  /** The recordings of one job, in the order they landed. */
  function Of(recorded: seq<Recording>, key: JobKey): seq<Snapshot> {
    if recorded == [] then []
    else
      var before, r := Of(recorded[..|recorded| - 1], key), recorded[|recorded| - 1];
      if r.key == key then before + [r.snapshot] else before
  }

  /** Orders are positive, drawn from the sequence, and never shared. */
  predicate OrdersOk(w: World) {
    && (forall i :: 0 <= i < |w.recorded| ==>
          SnapshotOk(w.recorded[i].snapshot) && w.recorded[i].snapshot.order <= w.last)
    && (forall i, j :: 0 <= i < j < |w.recorded| ==> w.recorded[i].snapshot.order != w.recorded[j].snapshot.order)
    && (forall p :: p in w.reserved ==> 0 < w.reserved[p] <= w.last)
    && (forall p, q :: p in w.reserved && q in w.reserved && p != q ==> w.reserved[p] != w.reserved[q])
    && (forall p, i :: p in w.reserved && 0 <= i < |w.recorded| ==> w.recorded[i].snapshot.order != w.reserved[p])
  }

  /** Every row is what its recordings leave, in the order they landed. */
  ghost predicate RowsMatch(w: World) {
    forall k :: RowOf(w.rows, k) == Delivered(Of(w.recorded, k))
  }

  ghost predicate Inv(w: World) {
    OrdersOk(w) && RowsMatch(w)
  }

  lemma RecordedRow(w: World, key: JobKey, s: Snapshot, k: JobKey)
    requires RowOf(w.rows, k) == Delivered(Of(w.recorded, k))
    ensures RowOf(w.rows[key := Upsert(RowOf(w.rows, key), s)], k) == Delivered(Of(w.recorded + [Recording(key, s)], k))
  {
    SnocInit(w.recorded, Recording(key, s));
    SnocInit(Of(w.recorded, k), s);
  }

  lemma StepKeepsRows(w: World, step: Step)
    requires RowsMatch(w)
    ensures RowsMatch(Next(w, step))
  {
    hide Normalize, Upsert, Delivered, Of;
    if step.Record? && step.poller in w.reserved {
      var n := Normalize(Forwarded(step.batch), w.reserved[step.poller], step.observedAt, step.validId);
      if n.Some? {
        forall k
          ensures RowOf(Next(w, step).rows, k) == Delivered(Of(Next(w, step).recorded, k))
        {
          RecordedRow(w, step.key, n.value, k);
        }
      }
    }
  }

  lemma StepKeepsOrders(w: World, step: Step)
    requires OrdersOk(w)
    ensures OrdersOk(Next(w, step))
  {
    hide Normalize, SnapshotOk, Upsert;
    if step.Record? && step.poller in w.reserved {
      var order := w.reserved[step.poller];
      var n := Normalize(Forwarded(step.batch), order, step.observedAt, step.validId);
      if n.Some? {
        NormalizedIsOk(Forwarded(step.batch), order, step.observedAt, step.validId);
        NormalizedOrder(Forwarded(step.batch), order, step.observedAt, step.validId);
        RecordingKeepsOrders(w, step.poller, Recording(step.key, n.value), Next(w, step).rows);
      }
    }
  }

  lemma NormalizedOrder(p: ProviderBatch, order: nat, observedAt: Instant, validId: string -> bool)
    requires Normalize(p, order, observedAt, validId).Some?
    ensures Normalize(p, order, observedAt, validId).value.order == order
  {
  }

  /** Recording under a reserved order uses that order up. */
  lemma RecordingKeepsOrders(w: World, p: PollerId, r: Recording, rows: map<JobKey, Row>)
    requires OrdersOk(w) && p in w.reserved && r.snapshot.order == w.reserved[p] && SnapshotOk(r.snapshot)
    ensures OrdersOk(w.(reserved := w.reserved - {p}, rows := rows, recorded := w.recorded + [r]))
  {
    hide SnapshotOk;
  }

  lemma {:induction false} EveryRunKeepsInv(steps: seq<Step>)
    ensures Inv(Execute(steps))
  {
    hide Next, OrdersOk, RowsMatch;
    if steps == [] {
      NothingRecorded();
    } else {
      EveryRunKeepsInv(steps[..|steps| - 1]);
      StepKeepsOrders(Execute(steps[..|steps| - 1]), steps[|steps| - 1]);
      StepKeepsRows(Execute(steps[..|steps| - 1]), steps[|steps| - 1]);
    }
  }

  lemma NothingRecorded()
    ensures Inv(START)
  {
  }

  lemma {:induction false} OfIsDrawn(recorded: seq<Recording>, key: JobKey, s: Snapshot)
    requires s in Of(recorded, key)
    ensures Recording(key, s) in recorded
  {
    var before, r := recorded[..|recorded| - 1], recorded[|recorded| - 1];
    if s in Of(before, key) {
      OfIsDrawn(before, key, s);
    }
  }

  ghost function HistoryOf(w: World, key: JobKey): set<Snapshot> {
    set s | s in Of(w.recorded, key)
  }

  /**
   Over every interleaving of pollers no two observations share an order, every
   row is consistent, and if the provider's answers were monotone in
   reservation order the row shows the answer reserved last among those
   recorded, however late the others landed.
   */
  lemma RowsShowLatestReservation(steps: seq<Step>, key: JobKey)
    requires key in Execute(steps).rows
    ensures Distinguished(HistoryOf(Execute(steps), key))
    ensures RowOk(Execute(steps).rows[key])
    ensures Of(Execute(steps).recorded, key) != []
    ensures MonotoneHistory(HistoryOf(Execute(steps), key)) ==>
              Reflects(Execute(steps).rows[key], Latest(Of(Execute(steps).recorded, key)))
  {
    hide MonotoneHistory, Reflects, RowOk, SnapshotOk;
    EveryRunKeepsInv(steps);
    var w := Execute(steps);
    var ds, history := Of(w.recorded, key), HistoryOf(w, key);
    DrawnHistory(w, key);
    ReachableRowsAreOk(ds);
    if MonotoneHistory(history) {
      DeliveryConverges(ds, history);
    }
  }

  lemma DrawnHistory(w: World, key: JobKey)
    requires Inv(w)
    ensures RowOf(w.rows, key) == Delivered(Of(w.recorded, key))
    ensures Distinguished(HistoryOf(w, key))
    ensures forall s :: s in Of(w.recorded, key) ==> SnapshotOk(s)
  {
    hide SnapshotOk;
    forall s | s in Of(w.recorded, key)
      ensures Recording(key, s) in w.recorded && SnapshotOk(s)
    {
      OfIsDrawn(w.recorded, key, s);
    }
  }
}
