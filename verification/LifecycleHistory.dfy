/**
 What a lifecycle row says about its history: every column is determined by the
 observations the row accepted, and most do not depend on when the others came.
 */
module LifecycleHistory {
  import opened Bytes
  import opened Lifecycle
  import opened Sequences

  predicate TakenLast(deliveries: seq<Snapshot>)
    requires deliveries != []
  {
    var before := Delivered(deliveries[..|deliveries| - 1]);
    before.None? || Accepts(before.value, deliveries[|deliveries| - 1])
  }

  /** The deliveries that changed the row, in order. */
  function Taken(deliveries: seq<Snapshot>): (taken: seq<Snapshot>)
    ensures deliveries != [] ==> taken != []
  {
    if deliveries == [] then []
    else
      var before := Taken(deliveries[..|deliveries| - 1]);
      if TakenLast(deliveries) then before + [deliveries[|deliveries| - 1]]
      else before
  }

  /** A sticky column holds the latest value that any of the observations carried. */
  predicate ShowsLatest<T(==)>(taken: seq<Snapshot>, column: Snapshot -> Option<T>, value: Option<T>) {
    if value.None? then forall i :: 0 <= i < |taken| ==> column(taken[i]).None?
    else exists i :: 0 <= i < |taken| && column(taken[i]) == value
                     && forall j :: i < j < |taken| ==> column(taken[j]).None?
  }

  /** A counter is the greatest value that any of the observations carried. */
  predicate IsGreatest(taken: seq<Snapshot>, column: Snapshot -> nat, value: nat) {
    && (exists i :: 0 <= i < |taken| && column(taken[i]) == value)
    && forall i :: 0 <= i < |taken| ==> column(taken[i]) <= value
  }

  function MetadataOf(s: Snapshot): Option<string> {
    if s.metadata == EMPTY_METADATA then None else Some(s.metadata)
  }

  predicate ShowsColumns(taken: seq<Snapshot>, r: Row) {
    && ShowsLatest(taken, (s: Snapshot) => s.endpoint, r.endpoint)
    && ShowsLatest(taken, (s: Snapshot) => s.inputFileId, r.inputFileId)
    && ShowsLatest(taken, (s: Snapshot) => s.outputFileId, r.outputFileId)
    && ShowsLatest(taken, (s: Snapshot) => s.errorFileId, r.errorFileId)
    && ShowsLatest(taken, MetadataOf, if r.metadata == EMPTY_METADATA then None else Some(r.metadata))
  }

  predicate ShowsCounts(taken: seq<Snapshot>, r: Row) {
    && IsGreatest(taken, (s: Snapshot) => s.total, r.total)
    && IsGreatest(taken, (s: Snapshot) => s.completed, r.completed)
    && IsGreatest(taken, (s: Snapshot) => s.failed, r.failed)
    && (r.totalKnown <==> exists i :: 0 <= i < |taken| && taken[i].totalKnown)
  }

  predicate ShowsEnds(taken: seq<Snapshot>, r: Row) {
    && taken != []
    && (forall i, j :: 0 <= i < j < |taken| ==> taken[i].order < taken[j].order)
    && var last := taken[|taken| - 1];
    && r.order == last.order && r.status == last.status && r.lastObservedAt == last.observedAt
    && r.firstSeenAt == taken[0].observedAt
  }

  lemma LatestStep<T>(taken: seq<Snapshot>, s: Snapshot, column: Snapshot -> Option<T>, value: Option<T>)
    requires ShowsLatest(taken, column, value)
    ensures ShowsLatest(taken + [s], column, Coalesce(column(s), value))
  {
    var after := taken + [s];
    if column(s).Some? {
      assert after[|taken|] == s;
    } else if value.Some? {
      var i :| 0 <= i < |taken| && column(taken[i]) == value && forall j :: i < j < |taken| ==> column(taken[j]).None?;
      assert after[i] == taken[i];
    }
  }

  lemma GreatestStep(taken: seq<Snapshot>, s: Snapshot, column: Snapshot -> nat, value: nat)
    requires IsGreatest(taken, column, value)
    ensures IsGreatest(taken + [s], column, Greatest(value, column(s)))
  {
    var after := taken + [s];
    var i :| 0 <= i < |taken| && column(taken[i]) == value;
    assert after[i] == taken[i] && after[|taken|] == s;
  }

  lemma ColumnsStep(taken: seq<Snapshot>, r: Row, s: Snapshot)
    requires ShowsColumns(taken, r)
    ensures ShowsColumns(taken + [s], Merged(r, s))
  {
    hide ShowsLatest;
    LatestStep(taken, s, (s: Snapshot) => s.endpoint, r.endpoint);
    LatestStep(taken, s, (s: Snapshot) => s.inputFileId, r.inputFileId);
    LatestStep(taken, s, (s: Snapshot) => s.outputFileId, r.outputFileId);
    LatestStep(taken, s, (s: Snapshot) => s.errorFileId, r.errorFileId);
    LatestStep(taken, s, MetadataOf, if r.metadata == EMPTY_METADATA then None else Some(r.metadata));
  }

  lemma CountsStep(taken: seq<Snapshot>, r: Row, s: Snapshot)
    requires ShowsCounts(taken, r)
    ensures ShowsCounts(taken + [s], Merged(r, s))
  {
    hide IsGreatest;
    GreatestStep(taken, s, (s: Snapshot) => s.total, r.total);
    GreatestStep(taken, s, (s: Snapshot) => s.completed, r.completed);
    GreatestStep(taken, s, (s: Snapshot) => s.failed, r.failed);
    KnownStep(taken, s);
  }

  lemma KnownStep(taken: seq<Snapshot>, s: Snapshot)
    ensures (exists i :: 0 <= i < |taken + [s]| && (taken + [s])[i].totalKnown)
      <==> s.totalKnown || exists i :: 0 <= i < |taken| && taken[i].totalKnown
  {
    var after := taken + [s];
    assert after[|taken|] == s;
    assert forall i :: 0 <= i < |taken| ==> after[i] == taken[i];
  }

  lemma EndsStep(taken: seq<Snapshot>, r: Row, s: Snapshot)
    requires ShowsEnds(taken, r) && Accepts(r, s)
    ensures ShowsEnds(taken + [s], Merged(r, s))
  {
    var after := taken + [s];
    assert after[|taken|] == s && after[0] == taken[0];
    assert forall i :: 0 <= i < |taken| ==> taken[i].order <= taken[|taken| - 1].order;
  }

  lemma FirstRow(s: Snapshot)
    ensures ShowsColumns([s], Inserted(s)) && ShowsCounts([s], Inserted(s)) && ShowsEnds([s], Inserted(s))
  {
    assert [s][0] == s;
  }

  /**
   After any deliveries the row shows, of exactly the ones it accepted: the last
   one's status, order and time, the first one's time, the greatest counters, and
   the latest endpoint, file ids and metadata that were present.
   */
  lemma {:induction false} RowSummarisesTaken(deliveries: seq<Snapshot>)
    requires deliveries != []
    ensures Delivered(deliveries).Some?
    ensures var taken, r := Taken(deliveries), Delivered(deliveries).value;
            ShowsEnds(taken, r) && ShowsCounts(taken, r) && ShowsColumns(taken, r)
    ensures Taken(deliveries)[0] == deliveries[0]
  {
    hide ShowsEnds, ShowsCounts, ShowsColumns, Accepts, Merged;
    var before, s := deliveries[..|deliveries| - 1], deliveries[|deliveries| - 1];
    if before == [] {
      assert Taken(before) == [] && Taken(deliveries) == [s];
      FirstRow(s);
    } else {
      RowSummarisesTaken(before);
      var taken, r := Taken(before), Delivered(before).value;
      ColumnsStep(taken, r, s);
      CountsStep(taken, r, s);
      if Accepts(r, s) {
        EndsStep(taken, r, s);
      }
    }
  }

  /**
   Deliveries in increasing order of a monotone history are all accepted; so the
   sticky columns then show the latest values ever observed.
   */
  lemma {:induction false} InOrderDeliveriesAreAllTaken(deliveries: seq<Snapshot>, history: set<Snapshot>)
    requires MonotoneHistory(history) && Distinguished(history) && Drawn(deliveries, history)
    requires forall i, j :: 0 <= i < j < |deliveries| ==> deliveries[i].order < deliveries[j].order
    ensures Taken(deliveries) == deliveries
  {
    hide MonotoneHistory, Distinguished, Accepts, Delivered;
    if deliveries != [] {
      var before, s := deliveries[..|deliveries| - 1], deliveries[|deliveries| - 1];
      assert deliveries == before + [s];
      InOrderDeliveriesAreAllTaken(before, history);
      if before == [] {
        FirstIsTaken(deliveries);
      } else {
        assert forall d :: d in before ==> exists i :: 0 <= i < |before| && deliveries[i] == d;
        NextIsTaken(before, s, history);
      }
    }
  }

  lemma FirstIsTaken(deliveries: seq<Snapshot>)
    requires |deliveries| == 1
    ensures TakenLast(deliveries)
  {
  }

  lemma NextIsTaken(before: seq<Snapshot>, s: Snapshot, history: set<Snapshot>)
    requires MonotoneHistory(history) && Distinguished(history) && Drawn(before, history) && s in history
    requires before != [] && forall d :: d in before ==> d.order < s.order
    ensures Delivered(before).Some? && Accepts(Delivered(before).value, s)
  {
    hide MonotoneHistory, Distinguished, Accepts, Reflects, Delivered;
    DeliveryConverges(before, history);
    LatestIsFollowed(history, Latest(before), s);
    AcceptsFollower(Delivered(before).value, Latest(before), s);
  }

  /**
   On a monotone history the latest delivery is accepted if and only if its order
   is above that of every delivery before it: only late observations are dropped.
   */
  lemma TakenIffLatest(deliveries: seq<Snapshot>, history: set<Snapshot>)
    requires MonotoneHistory(history) && Distinguished(history) && Drawn(deliveries, history) && deliveries != []
    ensures var before, last := deliveries[..|deliveries| - 1], deliveries[|deliveries| - 1];
            TakenLast(deliveries) <==> forall d :: d in before ==> d.order < last.order
  {
    hide MonotoneHistory, Distinguished, Delivered;
    var before, last := deliveries[..|deliveries| - 1], deliveries[|deliveries| - 1];
    assert last in deliveries && forall d :: d in before ==> d in deliveries;
    if before == [] {
      NothingDelivered();
    } else {
      DeliveryConverges(before, history);
      if forall d :: d in before ==> d.order < last.order {
        NextIsTaken(before, last, history);
      } else {
        var d :| d in before && d.order >= last.order;
        assert Latest(before).order >= last.order;
      }
    }
  }

  lemma NothingDelivered()
    ensures Delivered([]).None?
  {
  }

  lemma LatestIsFollowed(history: set<Snapshot>, a: Snapshot, b: Snapshot)
    requires MonotoneHistory(history) && a in history && b in history && a.order < b.order
    ensures SnapshotOk(a) && SnapshotOk(b) && Follows(a, b)
  {
  }

  lemma AcceptsFollower(r: Row, a: Snapshot, b: Snapshot)
    requires SnapshotOk(a) && SnapshotOk(b) && Reflects(r, a) && a.order < b.order && Follows(a, b)
    ensures Accepts(r, b)
  {
  }

  /** A late observation is dropped whole: a value that only it carried never reaches the row. */
  lemma LateObservationIsDropped(deliveries: seq<Snapshot>, late: Snapshot)
    requires deliveries != [] && late.order <= Delivered(deliveries).value.order
    ensures Taken(deliveries + [late]) == Taken(deliveries)
    ensures Delivered(deliveries + [late]) == Delivered(deliveries)
  {
    hide Merged, Inserted;
    var all := deliveries + [late];
    SnocInit(deliveries, late);
    assert Delivered(all) == Some(Upsert(Delivered(deliveries), late));
    assert !Accepts(Delivered(deliveries).value, late);
  }
}
