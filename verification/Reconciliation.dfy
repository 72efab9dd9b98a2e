/**
 Bounded reconciliation: choosing distinct candidates within a scan limit,
 running one pass over them, and the fairness of oldest-observed-first paging.
 */
module Reconciliation {
  import opened Bytes
  import opened Sequences

  const MAX_JOBS: nat := 100
  const MAX_CANDIDATES: nat := 400

  datatype Candidate = Candidate(endpointAlias: string, batchId: string)

  /** Each element once, in order of first occurrence. */
  function Uniques(xs: seq<Candidate>): seq<Candidate> {
    if xs == [] then []
    else
      var before, last := Uniques(xs[..|xs| - 1]), xs[|xs| - 1];
      if last in before then before else before + [last]
  }

  predicate Distinct<T(==)>(xs: seq<T>) {
    forall i, j :: 0 <= i < j < |xs| ==> xs[i] != xs[j]
  }

  lemma {:induction false} UniquesAreDistinct(xs: seq<Candidate>)
    ensures Distinct(Uniques(xs))
    ensures forall x :: x in Uniques(xs) <==> x in xs
  {
    if xs != [] {
      UniquesAreDistinct(xs[..|xs| - 1]);
    }
  }

  lemma {:induction false} DistinctIsItsOwnUniques(xs: seq<Candidate>)
    requires Distinct(xs)
    ensures Uniques(xs) == xs
  {
    if xs != [] {
      DistinctIsItsOwnUniques(xs[..|xs| - 1]);
    }
  }

  lemma UniquesSnoc(xs: seq<Candidate>, i: nat)
    requires i < |xs|
    ensures Uniques(xs[..i + 1]) == if xs[i] in Uniques(xs[..i]) then Uniques(xs[..i]) else Uniques(xs[..i]) + [xs[i]]
  {
    TakeSnoc(xs, i);
    SnocInit(xs[..i], xs[i]);
  }

  datatype Selection = Selected(work: seq<Candidate>) | InvalidCandidate | Saturated | InvalidBudget

  /** The validated identities, up to the first invalid candidate. */
  function Normalized(candidates: seq<Candidate>, normalize: Candidate -> Option<Candidate>): seq<Candidate> {
    if candidates == [] || normalize(candidates[0]).None? then []
    else [normalize(candidates[0]).value] + Normalized(candidates[1..], normalize)
  }

  lemma {:induction false} NormalizedAt(candidates: seq<Candidate>, normalize: Candidate -> Option<Candidate>, i: nat)
    requires i < |candidates| && i <= |Normalized(candidates, normalize)|
    ensures |Normalized(candidates, normalize)| <= |candidates|
    ensures normalize(candidates[i]).None? ==> |Normalized(candidates, normalize)| == i
    ensures normalize(candidates[i]).Some? ==>
              i < |Normalized(candidates, normalize)|
              && Normalized(candidates, normalize)[i] == normalize(candidates[i]).value
  {
    NormalizedLength(candidates, normalize);
    if i > 0 {
      NormalizedAt(candidates[1..], normalize, i - 1);
    }
  }

  lemma {:induction false} NormalizedLength(candidates: seq<Candidate>, normalize: Candidate -> Option<Candidate>)
    ensures |Normalized(candidates, normalize)| <= |candidates|
  {
    if candidates != [] && normalize(candidates[0]).Some? {
      NormalizedLength(candidates[1..], normalize);
    }
  }

  /** After `n` identities the budget is still open. */
  predicate Unfilled(ids: seq<Candidate>, maxJobs: nat, n: nat)
    requires n <= |ids|
  {
    forall k :: 0 <= k <= n ==> |Uniques(ids[..k])| < maxJobs
  }

  /** The shortest scan that fills the budget, or as much as there is to scan. */
  predicate StopsAt(ids: seq<Candidate>, maxJobs: nat, n: nat) {
    && n <= |ids| && n <= MAX_CANDIDATES
    && (n > 0 ==> Unfilled(ids, maxJobs, n - 1))
    && (|Uniques(ids[..n])| == maxJobs || n == |ids| || n == MAX_CANDIDATES)
  }

  /** What a scan that stops after `n` valid candidates comes to. */
  function ScanResult(candidates: seq<Candidate>, ids: seq<Candidate>, maxJobs: nat, n: nat): Selection
    requires n <= |ids|
  {
    if |Uniques(ids[..n])| == maxJobs then Selected(Uniques(ids[..n]))
    else if n < MAX_CANDIDATES && n < |candidates| then InvalidCandidate
    else if |candidates| > MAX_CANDIDATES then Saturated
    else Selected(Uniques(ids[..n]))
  }

  lemma NothingScanned(ids: seq<Candidate>, maxJobs: nat)
    requires maxJobs > 0
    ensures Uniques(ids[..0]) == [] && Unfilled(ids, maxJobs, 0)
  {
  }

  lemma UnfilledStep(ids: seq<Candidate>, maxJobs: nat, n: nat)
    requires n < |ids| && Unfilled(ids, maxJobs, n)
    ensures |Uniques(ids[..n + 1])| < maxJobs ==> Unfilled(ids, maxJobs, n + 1)
    ensures |Uniques(ids[..n])| < maxJobs
  {
  }

  /** The first `n` candidates are valid, and the work is their identities, each once. */
  predicate Gathered(candidates: seq<Candidate>, normalize: Candidate -> Option<Candidate>, n: nat,
                     work: seq<Candidate>)
    requires n <= |candidates|
  {
    && (forall i :: 0 <= i < n ==> normalize(candidates[i]).Some? && normalize(candidates[i]).value in work)
    && (forall w :: w in work ==> exists i :: 0 <= i < n && normalize(candidates[i]) == Some(w))
    && Distinct(work)
  }

  lemma GatheredStep(candidates: seq<Candidate>, normalize: Candidate -> Option<Candidate>, n: nat,
                     work: seq<Candidate>)
    requires n < |candidates| && normalize(candidates[n]).Some? && Gathered(candidates, normalize, n, work)
    ensures var w := normalize(candidates[n]).value;
            Gathered(candidates, normalize, n + 1, if w in work then work else work + [w])
  {
    var w := normalize(candidates[n]).value;
    forall x | x in work
      ensures exists i :: 0 <= i < n + 1 && normalize(candidates[i]) == Some(x)
    {
      var i :| 0 <= i < n && normalize(candidates[i]) == Some(x);
    }
    assert normalize(candidates[n]) == Some(w);
  }

  lemma NothingGathered(candidates: seq<Candidate>, normalize: Candidate -> Option<Candidate>)
    ensures Gathered(candidates, normalize, 0, [])
  {
  }

  /**
   Selects the first `maxJobs` distinct identities. An invalid candidate is
   reported only if it is reached, and a scan limit reached with the budget
   unfilled and candidates left over fails closed.
   */
  method SelectCandidates(candidates: seq<Candidate>, normalize: Candidate -> Option<Candidate>, maxJobs: int)
    returns (result: Selection, ghost n: nat)
    ensures !(1 <= maxJobs <= MAX_JOBS) ==> result.InvalidBudget?
    ensures 1 <= maxJobs <= MAX_JOBS ==>
              && StopsAt(Normalized(candidates, normalize), maxJobs, n)
              && result == ScanResult(candidates, Normalized(candidates, normalize), maxJobs, n)
    ensures result.InvalidBudget? <==> !(1 <= maxJobs <= 100)
    ensures n <= |candidates| && n <= 400
    ensures result.Selected? ==>
              && Gathered(candidates, normalize, n, result.work)
              && |result.work| <= maxJobs && (|result.work| < maxJobs ==> n == |candidates|)
    ensures result.Saturated? || result.InvalidCandidate? ==>
              exists work :: Gathered(candidates, normalize, n, work) && |work| < maxJobs
    ensures result.Saturated? ==> n == 400 < |candidates|
    ensures result.InvalidCandidate? ==> n < 400 && n < |candidates| && normalize(candidates[n]).None?
  {
    hide Uniques, Normalized, Unfilled, Gathered;
    n := 0;
    if !(1 <= maxJobs <= MAX_JOBS) {
      return InvalidBudget, 0;
    }
    ghost var ids := Normalized(candidates, normalize);
    NothingScanned(ids, maxJobs);
    NormalizedLength(candidates, normalize);
    NothingGathered(candidates, normalize);
    var selected: seq<Candidate>, seen: set<Candidate>, i := [], {}, 0;
    while i < |candidates| && i < MAX_CANDIDATES
      invariant i <= |candidates| && i <= MAX_CANDIDATES && i <= |ids|
      invariant selected == Uniques(ids[..i]) && |selected| < maxJobs
      invariant forall c :: c in seen <==> c in selected
      invariant Unfilled(ids, maxJobs, i)
      invariant i > 0 ==> Unfilled(ids, maxJobs, i - 1)
      invariant Gathered(candidates, normalize, i, selected)
    {
      NormalizedAt(candidates, normalize, i);
      var validated := normalize(candidates[i]);
      if validated.None? {
        return InvalidCandidate, i;
      }
      UniquesSnoc(ids, i);
      UnfilledStep(ids, maxJobs, i);
      GatheredStep(candidates, normalize, i, selected);
      i := i + 1;
      if validated.value !in seen {
        seen, selected := seen + {validated.value}, selected + [validated.value];
        if |selected| == maxJobs {
          return Selected(selected), i;
        }
      }
    }
    result := if i < |candidates| then Saturated else Selected(selected);
    n := i;
  }

  /** On a page of distinct valid rows within the scan limit, selection is simply the front of the page. */
  lemma PageFrontIsSelected(page: seq<Candidate>, normalize: Candidate -> Option<Candidate>, maxJobs: nat, n: nat)
    requires Distinct(page) && |page| <= MAX_CANDIDATES && forall i :: 0 <= i < |page| ==>
               normalize(page[i]) == Some(page[i])
    requires 1 <= maxJobs <= MAX_JOBS && StopsAt(Normalized(page, normalize), maxJobs, n)
    ensures Normalized(page, normalize) == page
    ensures Uniques(page[..n]) == page[..if |page| < maxJobs then |page| else maxJobs]
    ensures |Uniques(page[..n])| == maxJobs || n == |page|
  {
    ValidPageIsNormalized(page, normalize);
    DistinctIsItsOwnUniques(page[..n]);
    DistinctIsItsOwnUniques(page[..if n < maxJobs then n else maxJobs]);
  }

  lemma {:induction false} ValidPageIsNormalized(page: seq<Candidate>, normalize: Candidate -> Option<Candidate>)
    requires forall i :: 0 <= i < |page| ==> normalize(page[i]) == Some(page[i])
    ensures Normalized(page, normalize) == page
  {
    if page != [] {
      ValidPageIsNormalized(page[1..], normalize);
      DropCons(page, 0);
    }
  }

  // ----- one pass over the selected candidates -----

  /** How the provider client answers for one candidate; any step may raise instead. */
  datatype Reply = StatusRaises | Running | Finished(downloadRaises: bool, downloadSucceeds: bool)

  datatype Outcome = Polled | Retrieved | Deferred | FailedOutcome

  function OutcomeOf(reply: Reply): Outcome {
    match reply
    case StatusRaises => FailedOutcome
    case Running => Polled
    case Finished(raises, succeeds) => if raises then FailedOutcome else if succeeds then Retrieved else Deferred
  }

  datatype Report = Report(processed: nat, retrieved: nat, failed: nat, outcomes: seq<Outcome>)

  /** The status request raised, or the download of a finished batch did. */
  predicate Raised(reply: Reply) {
    reply.StatusRaises? || (reply.Finished? && reply.downloadRaises)
  }

  /** Which of the first `n` candidates had their results downloaded. */
  function DownloadedAt(selected: seq<Candidate>, client: Candidate -> Reply, n: nat): set<nat>
    requires n <= |selected|
  {
    set j: nat | j < n && client(selected[j]) == Finished(false, true)
  }

  function RaisedAt(selected: seq<Candidate>, client: Candidate -> Reply, n: nat): set<nat>
    requires n <= |selected|
  {
    set j: nat | j < n && Raised(client(selected[j]))
  }

  lemma OneMoreAt(selected: seq<Candidate>, client: Candidate -> Reply, n: nat)
    requires n < |selected|
    ensures |DownloadedAt(selected, client, n + 1)|
            == |DownloadedAt(selected, client, n)| + if client(selected[n]) == Finished(false, true) then 1 else 0
    ensures |RaisedAt(selected, client, n + 1)|
            == |RaisedAt(selected, client, n)| + if Raised(client(selected[n])) then 1 else 0
  {
    assert DownloadedAt(selected, client, n + 1)
        == DownloadedAt(selected, client, n) + if client(selected[n]) == Finished(false, true) then {n} else {};
    assert RaisedAt(selected, client, n + 1)
        == RaisedAt(selected, client, n) + if Raised(client(selected[n])) then {n} else {};
  }

  /** One failing candidate never hides the others: every candidate is attempted once and counted once. */
  method Reconcile(selected: seq<Candidate>, client: Candidate -> Reply) returns (report: Report)
    ensures report.processed == |report.outcomes| == |selected|
    ensures forall i :: 0 <= i < |selected| ==> report.outcomes[i] == OutcomeOf(client(selected[i]))
    ensures forall i :: 0 <= i < |selected| ==>
              && (report.outcomes[i].FailedOutcome? <==> Raised(client(selected[i])))
              && (report.outcomes[i].Polled? <==> client(selected[i]).Running?)
              && (report.outcomes[i].Retrieved? <==> client(selected[i]) == Finished(false, true))
              && (report.outcomes[i].Deferred? <==> client(selected[i]) == Finished(false, false))
    ensures report.retrieved == |DownloadedAt(selected, client, |selected|)|
    ensures report.failed == |RaisedAt(selected, client, |selected|)|
    ensures report.retrieved == multiset(report.outcomes)[Retrieved]
    ensures report.failed == multiset(report.outcomes)[FailedOutcome]
  {
    var outcomes: seq<Outcome>, retrieved, failed := [], 0, 0;
    for i := 0 to |selected|
      invariant |outcomes| == i
      invariant forall j :: 0 <= j < i ==> outcomes[j] == OutcomeOf(client(selected[j]))
      invariant retrieved == multiset(outcomes)[Retrieved]
      invariant failed == multiset(outcomes)[FailedOutcome]
      invariant retrieved == |DownloadedAt(selected, client, i)| && failed == |RaisedAt(selected, client, i)|
    {
      OneMoreAt(selected, client, i);
      var outcome := OutcomeOf(client(selected[i]));
      if outcome == Retrieved {
        retrieved := retrieved + 1;
      } else if outcome == FailedOutcome {
        failed := failed + 1;
      }
      outcomes := outcomes + [outcome];
    }
    report := Report(|outcomes|, retrieved, failed, outcomes);
  }
}
