/**
 Fairness of the oldest-observed-first page. Every pass polls the front of the
 queue and stamps it later than everything stored, so a row moves forward by
 the full batch size until it is polled.
 */
module Rotation {
  import opened Reconciliation

  type Instant = int

  /** The last observation of each durable row. */
  type Rows = map<Candidate, Instant>

  type TieBreak = (Candidate, Candidate) -> bool

  /** The column order that separates equal timestamps is strict and total. */
  ghost predicate StrictTotal(less: TieBreak) {
    && (forall a :: !less(a, a))
    && (forall a, b :: a != b ==> less(a, b) || less(b, a))
    && (forall a, b, c :: less(a, b) && less(b, c) ==> less(a, c))
  }

  predicate Before(rows: Rows, less: TieBreak, a: Candidate, b: Candidate)
    requires a in rows && b in rows
  {
    rows[a] < rows[b] || (rows[a] == rows[b] && less(a, b))
  }

  function Earlier(rows: Rows, less: TieBreak, r: Candidate): set<Candidate>
    requires r in rows
  {
    set q | q in rows && Before(rows, less, q, r)
  }

  /** Position of a row in the oldest-first order, from zero. */
  function Position(rows: Rows, less: TieBreak, r: Candidate): nat
    requires r in rows
  {
    |Earlier(rows, less, r)|
  }

  function Min(a: nat, b: nat): nat {
    if a <= b then a else b
  }

  /** `ORDER BY last_observed_at, alias, id LIMIT size`. */
  predicate IsPage(rows: Rows, less: TieBreak, size: nat, page: seq<Candidate>) {
    && (forall i :: 0 <= i < |page| ==> page[i] in rows)
    && (forall i, j :: 0 <= i < j < |page| ==> page[i] != page[j] && Before(rows, less, page[i], page[j]))
    && (forall i, q :: 0 <= i < |page| && q in rows && q !in page ==> Before(rows, less, page[i], q))
    && |page| == Min(size, |rows|)
  }

  /**
   One pass: the first `jobs` rows of a page of `size` are polled and their
   observations accepted, later than anything stored; rows may also be added.
   */
  predicate Pass(rows: Rows, less: TieBreak, size: nat, jobs: nat, page: seq<Candidate>, rows': Rows) {
    && IsPage(rows, less, size, page)
    && var polled := page[..Min(jobs, |page|)];
    && (forall r :: r in rows ==> r in rows')
    && (forall r :: r in rows && r !in polled ==> rows'[r] == rows[r])
    && (forall r, q :: r in rows' && (r in polled || r !in rows) && q in rows ==> rows'[r] > rows[q])
  }

  function Polled(page: seq<Candidate>, jobs: nat): set<Candidate> {
    set c | c in page[..Min(jobs, |page|)]
  }

  lemma {:induction false} DistinctCount(xs: seq<Candidate>)
    requires forall i, j :: 0 <= i < j < |xs| ==> xs[i] != xs[j]
    ensures |set c | c in xs| == |xs|
  {
    if xs != [] {
      var k := |xs| - 1;
      DistinctCount(xs[..k]);
      assert (set c | c in xs) == (set c | c in xs[..k]) + {xs[k]};
    }
  }

  lemma SubsetCount(a: set<Candidate>, b: set<Candidate>)
    requires a <= b
    ensures |a| <= |b|
    ensures |b - a| == |b| - |a|
  {
    assert b == a + (b - a);
  }

  lemma SubsetOfEqualSize(a: set<Candidate>, b: set<Candidate>)
    requires a <= b && |a| == |b|
    ensures a == b
  {
    SubsetCount(a, b);
  }

  lemma PolledCount(rows: Rows, less: TieBreak, size: nat, jobs: nat, page: seq<Candidate>)
    requires IsPage(rows, less, size, page)
    ensures |Polled(page, jobs)| == Min(Min(size, jobs), |rows|)
    ensures Polled(page, jobs) <= rows.Keys
  {
    DistinctCount(page[..Min(jobs, |page|)]);
  }

  /** A row not polled has every polled row before it. */
  lemma PolledComeFirst(rows: Rows, less: TieBreak, size: nat, jobs: nat, page: seq<Candidate>, r: Candidate)
    requires IsPage(rows, less, size, page) && r in rows && r !in Polled(page, jobs)
    ensures Polled(page, jobs) <= Earlier(rows, less, r)
  {
    forall q | q in Polled(page, jobs)
      ensures q in Earlier(rows, less, r)
    {
      var k := Min(jobs, |page|);
      assert forall i :: 0 <= i < k ==> page[..k][i] == page[i];
      var i :| 0 <= i < k && page[..k][i] == q;
      if r in page {
        var j :| 0 <= j < |page| && page[j] == r;
        assert j >= k;
      }
    }
  }

  /** Whatever precedes a page entry stands before it on the page. */
  lemma EarlierThanPageEntry(rows: Rows, less: TieBreak, size: nat, page: seq<Candidate>, i: nat)
    requires StrictTotal(less) && IsPage(rows, less, size, page) && i < |page|
    ensures Earlier(rows, less, page[i]) <= set c | c in page[..i]
  {
    forall q | q in rows && q !in page
      ensures !Before(rows, less, q, page[i])
    {
      assert Before(rows, less, page[i], q);
    }
    forall q | q in Earlier(rows, less, page[i])
      ensures q in page[..i]
    {
      var j :| 0 <= j < |page| && page[j] == q;
      assert j < i;
      assert page[..i][j] == q;
    }
  }

  /** Exactly the rows in the first `min(size, jobs)` positions are polled. */
  lemma PolledIffInFront(rows: Rows, less: TieBreak, size: nat, jobs: nat, page: seq<Candidate>, r: Candidate)
    requires StrictTotal(less) && IsPage(rows, less, size, page) && r in rows
    ensures r in Polled(page, jobs) <==> Position(rows, less, r) < Min(size, jobs)
  {
    var polled, k := Polled(page, jobs), Min(jobs, |page|);
    PolledCount(rows, less, size, jobs, page);
    if r in polled {
      var i :| 0 <= i < k && page[..k][i] == r;
      EarlierThanPageEntry(rows, less, size, page, i);
      DistinctCount(page[..i]);
      SubsetCount(Earlier(rows, less, r), set c | c in page[..i]);
    } else {
      PolledComeFirst(rows, less, size, jobs, page, r);
      SubsetCount(polled, Earlier(rows, less, r));
      if |polled| == |rows| {
        SubsetOfEqualSize(polled, rows.Keys);
      }
    }
  }

  /** A row that is not polled moves forward by exactly the number polled. */
  lemma UnpolledMovesForward(rows: Rows, less: TieBreak, size: nat, jobs: nat, page: seq<Candidate>, rows': Rows,
                             r: Candidate)
    requires StrictTotal(less) && Pass(rows, less, size, jobs, page, rows') && r in rows
    requires Position(rows, less, r) >= Min(size, jobs)
    ensures r in rows' && Position(rows', less, r) == Position(rows, less, r) - Min(size, jobs)
  {
    var polled := Polled(page, jobs);
    PolledIffInFront(rows, less, size, jobs, page, r);
    PolledComeFirst(rows, less, size, jobs, page, r);
    PolledCount(rows, less, size, jobs, page);
    assert Earlier(rows', less, r) == Earlier(rows, less, r) - polled;
    SubsetCount(polled, Earlier(rows, less, r));
    if |polled| == |rows| {
      SubsetOfEqualSize(polled, rows.Keys);
    }
  }

  /** A run of passes: `pages[i]` takes `states[i]` to `states[i + 1]`. */
  ghost predicate Run(states: seq<Rows>, pages: seq<seq<Candidate>>, less: TieBreak, size: nat, jobs: nat) {
    |states| == |pages| + 1 && forall i :: 0 <= i < |pages| ==>
    Pass(states[i], less, size, jobs, pages[i], states[i + 1])
  }

  lemma {:induction false} PositionAfter(states: seq<Rows>, pages: seq<seq<Candidate>>, less: TieBreak, size: nat,
                                         jobs: nat, r: Candidate, i: nat)
    requires StrictTotal(less) && Run(states, pages, less, size, jobs) && r in states[0]
    requires i <= |pages| && i * Min(size, jobs) <= Position(states[0], less, r)
    ensures r in states[i] && Position(states[i], less, r) == Position(states[0], less, r) - i * Min(size, jobs)
  {
    if i > 0 {
      var m := Min(size, jobs);
      assert i * m == (i - 1) * m + m;
      PositionAfter(states, pages, less, size, jobs, r, i - 1);
      UnpolledMovesForward(states[i - 1], less, size, jobs, pages[i - 1], states[i], r);
    }
  }

  /**
   A row at position `p` is polled for the first time in pass number
   `p / m + 1`, where `m` is the smaller of page size and job budget.
   */
  lemma FirstPollIsExact(states: seq<Rows>, pages: seq<seq<Candidate>>, less: TieBreak, size: nat, jobs: nat,
                         r: Candidate, i: nat)
    requires StrictTotal(less) && Run(states, pages, less, size, jobs) && r in states[0]
    requires Min(size, jobs) > 0 && i < |pages| && i <= Position(states[0], less, r) / Min(size, jobs)
    ensures r in Polled(pages[i], jobs) <==> i == Position(states[0], less, r) / Min(size, jobs)
  {
    var p, m := Position(states[0], less, r), Min(size, jobs);
    QuotientBounds(p, m, i);
    assert Pass(states[i], less, size, jobs, pages[i], states[i + 1]);
    PositionAfter(states, pages, less, size, jobs, r, i);
    PolledIffInFront(states[i], less, size, jobs, pages[i], r);
  }

  lemma QuotientBounds(p: nat, m: nat, i: nat)
    requires m > 0 && i <= p / m
    ensures i * m <= p
    ensures p - i * m < m <==> i == p / m
  {
    DivideBack(p, m);
    Factor(p / m, i, m);
    AtLeastOnce(p / m - i, m);
  }

  lemma DivideBack(p: nat, m: nat)
    requires m > 0
    ensures p == (p / m) * m + p % m && p % m < m
  {
  }

  lemma Factor(q: nat, i: nat, m: nat)
    requires i <= q
    ensures q * m - i * m == (q - i) * m
  {
  }

  lemma AtLeastOnce(k: nat, m: nat)
    ensures k > 0 ==> k * m >= m
    ensures k == 0 ==> k * m == 0
  {
  }
}
