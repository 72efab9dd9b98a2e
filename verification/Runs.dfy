/** Running a list of steps, and taking such a run apart. */
module Runs {
  import opened Sequences

  function Run<S, T>(next: (S, T) -> S, start: S, steps: seq<T>): S
    decreases |steps|
  {
    if steps == [] then start else next(Run(next, start, steps[..|steps| - 1]), steps[|steps| - 1])
  }

  lemma RunSnoc<S, T>(next: (S, T) -> S, start: S, steps: seq<T>, last: T)
    ensures Run(next, start, steps + [last]) == next(Run(next, start, steps), last)
  {
    SnocInit(steps, last);
  }

  lemma {:induction false} RunAppend<S, T>(next: (S, T) -> S, start: S, a: seq<T>, b: seq<T>)
    ensures Run(next, start, a + b) == Run(next, Run(next, start, a), b)
    decreases |b|
  {
    if b == [] {
      assert a + b == a;
    } else {
      AppendInit(a, b);
      RunAppend(next, start, a, b[..|b| - 1]);
    }
  }

  lemma RunNone<S, T>(next: (S, T) -> S, start: S)
    ensures Run(next, start, []) == start
  {
  }

  lemma RunThree<S, T>(next: (S, T) -> S, start: S, s: seq<T>)
    requires |s| == 3
    ensures Run(next, start, s) == next(next(next(start, s[0]), s[1]), s[2])
  {
    hide Run;
    RunNone(next, start);
    RunSnoc(next, start, [], s[0]);
    RunSnoc(next, start, [s[0]], s[1]);
    RunSnoc(next, start, [s[0], s[1]], s[2]);
    assert [] + [s[0]] == [s[0]] && [s[0]] + [s[1]] == [s[0], s[1]] && [s[0], s[1]] + [s[2]] == s;
  }

  lemma RunFour<S, T>(next: (S, T) -> S, start: S, s: seq<T>)
    requires |s| == 4
    ensures Run(next, start, s) == next(next(next(next(start, s[0]), s[1]), s[2]), s[3])
  {
    hide Run;
    RunThree(next, start, s[..3]);
    RunSnoc(next, start, s[..3], s[3]);
    assert s[..3] + [s[3]] == s;
  }
}
