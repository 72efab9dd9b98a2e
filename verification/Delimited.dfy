/** Cutting a sequence at a separator, and putting it back together. */
module Delimited {
  import opened Sequences

  /** Position of the first separator, or the length when there is none. */
  function Find<T(==)>(s: seq<T>, sep: T): (k: nat)
    ensures k <= |s|
    ensures forall i :: 0 <= i < k ==> s[i] != sep
    ensures k < |s| ==> s[k] == sep
  {
    if s == [] || s[0] == sep then 0 else 1 + Find(s[1..], sep)
  }

  /** The pieces between separators; the last piece is whatever follows the last separator. */
  function Split<T(==)>(s: seq<T>, sep: T): (pieces: seq<seq<T>>)
    ensures |pieces| > 0
    decreases |s|
  {
    var k := Find(s, sep);
    if k == |s| then [s] else [s[..k]] + Split(s[k + 1..], sep)
  }

  /** Every line followed by its terminator. */
  function Terminated<T>(lines: seq<seq<T>>, sep: T): seq<T> {
    if lines == [] then [] else lines[0] + [sep] + Terminated(lines[1..], sep)
  }

  ghost predicate Clean<T>(lines: seq<seq<T>>, sep: T) {
    forall i :: 0 <= i < |lines| ==> sep !in lines[i]
  }

  lemma SplitStep<T>(s: seq<T>, sep: T)
    requires Find(s, sep) < |s|
    ensures Split(s, sep) == [s[..Find(s, sep)]] + Split(s[Find(s, sep) + 1..], sep)
  {
  }

  lemma SplitFirst<T>(line: seq<T>, sep: T, rest: seq<T>)
    requires sep !in line
    ensures Split(line + [sep] + rest, sep) == [line] + Split(rest, sep)
  {
    var s := line + [sep] + rest;
    var k := Find(s, sep);
    assert s[|line|] == sep;
    assert forall i :: 0 <= i < |line| ==> s[i] == line[i];
    assert k == |line|;
    assert s[..k] == line && s[k + 1..] == rest;
  }

  lemma TerminatedCons<T>(lines: seq<seq<T>>, sep: T, rest: seq<T>)
    requires lines != []
    ensures Terminated(lines, sep) + rest == lines[0] + [sep] + (Terminated(lines[1..], sep) + rest)
  {
  }

  /** Complete lines in front of a remainder are exactly the first pieces. */
  lemma {:induction false} SplitAfterLines<T>(lines: seq<seq<T>>, sep: T, rest: seq<T>)
    requires Clean(lines, sep)
    ensures Split(Terminated(lines, sep) + rest, sep) == lines + Split(rest, sep)
  {
    if lines == [] {
      assert Terminated(lines, sep) + rest == rest;
    } else {
      TerminatedCons(lines, sep, rest);
      SplitFirst(lines[0], sep, Terminated(lines[1..], sep) + rest);
      SplitAfterLines(lines[1..], sep, rest);
      ConsAppend(lines, Split(rest, sep));
    }
  }

  lemma {:induction false} TerminatedAppend<T>(a: seq<seq<T>>, b: seq<seq<T>>, sep: T)
    ensures Terminated(a + b, sep) == Terminated(a, sep) + Terminated(b, sep)
  {
    if a == [] {
      assert a + b == b;
    } else {
      assert (a + b)[1..] == a[1..] + b;
      TerminatedAppend(a[1..], b, sep);
    }
  }

  /** What complete lines and a remainder are put back together into. */
  function Rejoined<T>(p: seq<seq<T>>, sep: T): seq<T>
    requires |p| > 0
  {
    Terminated(p[..|p| - 1], sep) + p[|p| - 1]
  }

  lemma RejoinedCons<T>(line: seq<T>, q: seq<seq<T>>, sep: T)
    requires |q| > 0
    ensures Rejoined([line] + q, sep) == line + [sep] + Rejoined(q, sep)
  {
    var p := [line] + q;
    assert p[..|p| - 1] == [line] + q[..|q| - 1];
    assert p[..|p| - 1][1..] == q[..|q| - 1];
  }

  lemma {:induction false} SplitClean<T>(s: seq<T>, sep: T)
    ensures Clean(Split(s, sep), sep)
    decreases |s|
  {
    var k := Find(s, sep);
    if k < |s| {
      SplitClean(s[k + 1..], sep);
    }
  }

  /** Splitting loses nothing. */
  lemma {:induction false} SplitRestores<T>(s: seq<T>, sep: T)
    ensures Rejoined(Split(s, sep), sep) == s
    decreases |s|
  {
    var k := Find(s, sep);
    if k < |s| {
      SplitRestores(s[k + 1..], sep);
      RejoinedCons(s[..k], Split(s[k + 1..], sep), sep);
      assert s == s[..k] + [sep] + s[k + 1..];
    } else {
      assert Rejoined([s], sep) == s;
    }
  }
}
