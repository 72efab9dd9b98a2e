/**
 Packing queued requests into JSONL parts: greedy, order-preserving, split by
 model, and bounded by tokens, bytes and records.
 */
module Assembly {
  import opened Delimited
  import PayloadDocument
  import opened Sequences

  /** A queued row with its token count and its JSON line already computed. */
  datatype Queued = Queued(id: string, model: string, line: string, tokens: nat)

  datatype PackLimits = PackLimits(tokens: nat, records: nat, bytes: nat)

  /** Length of the UTF-8 encoding. */
  function Utf8Length(s: string): nat {
    if s == [] then 0 else Utf8Length(s[..|s| - 1]) + CharBytes(s[|s| - 1])
  }

  function CharBytes(c: char): nat {
    var code := c as int;
    if code < 0x80 then 1 else if code < 0x800 then 2 else if code < 0x10000 then 3 else 4
  }

  /** A line with its newline. */
  function LineBytes(q: Queued): nat {
    Utf8Length(q.line) + 1
  }

  function Tokens(qs: seq<Queued>): nat {
    if qs == [] then 0 else Tokens(qs[..|qs| - 1]) + qs[|qs| - 1].tokens
  }

  function ByteCount(qs: seq<Queued>): nat {
    if qs == [] then 0 else ByteCount(qs[..|qs| - 1]) + LineBytes(qs[|qs| - 1])
  }

  predicate Fits(lim: PackLimits, qs: seq<Queued>) {
    |qs| <= lim.records && Tokens(qs) <= lim.tokens && ByteCount(qs) <= lim.bytes
  }

  predicate OneModel(qs: seq<Queued>) {
    forall i :: 0 <= i < |qs| ==> qs[i].model == qs[0].model
  }

  /** What a part of the batch may be. */
  predicate Part(lim: PackLimits, qs: seq<Queued>) {
    qs != [] && OneModel(qs) && Fits(lim, qs)
  }

  function Flatten(parts: seq<seq<Queued>>): seq<Queued> {
    if parts == [] then [] else parts[0] + Flatten(parts[1..])
  }

  /** A way to cut the rows into consecutive parts. */
  predicate Cutting(lim: PackLimits, rows: seq<Queued>, parts: seq<seq<Queued>>) {
    Flatten(parts) == rows && forall i :: 0 <= i < |parts| ==> Part(lim, parts[i])
  }

  // ----- sums -----

  lemma {:induction false} SumsAppend(a: seq<Queued>, b: seq<Queued>)
    ensures Tokens(a + b) == Tokens(a) + Tokens(b)
    ensures ByteCount(a + b) == ByteCount(a) + ByteCount(b)
  {
    if b == [] {
      assert a + b == a;
    } else {
      AppendInit(a, b);
      SumsAppend(a, b[..|b| - 1]);
    }
  }

  /** Any non-empty stretch of a part is a part. */
  lemma StretchOfPart(lim: PackLimits, qs: seq<Queued>, i: nat, j: nat)
    requires Part(lim, qs) && i < j <= |qs|
    ensures Part(lim, qs[i..j])
  {
    assert qs == qs[..i] + (qs[i..j] + qs[j..]);
    SumsAppend(qs[..i], qs[i..j] + qs[j..]);
    SumsAppend(qs[i..j], qs[j..]);
    assert forall k :: 0 <= k < j - i ==> qs[i..j][k] == qs[i + k];
  }

  // ----- the greedy cut -----

  predicate Extends(lim: PackLimits, rows: seq<Queued>, n: nat)
    requires 0 < n < |rows|
  {
    rows[n].model == rows[0].model && Fits(lim, rows[..n + 1])
  }

  function Extend(lim: PackLimits, rows: seq<Queued>, n: nat): (m: nat)
    requires 0 < n <= |rows|
    ensures n <= m <= |rows|
    ensures m < |rows| ==> !Extends(lim, rows, m)
    decreases |rows| - n
  {
    if n < |rows| && Extends(lim, rows, n) then Extend(lim, rows, n + 1) else n
  }

  /** The parts the greedy loop produces. */
  function Greedy(lim: PackLimits, rows: seq<Queued>): (parts: seq<seq<Queued>>)
    decreases |rows|
  {
    if rows == [] then []
    else
      var n := Extend(lim, rows, 1);
      [rows[..n]] + Greedy(lim, rows[n..])
  }

  /** A row that no part can hold. */
  predicate Oversized(lim: PackLimits, q: Queued) {
    q.tokens > lim.tokens || LineBytes(q) > lim.bytes
  }

  lemma SingleRowPart(lim: PackLimits, q: Queued)
    requires lim.records > 0
    ensures Part(lim, [q]) <==> !Oversized(lim, q)
  {
    assert [q][..0] == [];
    assert Tokens([q]) == q.tokens && ByteCount([q]) == LineBytes(q);
  }

  lemma ExtendedPart(lim: PackLimits, rows: seq<Queued>, n: nat)
    requires 0 < n < |rows| && Part(lim, rows[..n])
    ensures Part(lim, rows[..n + 1]) <==> Extends(lim, rows, n)
  {
    TakeSnoc(rows, n);
  }

  /** Greedy stops at the longest prefix that is a part. */
  lemma {:induction false} ExtendIsPart(lim: PackLimits, rows: seq<Queued>, n: nat)
    requires 0 < n <= |rows| && Part(lim, rows[..n])
    ensures Part(lim, rows[..Extend(lim, rows, n)])
    decreases |rows| - n
  {
    if n < |rows| && Extends(lim, rows, n) {
      ExtendedPart(lim, rows, n);
      ExtendIsPart(lim, rows, n + 1);
    }
  }

  lemma {:induction false} ExtendIsLongest(lim: PackLimits, rows: seq<Queued>, n: nat, m: nat)
    requires 0 < n <= m <= |rows| && Part(lim, rows[..m])
    ensures m <= Extend(lim, rows, n)
    decreases m - n
  {
    if n < m {
      StretchOfPart(lim, rows[..m], 0, n);
      StretchOfPart(lim, rows[..m], 0, n + 1);
      assert rows[..m][0..n] == rows[..n] && rows[..m][0..n + 1] == rows[..n + 1];
      ExtendedPart(lim, rows, n);
      ExtendIsLongest(lim, rows, n + 1, m);
    }
  }

  lemma FirstPart(lim: PackLimits, rows: seq<Queued>)
    requires rows != [] && lim.records > 0 && !Oversized(lim, rows[0])
    ensures Part(lim, rows[..Extend(lim, rows, 1)])
  {
    SingleRowPart(lim, rows[0]);
    assert rows[..1] == [rows[0]];
    ExtendIsPart(lim, rows, 1);
  }

  /** Greedy cuts the rows, in order and without loss, into legal parts. */
  lemma {:induction false} GreedyIsCutting(lim: PackLimits, rows: seq<Queued>)
    requires lim.records > 0 && forall i :: 0 <= i < |rows| ==> !Oversized(lim, rows[i])
    ensures Cutting(lim, rows, Greedy(lim, rows))
    decreases |rows|
  {
    if rows != [] {
      var n := Extend(lim, rows, 1);
      FirstPart(lim, rows);
      GreedyIsCutting(lim, rows[n..]);
      ConsCutting(lim, rows[..n], rows[n..], Greedy(lim, rows[n..]));
      assert rows[..n] + rows[n..] == rows;
    }
  }

  /** No part could have taken the row that follows it. */
  lemma {:induction false} PartsAreFull(lim: PackLimits, rows: seq<Queued>, i: nat)
    requires lim.records > 0 && forall k :: 0 <= k < |rows| ==> !Oversized(lim, rows[k])
    requires 0 < i < |Greedy(lim, rows)|
    ensures var parts := Greedy(lim, rows); parts[i] != [] && !Part(lim, parts[i - 1] + [parts[i][0]])
    decreases |rows|
  {
    hide Part, Extends, Oversized;
    var n := Extend(lim, rows, 1);
    FirstPart(lim, rows);
    if i == 1 {
      assert rows[..n] + [rows[n]] == rows[..n + 1];
      ExtendedPart(lim, rows, n);
    } else {
      PartsAreFull(lim, rows[n..], i - 1);
    }
  }

  lemma ConsCutting(lim: PackLimits, first: seq<Queued>, rest: seq<Queued>, parts: seq<seq<Queued>>)
    requires Part(lim, first) && Cutting(lim, rest, parts)
    ensures Cutting(lim, first + rest, [first] + parts)
  {
    assert ([first] + parts)[1..] == parts;
  }

  /** Greedy stays ahead: starting no earlier than another cutting, it needs no more parts. */
  lemma {:induction false} GreedyStaysAhead(lim: PackLimits, rows: seq<Queued>, i: nat, parts: seq<seq<Queued>>)
    requires i <= |rows| && Cutting(lim, rows, parts)
    ensures |Greedy(lim, rows[i..])| <= |parts|
    decreases |parts|
  {
    hide Greedy, Extend, Cutting, Part;
    GreedyStep(lim, rows[i..]);
    if i < |rows| {
      FirstOfCutting(lim, rows, parts);
      var p, later, tail := |parts[0]|, parts[1..], rows[i..];
      var rest := rows[p..];
      if i >= p {
        GreedyStaysAhead(lim, rest, i - p, later);
        assert rest[i - p..] == tail;
      } else {
        var n := Extend(lim, tail, 1);
        PartStretches(lim, rows, i, p);
        GreedyStaysAhead(lim, rest, i + n - p, later);
        assert rest[i + n - p..] == tail[n..];
      }
    }
  }

  lemma GreedyStep(lim: PackLimits, rows: seq<Queued>)
    ensures |Greedy(lim, rows)| == if rows == [] then 0 else 1 + |Greedy(lim, rows[Extend(lim, rows, 1)..])|
  {
  }

  /** The first part of a cutting, and the cutting of the rest. */
  lemma FirstOfCutting(lim: PackLimits, rows: seq<Queued>, parts: seq<seq<Queued>>)
    requires Cutting(lim, rows, parts) && rows != []
    ensures parts != [] && 0 < |parts[0]| <= |rows| && rows[..|parts[0]|] == parts[0] && Part(lim, parts[0])
    ensures Cutting(lim, rows[|parts[0]|..], parts[1..])
  {
    hide Part, Greedy;
    assert rows == parts[0] + Flatten(parts[1..]);
    PartIsNonEmpty(lim, parts[0]);
  }

  lemma PartIsNonEmpty(lim: PackLimits, qs: seq<Queued>)
    requires Part(lim, qs)
    ensures qs != []
  {
  }

  /** Greedy, starting inside another cutting's part, reaches at least to the end of that part. */
  lemma PartStretches(lim: PackLimits, rows: seq<Queued>, i: nat, p: nat)
    requires i < p <= |rows| && Part(lim, rows[..p])
    ensures i + Extend(lim, rows[i..], 1) >= p
  {
    hide Part, Extend;
    var tail := rows[i..];
    StretchOfPart(lim, rows[..p], i, p);
    assert rows[..p][i..p] == tail[..p - i];
    ExtendIsLongest(lim, tail, 1, p - i);
  }

  /** The number of parts is the minimum over all ways to cut the rows. */
  lemma GreedyIsMinimal(lim: PackLimits, rows: seq<Queued>, parts: seq<seq<Queued>>)
    requires Cutting(lim, rows, parts)
    ensures |Greedy(lim, rows)| <= |parts|
  {
    assert rows[0..] == rows;
    GreedyStaysAhead(lim, rows, 0, parts);
  }

  lemma {:induction false} CuttingHoldsEveryRow(lim: PackLimits, rows: seq<Queued>, parts: seq<seq<Queued>>, k: nat)
    requires lim.records > 0 && Cutting(lim, rows, parts) && k < |rows|
    ensures !Oversized(lim, rows[k])
    decreases |parts|
  {
    var p := |parts[0]|;
    if k < p {
      StretchOfPart(lim, parts[0], k, k + 1);
      assert parts[0][k..k + 1] == [rows[k]];
      SingleRowPart(lim, rows[k]);
    } else {
      assert rows[p..] == Flatten(parts[1..]);
      CuttingHoldsEveryRow(lim, rows[p..], parts[1..], k - p);
    }
  }

  /** Rows can be cut at all exactly when no single row is oversized. */
  lemma CuttableIffNoOversizedRow(lim: PackLimits, rows: seq<Queued>)
    requires lim.records > 0
    ensures (exists parts :: Cutting(lim, rows, parts)) <==> forall i :: 0 <= i < |rows| ==> !Oversized(lim, rows[i])
  {
    if forall i :: 0 <= i < |rows| ==> !Oversized(lim, rows[i]) {
      GreedyIsCutting(lim, rows);
    }
    if parts :| Cutting(lim, rows, parts) {
      forall i | 0 <= i < |rows|
        ensures !Oversized(lim, rows[i])
      {
        CuttingHoldsEveryRow(lim, rows, parts, i);
      }
    }
  }

  // ----- the accumulator and the assembly loop -----

  datatype Payload = Payload(
    partIndex: nat, recordCount: nat, totalTokens: nat,
    requestIds: seq<string>, lines: seq<string>, byteSize: nat)

  function PayloadOf(index: nat, qs: seq<Queued>): Payload {
    Payload(index, |qs|, Tokens(qs),
            seq(|qs|, i requires 0 <= i < |qs| => qs[i].id), seq(|qs|, i requires 0 <= i < |qs| => qs[i].line),
            ByteCount(qs))
  }

  function Payloads(parts: seq<seq<Queued>>): (ps: seq<Payload>)
    ensures |ps| == |parts|
  {
    seq(|parts|, i requires 0 <= i < |parts| => PayloadOf(i, parts[i]))
  }

  /** The payload is that of the rows from `start` on: each id with its own line, their number, tokens and bytes. */
  predicate Carries(p: Payload, rows: seq<Queued>, start: nat) {
    && |p.requestIds| == |p.lines| == p.recordCount
    && start + p.recordCount <= |rows|
    && (forall j :: 0 <= j < p.recordCount ==>
          p.requestIds[j] == rows[start + j].id && p.lines[j] == rows[start + j].line)
    && p.totalTokens == Tokens(rows[start..start + p.recordCount])
    && p.byteSize == ByteCount(rows[start..start + p.recordCount])
  }

  lemma PayloadCarries(index: nat, qs: seq<Queued>)
    ensures Carries(PayloadOf(index, qs), qs, 0)
  {
    assert qs[0..|qs|] == qs;
  }

  datatype AddResult = Added | TokenLimitExceeded(id: string) | RecordTooLarge(id: string)

  /** Which error, if any, a single row provokes. */
  function Admission(lim: PackLimits, q: Queued): AddResult {
    if q.tokens > lim.tokens then TokenLimitExceeded(q.id)
    else if LineBytes(q) > lim.bytes then RecordTooLarge(q.id)
    else Added
  }

  class BatchAccumulator {
    const lim: PackLimits
    var entries: seq<Queued>
    var totalTokens: nat
    var recordCount: nat
    var byteSize: nat

    ghost predicate Valid()
      reads this
    {
      recordCount == |entries| && totalTokens == Tokens(entries) && byteSize == ByteCount(entries)
    }

    constructor (lim: PackLimits)
      ensures Valid() && entries == [] && this.lim == lim
    {
      this.lim := lim;
      entries, totalTokens, recordCount, byteSize := [], 0, 0, 0;
    }

    method Reset()
      modifies this
      ensures Valid() && entries == []
    {
      entries, totalTokens, recordCount, byteSize := [], 0, 0, 0;
    }

    /** An empty accumulator never refuses; otherwise the three limits decide. */
    method WouldExceed(q: Queued) returns (exceeds: bool)
      requires Valid()
      ensures exceeds <==> entries != [] && !Fits(lim, entries + [q])
    {
      SumsAppend(entries, [q]);
      assert [q][..0] == [] && Tokens([q]) == q.tokens && ByteCount([q]) == LineBytes(q);
      if recordCount == 0 {
        return false;
      }
      exceeds := totalTokens + q.tokens > lim.tokens || byteSize + LineBytes(q) > lim.bytes
          || recordCount + 1 > lim.records;
    }

    method AddEntry(q: Queued) returns (result: AddResult)
      requires Valid()
      modifies this
      ensures Valid() && result == Admission(lim, q)
      ensures result == TokenLimitExceeded(q.id) <==> q.tokens > lim.tokens
      ensures result == RecordTooLarge(q.id) <==> q.tokens <= lim.tokens && Utf8Length(q.line) + 1 > lim.bytes
      ensures result == Added || result == TokenLimitExceeded(q.id) || result == RecordTooLarge(q.id)
      ensures entries == if result.Added? then old(entries) + [q] else old(entries)
    {
      result := Admission(lim, q);
      if result.Added? {
        SnocInit(entries, q);
        entries := entries + [q];
        totalTokens, recordCount, byteSize := totalTokens + q.tokens, recordCount + 1, byteSize + LineBytes(q);
      }
    }

    method Drain(partIndex: nat) returns (payload: Payload)
      requires Valid() && entries != []
      modifies this
      ensures Valid() && entries == [] && payload == PayloadOf(partIndex, old(entries))
      ensures Carries(payload, old(entries), 0) && payload.recordCount == |old(entries)|
    {
      var es := entries;
      PayloadCarries(partIndex, es);
      payload := Payload(partIndex, recordCount, totalTokens,
                         seq(|es|, i requires 0 <= i < |es| => es[i].id),
                         seq(|es|, i requires 0 <= i < |es| => es[i].line), byteSize);
      Reset();
    }
  }

  /** The loop's cut so far: finished parts, and the rows since in the accumulator. */
  ghost predicate CutSoFar(lim: PackLimits, rows: seq<Queued>, parts: seq<seq<Queued>>, start: nat, i: nat) {
    && start <= i <= |rows| && (0 < i ==> start < i)
    && CutAt(lim, rows, parts, start)
    && (start < i ==> Part(lim, rows[start..i]))
  }

  /** The finished parts are Greedy's, and the rest is cut from `i` on. */
  predicate CutAt(lim: PackLimits, rows: seq<Queued>, parts: seq<seq<Queued>>, i: nat) {
    i <= |rows| && Greedy(lim, rows) == parts + Greedy(lim, rows[i..])
  }

  lemma {:induction false} ExtendPasses(lim: PackLimits, rows: seq<Queued>, n: nat, m: nat)
    requires 0 < n <= m <= |rows| && Part(lim, rows[..m])
    requires m < |rows| ==> !Extends(lim, rows, m)
    ensures Extend(lim, rows, n) == m
    decreases m - n
  {
    hide Part;
    if n < m {
      StretchOfPart(lim, rows[..m], 0, n);
      StretchOfPart(lim, rows[..m], 0, n + 1);
      assert rows[..m][0..n] == rows[..n] && rows[..m][0..n + 1] == rows[..n + 1];
      ExtendedPart(lim, rows, n);
      ExtendPasses(lim, rows, n + 1, m);
    }
  }

  /** When the accumulated rows cannot take the next one, they are Greedy's next part. */
  lemma PartEnds(lim: PackLimits, rows: seq<Queued>, parts: seq<seq<Queued>>, start: nat, i: nat)
    requires CutSoFar(lim, rows, parts, start, i) && start < i
    requires i < |rows| ==> !(rows[i].model == rows[start].model && Fits(lim, rows[start..i] + [rows[i]]))
    ensures CutAt(lim, rows, parts + [rows[start..i]], i)
  {
    hide Part, Fits, Extend;
    var tail := rows[start..];
    assert tail[..i - start] == rows[start..i] && tail[i - start..] == rows[i..];
    if i < |rows| {
      assert tail[..i - start + 1] == rows[start..i] + [rows[i]];
    }
    ExtendPasses(lim, tail, 1, i - start);
    Associative(parts, [rows[start..i]], Greedy(lim, rows[i..]));
  }

  lemma PayloadsSnoc(parts: seq<seq<Queued>>, qs: seq<Queued>)
    ensures Payloads(parts + [qs]) == Payloads(parts) + [PayloadOf(|parts|, qs)]
  {
  }

  datatype Assembled = Parts(payloads: seq<Payload>) | Failed(error: AddResult)

  /** Assembly reports the first row that alone breaks a limit, and otherwise the greedy parts. */
  function AssemblyResult(lim: PackLimits, rows: seq<Queued>): Assembled {
    var bad := FirstOversized(lim, rows);
    if bad < |rows| then Failed(Admission(lim, rows[bad])) else Parts(Payloads(Greedy(lim, rows)))
  }

  function FirstOversized(lim: PackLimits, rows: seq<Queued>): (n: nat)
    ensures n <= |rows|
    ensures n < |rows| ==> Oversized(lim, rows[n])
    ensures forall i :: 0 <= i < n ==> !Oversized(lim, rows[i])
  {
    if rows == [] || Oversized(lim, rows[0]) then 0 else 1 + FirstOversized(lim, rows[1..])
  }

  lemma FirstOversizedIs(lim: PackLimits, rows: seq<Queued>, n: nat)
    requires n <= |rows| && (n < |rows| ==> Oversized(lim, rows[n]))
    requires NoneOversized(lim, rows, n)
    ensures FirstOversized(lim, rows) == n
  {
  }

  predicate NoneOversized(lim: PackLimits, rows: seq<Queued>, n: nat)
    requires n <= |rows|
  {
    forall i :: 0 <= i < n ==> !Oversized(lim, rows[i])
  }

  lemma OneMoreFits(lim: PackLimits, rows: seq<Queued>, n: nat)
    requires n < |rows| && NoneOversized(lim, rows, n) && !Oversized(lim, rows[n])
    ensures NoneOversized(lim, rows, n + 1)
  {
  }

  /** Turns the accumulated rows into the next payload. */
  method Flush(lim: PackLimits, ghost rows: seq<Queued>, ghost parts: seq<seq<Queued>>, ghost start: nat, ghost i: nat,
               acc: BatchAccumulator, payloads: seq<Payload>)
    returns (payloads': seq<Payload>, ghost parts': seq<seq<Queued>>)
    requires acc.Valid() && start < i <= |rows| && CutSoFar(lim, rows, parts, start, i) && acc.entries == rows[start..i]
    requires payloads == Payloads(parts)
    requires i < |rows| ==> !(rows[i].model == rows[start].model && Fits(lim, rows[start..i] + [rows[i]]))
    modifies acc
    ensures acc.Valid() && acc.entries == []
    ensures payloads' == Payloads(parts')
    ensures CutAt(lim, rows, parts', i)
  {
    hide Fits, Greedy, CutSoFar, CutAt, Payloads;
    PartEnds(lim, rows, parts, start, i);
    PayloadsSnoc(parts, rows[start..i]);
    var payload := acc.Drain(|payloads|);
    payloads' := payloads + [payload];
    parts' := parts + [rows[start..i]];
  }

  method AssemblePayloads(lim: PackLimits, rows: seq<Queued>) returns (result: Assembled)
    requires lim.records > 0 && lim.bytes > 0
    ensures result == AssemblyResult(lim, rows)
    ensures result.Parts? ==> CarriesAll(result.payloads, rows)
  {
    hide AssemblyResult, CarriesAll, Carries, Utf8Length, Tokens, ByteCount, PayloadOf, OneModel, Flatten, Greedy,
         Payloads, Fits, Part, Admission, CutSoFar, CutAt, Oversized, FirstOversized, NoneOversized;
    var acc := new BatchAccumulator(lim);
    var payloads: seq<Payload> := [];
    ghost var parts: seq<seq<Queued>>, start := [], 0;
    NothingCut(lim, rows);
    for i := 0 to |rows|
      invariant start <= i && CutSoFar(lim, rows, parts, start, i)
      invariant payloads == Payloads(parts)
      invariant acc.Valid() && acc.lim == lim && acc.entries == rows[start..i]
      invariant NoneOversized(lim, rows, i)
      invariant fresh(acc)
    {
      var q := rows[i];
      CutWhereItStarts(lim, rows, parts, i);
      if acc.entries != [] && acc.entries[0].model != q.model {
        payloads, parts := Flush(lim, rows, parts, start, i, acc, payloads);
        start := i;
      }
      var exceeds := acc.WouldExceed(q);
      if exceeds {
        payloads, parts := Flush(lim, rows, parts, start, i, acc, payloads);
        start := i;
      }
      var added := acc.AddEntry(q);
      AdmissionMeans(lim, q);
      if !added.Added? {
        FailsAt(lim, rows, i);
        return Failed(added);
      }
      RowJoins(lim, rows, parts, start, i);
      OneMoreFits(lim, rows, i);
    }
    CutWhereItStarts(lim, rows, parts, |rows|);
    if acc.recordCount > 0 {
      payloads, parts := Flush(lim, rows, parts, start, |rows|, acc, payloads);
      start := |rows|;
    }
    AllCut(lim, rows, parts, start);
    result := Parts(payloads);
    Finished(lim, rows);
  }

  /** The first row that alone breaks a limit decides. */
  lemma FailsAt(lim: PackLimits, rows: seq<Queued>, i: nat)
    requires i < |rows| && Oversized(lim, rows[i]) && NoneOversized(lim, rows, i)
    ensures AssemblyResult(lim, rows) == Failed(Admission(lim, rows[i]))
  {
    hide Oversized, NoneOversized, Admission;
    FirstOversizedIs(lim, rows, i);
  }

  lemma Finished(lim: PackLimits, rows: seq<Queued>)
    requires lim.records > 0 && NoneOversized(lim, rows, |rows|)
    ensures AssemblyResult(lim, rows) == Parts(Payloads(Greedy(lim, rows)))
    ensures CarriesAll(Payloads(Greedy(lim, rows)), rows)
  {
    hide CarriesAll, Payloads, Oversized, NoneOversized, Greedy;
    FirstOversizedIs(lim, rows, |rows|);
    PartsCarryRows(lim, rows);
  }

  lemma AdmissionMeans(lim: PackLimits, q: Queued)
    ensures Admission(lim, q).Added? <==> !Oversized(lim, q)
  {
  }

  lemma NothingCut(lim: PackLimits, rows: seq<Queued>)
    ensures CutSoFar(lim, rows, [], 0, 0) && Payloads([]) == [] && NoneOversized(lim, rows, 0)
  {
    assert rows[0..] == rows && [] + Greedy(lim, rows) == Greedy(lim, rows);
  }

  lemma CutWhereItStarts(lim: PackLimits, rows: seq<Queued>, parts: seq<seq<Queued>>, i: nat)
    ensures CutSoFar(lim, rows, parts, i, i) ==> CutAt(lim, rows, parts, i)
  {
  }

  lemma AllCut(lim: PackLimits, rows: seq<Queued>, parts: seq<seq<Queued>>, start: nat)
    requires start == |rows| && CutAt(lim, rows, parts, start)
    ensures Greedy(lim, rows) == parts
  {
    assert Greedy(lim, rows[start..]) == [];
  }

  lemma RowJoins(lim: PackLimits, rows: seq<Queued>, parts: seq<seq<Queued>>, start: nat, i: nat)
    requires start <= i < |rows| && lim.records > 0 && !Oversized(lim, rows[i])
    requires start == i ==> CutAt(lim, rows, parts, i)
    requires start < i ==>
               CutSoFar(lim, rows, parts, start, i) && rows[start].model == rows[i].model
               && Fits(lim, rows[start..i] + [rows[i]])
    ensures CutSoFar(lim, rows, parts, start, i + 1)
    ensures rows[start..i] + [rows[i]] == rows[start..i + 1]
  {
    var block := rows[start..i] + [rows[i]];
    assert block == rows[start..i + 1];
    if start == i {
      SingleRowPart(lim, rows[i]);
      assert block == [rows[i]];
    } else {
      assert forall k :: 0 <= k < i - start ==> block[k] == rows[start..i][k];
    }
  }

  // ----- what assembly conserves -----

  /** The rows in the first `n` parts. */
  function RowsBefore(ps: seq<Payload>, n: nat): nat
    requires n <= |ps|
  {
    if n == 0 then 0 else RowsBefore(ps, n - 1) + ps[n - 1].recordCount
  }

  function TokensBefore(ps: seq<Payload>, n: nat): nat
    requires n <= |ps|
  {
    if n == 0 then 0 else TokensBefore(ps, n - 1) + ps[n - 1].totalTokens
  }

  /** Every row is in one part, at its place: parts follow one another and leave nothing out. */
  predicate CarriesAll(ps: seq<Payload>, rows: seq<Queued>) {
    && (forall i :: 0 <= i < |ps| ==> ps[i].partIndex == i && Carries(ps[i], rows, RowsBefore(ps, i)))
    && RowsBefore(ps, |ps|) == |rows|
    && TokensBefore(ps, |ps|) == Tokens(rows)
  }

  lemma {:induction false} BeforeSnoc(ps: seq<Payload>, p: Payload, n: nat)
    requires n <= |ps|
    ensures RowsBefore(ps + [p], n) == RowsBefore(ps, n) && TokensBefore(ps + [p], n) == TokensBefore(ps, n)
  {
    if n > 0 { BeforeSnoc(ps, p, n - 1); }
  }

  lemma CarriesMore(p: Payload, rows: seq<Queued>, start: nat, more: seq<Queued>)
    requires Carries(p, rows, start)
    ensures Carries(p, rows + more, start)
  {
    assert (rows + more)[start..start + p.recordCount] == rows[start..start + p.recordCount];
  }

  lemma CarriesAfter(p: Payload, rows: seq<Queued>, before: seq<Queued>)
    requires Carries(p, rows, 0)
    ensures Carries(p, before + rows, |before|)
  {
    assert (before + rows)[|before|..|before| + p.recordCount] == rows[0..p.recordCount];
  }

  lemma CarriesOneMore(ps: seq<Payload>, rows: seq<Queued>, qs: seq<Queued>)
    requires CarriesAll(ps, rows)
    ensures CarriesAll(ps + [PayloadOf(|ps|, qs)], rows + qs)
  {
    hide PayloadOf, Carries, Tokens, RowsBefore, TokensBefore;
    var p := PayloadOf(|ps|, qs);
    var ps' := ps + [p];
    forall i | 0 <= i < |ps'|
      ensures ps'[i].partIndex == i && Carries(ps'[i], rows + qs, RowsBefore(ps', i))
    {
      CarriesAt(ps, rows, qs, i);
    }
    BeforeLast(ps, p);
    PayloadSums(|ps|, qs);
    SumsAppend(rows, qs);
  }

  lemma BeforeLast(ps: seq<Payload>, p: Payload)
    ensures RowsBefore(ps + [p], |ps + [p]|) == RowsBefore(ps, |ps|) + p.recordCount
    ensures TokensBefore(ps + [p], |ps + [p]|) == TokensBefore(ps, |ps|) + p.totalTokens
  {
    BeforeSnoc(ps, p, |ps|);
  }

  lemma PayloadSums(index: nat, qs: seq<Queued>)
    ensures var p := PayloadOf(index, qs); p.partIndex == index && p.recordCount == |qs| && p.totalTokens == Tokens(qs)
  {
  }

  lemma CarriesAt(ps: seq<Payload>, rows: seq<Queued>, qs: seq<Queued>, i: nat)
    requires CarriesAll(ps, rows) && i <= |ps|
    ensures var ps' := ps + [PayloadOf(|ps|, qs)];
            ps'[i].partIndex == i && Carries(ps'[i], rows + qs, RowsBefore(ps', i))
  {
    hide PayloadOf, Carries, Tokens, RowsBefore, TokensBefore;
    var p := PayloadOf(|ps|, qs);
    BeforeSnoc(ps, p, i);
    if i < |ps| {
      CarriesMore(ps[i], rows, RowsBefore(ps, i), qs);
    } else {
      PayloadSums(|ps|, qs);
      PayloadCarries(|ps|, qs);
      CarriesAfter(p, qs, rows);
    }
  }

  lemma {:induction false} PayloadsCarry(parts: seq<seq<Queued>>)
    ensures CarriesAll(Payloads(parts), Flatten(parts))
  {
    hide CarriesAll;
    if parts == [] {
      NothingCarried();
    } else {
      var k := |parts| - 1;
      PayloadsCarry(parts[..k]);
      assert parts == parts[..k] + [parts[k]];
      FlattenSnoc(parts[..k], parts[k]);
      PayloadsSnoc(parts[..k], parts[k]);
      CarriesOneMore(Payloads(parts[..k]), Flatten(parts[..k]), parts[k]);
    }
  }

  lemma NothingCarried()
    ensures CarriesAll([], [])
  {
  }

  /**
   A successful assembly loses, repeats and mixes up nothing: reading the parts in order
   gives the rows in order, each id beside its own line, and the tokens add up.
   */
  lemma PartsCarryRows(lim: PackLimits, rows: seq<Queued>)
    requires lim.records > 0 && AssemblyResult(lim, rows).Parts?
    ensures CarriesAll(AssemblyResult(lim, rows).payloads, rows)
  {
    hide CarriesAll, Payloads;
    GreedyIsCutting(lim, rows);
    PayloadsCarry(Greedy(lim, rows));
  }

  /** It fails for the first row that alone is over a limit, and says which row and limit. */
  lemma FailureMeans(lim: PackLimits, rows: seq<Queued>, error: AddResult)
    ensures AssemblyResult(lim, rows) == Failed(error) <==>
              exists i :: 0 <= i < |rows| && IsFirstFailure(lim, rows, i, error)
  {
    var bad := FirstOversized(lim, rows);
    if i :| 0 <= i < |rows| && IsFirstFailure(lim, rows, i, error) {
      assert Oversized(lim, rows[i]);
      FirstOversizedIs(lim, rows, i);
    }
    if bad < |rows| {
      assert IsFirstFailure(lim, rows, bad, Admission(lim, rows[bad]));
    }
  }

  predicate IsFirstFailure(lim: PackLimits, rows: seq<Queued>, i: nat, error: AddResult)
    requires i < |rows|
  {
    && (forall k :: 0 <= k < i ==> rows[k].tokens <= lim.tokens && Utf8Length(rows[k].line) + 1 <= lim.bytes)
    && if rows[i].tokens > lim.tokens then error == TokenLimitExceeded(rows[i].id)
       else Utf8Length(rows[i].line) + 1 > lim.bytes && error == RecordTooLarge(rows[i].id)
  }

  function Lines(payloads: seq<Payload>): seq<string> {
    if payloads == [] then [] else Lines(payloads[..|payloads| - 1]) + payloads[|payloads| - 1].lines
  }

  function RowLines(rows: seq<Queued>): seq<string> {
    seq(|rows|, i requires 0 <= i < |rows| => rows[i].line)
  }

  lemma {:induction false} LinesOfParts(parts: seq<seq<Queued>>)
    ensures Lines(Payloads(parts)) == RowLines(Flatten(parts))
  {
    if parts != [] {
      var k := |parts| - 1;
      LinesOfParts(parts[..k]);
      assert parts == parts[..k] + [parts[k]];
      FlattenSnoc(parts[..k], parts[k]);
      PayloadsSnoc(parts[..k], parts[k]);
      SnocInit(Payloads(parts[..k]), PayloadOf(k, parts[k]));
      assert RowLines(Flatten(parts[..k]) + parts[k]) == RowLines(Flatten(parts[..k])) + RowLines(parts[k]);
    }
  }

  function RequestIds(payloads: seq<Payload>): seq<string> {
    if payloads == [] then [] else RequestIds(payloads[..|payloads| - 1]) + payloads[|payloads| - 1].requestIds
  }

  function Ids(rows: seq<Queued>): seq<string> {
    seq(|rows|, i requires 0 <= i < |rows| => rows[i].id)
  }

  lemma {:induction false} FlattenSnoc(parts: seq<seq<Queued>>, last: seq<Queued>)
    ensures Flatten(parts + [last]) == Flatten(parts) + last
  {
    if parts == [] {
      assert [last][1..] == [] && [] + [last] == [last];
    } else {
      AppendTail(parts, [last]);
      FlattenSnoc(parts[1..], last);
    }
  }

  lemma {:induction false} IdsOfParts(parts: seq<seq<Queued>>)
    ensures RequestIds(Payloads(parts)) == Ids(Flatten(parts))
  {
    if parts != [] {
      var k := |parts| - 1;
      IdsOfParts(parts[..k]);
      assert parts == parts[..k] + [parts[k]];
      FlattenSnoc(parts[..k], parts[k]);
      PayloadsSnoc(parts[..k], parts[k]);
      SnocInit(Payloads(parts[..k]), PayloadOf(k, parts[k]));
      assert Ids(Flatten(parts[..k]) + parts[k]) == Ids(Flatten(parts[..k])) + Ids(parts[k]);
    }
  }

  lemma {:induction false} Utf8Append(a: string, b: string)
    ensures Utf8Length(a + b) == Utf8Length(a) + Utf8Length(b)
  {
    if b == [] {
      assert a + b == a;
    } else {
      AppendInit(a, b);
      Utf8Append(a, b[..|b| - 1]);
    }
  }

  /** A part's recorded size is the length of its lines, each with its newline. */
  lemma {:induction false} TextBytes(qs: seq<Queued>)
    ensures Utf8Length(Terminated(PayloadOf(0, qs).lines, '\n')) == ByteCount(qs)
  {
    hide Utf8Length, Terminated;
    if qs == [] {
      NoText();
    } else {
      var k := |qs| - 1;
      TextBytes(qs[..k]);
      assert PayloadOf(0, qs).lines == PayloadOf(0, qs[..k]).lines + [qs[k].line];
      OneLineMore(PayloadOf(0, qs[..k]).lines, qs[k].line);
    }
  }

  lemma NoText()
    ensures Utf8Length(Terminated([], '\n')) == 0
  {
  }

  lemma OneLineMore(lines: seq<string>, line: string)
    ensures Utf8Length(Terminated(lines + [line], '\n')) == Utf8Length(Terminated(lines, '\n')) + Utf8Length(line) + 1
  {
    TerminatedAppend(lines, [line], '\n');
    assert Terminated([line], '\n') == line + ['\n'];
    Utf8Append(Terminated(lines, '\n'), line + ['\n']);
    SnocInit(line, '\n');
  }

  /** The text persisted for a part is as long as the part's recorded size. */
  lemma DocumentBytes(index: nat, qs: seq<Queued>)
    ensures Utf8Length(PayloadDocument.Write(PayloadOf(index, qs).lines).text) == ByteCount(qs)
  {
    var lines := PayloadOf(index, qs).lines;
    assert lines == PayloadOf(0, qs).lines;
    TextBytes(qs);
    if lines == [] {
      NoText();
      assert PayloadDocument.Write(lines).text == "" + "";
    } else {
      PayloadDocument.JoinedIsTerminated(lines);
    }
  }

  /**
   A successful assembly conserves its input: ids and lines concatenate to those of
   the rows in order, parts are numbered from zero, each has one model and respects every
   limit, recorded sizes are those of the text to be persisted, and no other cut
   has fewer parts.
   */
  lemma AssemblyConserves(lim: PackLimits, rows: seq<Queued>)
    requires lim.records > 0 && AssemblyResult(lim, rows).Parts?
    ensures var ps, parts := AssemblyResult(lim, rows).payloads, Greedy(lim, rows);
            && RequestIds(ps) == Ids(rows) && Lines(ps) == RowLines(rows)
            && |ps| == |parts| && Cutting(lim, rows, parts)
            && (forall i :: 0 <= i < |ps| ==>
                  && ps[i] == PayloadOf(i, parts[i])
                  && ps[i].byteSize == Utf8Length(PayloadDocument.Write(ps[i].lines).text)
                  && 0 < ps[i].recordCount <= lim.records && ps[i].totalTokens <= lim.tokens
                     && ps[i].byteSize <= lim.bytes)
            && forall other :: Cutting(lim, rows, other) ==> |ps| <= |other|
  {
    var parts := Greedy(lim, rows);
    GreedyIsCutting(lim, rows);
    IdsOfParts(parts);
    LinesOfParts(parts);
    forall i | 0 <= i < |parts|
      ensures ByteCount(parts[i]) == Utf8Length(PayloadDocument.Write(PayloadOf(i, parts[i]).lines).text)
    {
      DocumentBytes(i, parts[i]);
    }
    forall other | Cutting(lim, rows, other)
      ensures |parts| <= |other|
    {
      GreedyIsMinimal(lim, rows, other);
    }
  }

  /** Assembly fails exactly when the rows cannot be cut at all. */
  lemma AssemblyFailsIffUncuttable(lim: PackLimits, rows: seq<Queued>)
    requires lim.records > 0
    ensures AssemblyResult(lim, rows).Failed? <==> !exists parts :: Cutting(lim, rows, parts)
  {
    CuttableIffNoOversizedRow(lim, rows);
  }
}
