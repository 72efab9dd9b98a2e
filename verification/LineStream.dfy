/**
 Cutting a provider file, delivered as arbitrary byte chunks, into physical
 JSONL lines under the download, chunk, line-length and line-count budgets.
 */
module LineStream {
  import opened Bytes
  import opened Delimited
  import opened Framing
  import opened Sequences

  const DOWNLOAD_CHUNK_BYTES: nat := 65536
  const NEWLINE: Byte := 10
  const CARRIAGE_RETURN: Byte := 13

  /** A decoded provider record, identified by the text it was decoded from. */
  datatype JsonObject = JsonObject(text: seq<Byte>)

  /** What UTF-8 and strict JSON decoding make of one non-blank line. */
  datatype Decoded = InvalidUtf8 | InvalidJson | NotAnObject | Object(record: JsonObject)

  datatype Limits = Limits(
    maxDownloadBytes: nat,
    maxLineBytes: Uint64,
    maxPhysicalLines: Uint64,
    maxRecords: nat,
    decode: seq<Byte> -> Decoded)

  datatype StreamError =
    | DownloadLimit | ForeignChunk | EmptyChunk | OversizedChunk
    | LineLimit | PhysicalLineLimit | BadLine(why: Decoded)
    | InvalidFileId | RecordLimit | CheckpointMismatch | CheckpointNotFound

  /** A chunk handed over by the HTTP library; anything but bytes is foreign. */
  datatype Chunk = ByteChunk(bytes: seq<Byte>) | NonByteChunk

  // ----- one line -----

  datatype Parsed = Blank | Record(record: JsonObject) | Rejected(error: StreamError)

  function WithoutCarriageReturn(line: seq<Byte>): seq<Byte> {
    if line != [] && line[|line| - 1] == CARRIAGE_RETURN then line[..|line| - 1] else line
  }

  function ParseLine(lim: Limits, line: seq<Byte>): Parsed {
    if |line| > lim.maxLineBytes then Rejected(LineLimit)
    else
      var text := WithoutCarriageReturn(line);
      if text == [] then Blank
      else match lim.decode(text)
        case Object(record) => Record(record)
        case why => Rejected(BadLine(why))
  }

  /** Why the line that brings the batch to `observed` physical lines is refused, if it is. */
  function Verdict(lim: Limits, observed: nat, line: seq<Byte>): Option<StreamError> {
    if observed > lim.maxPhysicalLines then Some(PhysicalLineLimit)
    else match ParseLine(lim, line)
      case Rejected(error) => Some(error)
      case _ => None
  }

  // ----- what a body means, with no chunks in sight -----

  datatype RawLine = RawLine(bytes: seq<Byte>, terminated: bool)

  function Complete(pieces: seq<seq<Byte>>): (lines: seq<RawLine>)
    ensures |lines| == |pieces|
  {
    seq(|pieces|, i requires 0 <= i < |pieces| => RawLine(pieces[i], true))
  }

  /** The newline-terminated lines of a body. */
  function TerminatedLines(body: seq<Byte>): seq<RawLine> {
    var p := Split(body, NEWLINE);
    Complete(p[..|p| - 1])
  }

  /** What follows the last newline. */
  function Remainder(body: seq<Byte>): seq<Byte> {
    var p := Split(body, NEWLINE);
    p[|p| - 1]
  }

  function Tail(rest: seq<Byte>): seq<RawLine> {
    if rest == [] then [] else [RawLine(rest, false)]
  }

  /** Every physical line of a body, the unterminated last one included. */
  function LinesOf(body: seq<Byte>): seq<RawLine> {
    TerminatedLines(body) + Tail(Remainder(body))
  }

  /** How many leading lines are accepted when `base` lines of the batch were already observed. */
  function Accepted(lim: Limits, base: nat, lines: seq<RawLine>): (n: nat)
    ensures n <= |lines|
    decreases |lines|
  {
    if lines == [] || Verdict(lim, base + 1, lines[0].bytes).Some? then 0
    else 1 + Accepted(lim, base + 1, lines[1..])
  }

  /** `Accepted` counts the lines before the first refused one. */
  ghost predicate IsAccepted(lim: Limits, base: nat, lines: seq<RawLine>, n: nat) {
    && n <= |lines|
    && (forall i :: 0 <= i < n ==> Verdict(lim, base + i + 1, lines[i].bytes).None?)
    && (n < |lines| ==> Verdict(lim, base + n + 1, lines[n].bytes).Some?)
  }

  lemma {:induction false} AcceptedMeans(lim: Limits, base: nat, lines: seq<RawLine>)
    ensures IsAccepted(lim, base, lines, Accepted(lim, base, lines))
    decreases |lines|
  {
    if lines != [] && Verdict(lim, base + 1, lines[0].bytes).None? {
      AcceptedMeans(lim, base + 1, lines[1..]);
      var n := Accepted(lim, base, lines);
      forall i | 0 <= i < n
        ensures Verdict(lim, base + i + 1, lines[i].bytes).None?
      {
        assert i > 0 ==> lines[i] == lines[1..][i - 1];
      }
    }
  }

  lemma AcceptedIs(lim: Limits, base: nat, lines: seq<RawLine>, n: nat)
    requires IsAccepted(lim, base, lines, n)
    ensures n == Accepted(lim, base, lines)
  {
    AcceptedMeans(lim, base, lines);
  }

  /** Why reading stops before the end of the lines, if it does. */
  function FirstError(lim: Limits, base: nat, lines: seq<RawLine>): (e: Option<StreamError>)
    ensures e.None? <==> Accepted(lim, base, lines) == |lines|
  {
    AcceptedMeans(lim, base, lines);
    var n := Accepted(lim, base, lines);
    if n == |lines| then None else Verdict(lim, base + n + 1, lines[n].bytes)
  }

  predicate Encodable(number: nat, line: RawLine) {
    number < 0x1_0000_0000_0000_0000 && |line.bytes| < 0x1_0000_0000_0000_0000
  }

  function Numbered(number: nat, line: RawLine): StreamEvent
    requires Encodable(number, line)
  {
    PhysicalLine(number, line.bytes, line.terminated)
  }

  /** `events` are leading lines, numbered from `number + 1`. */
  ghost predicate AreNumbered(number: nat, lines: seq<RawLine>, events: seq<StreamEvent>) {
    && |events| <= |lines|
    && forall i :: 0 <= i < |events| ==>
         Encodable(number + i + 1, lines[i]) && events[i] == Numbered(number + i + 1, lines[i])
  }

  lemma AcceptedEncodable(lim: Limits, base: nat, number: nat, lines: seq<RawLine>)
    requires number <= base
    ensures forall i :: 0 <= i < Accepted(lim, base, lines) ==> Encodable(number + i + 1, lines[i])
  {
    AcceptedMeans(lim, base, lines);
  }

  /** The lines delivered before the first refusal, numbered within their file. */
  function Delivered(lim: Limits, base: nat, number: nat, lines: seq<RawLine>): (events: seq<StreamEvent>)
    requires number <= base
    ensures |events| == Accepted(lim, base, lines)
  {
    AcceptedEncodable(lim, base, number, lines);
    seq(Accepted(lim, base, lines),
        i requires 0 <= i < Accepted(lim, base, lines) => Numbered(number + i + 1, lines[i]))
  }

  lemma DeliveredMeans(lim: Limits, base: nat, number: nat, lines: seq<RawLine>)
    requires number <= base
    ensures AreNumbered(number, lines, Delivered(lim, base, number, lines))
  {
    AcceptedEncodable(lim, base, number, lines);
  }

  /** Lines read in two portions are judged as if read at once. */
  lemma {:induction false} AcceptedAppend(lim: Limits, base: nat, a: seq<RawLine>, b: seq<RawLine>)
    ensures Accepted(lim, base, a + b) == if Accepted(lim, base, a) < |a| then Accepted(lim, base, a)
                                          else |a| + Accepted(lim, base + |a|, b)
    decreases |a|
  {
    if a == [] {
      assert a + b == b;
    } else {
      AppendTail(a, b);
      AcceptedAppend(lim, base + 1, a[1..], b);
    }
  }

  lemma FirstErrorAppend(lim: Limits, base: nat, a: seq<RawLine>, b: seq<RawLine>)
    ensures FirstError(lim, base, a + b) == if FirstError(lim, base, a).Some? then FirstError(lim, base, a)
                                            else FirstError(lim, base + |a|, b)
  {
    hide Accepted, Verdict;
    AcceptedAppend(lim, base, a, b);
    var n, m := Accepted(lim, base, a), Accepted(lim, base + |a|, b);
    if n < |a| {
      assert (a + b)[n] == a[n];
    } else if m < |b| {
      assert (a + b)[|a| + m] == b[m];
    }
  }

  lemma NumberedAppend(number: nat, a: seq<RawLine>, b: seq<RawLine>, l: seq<StreamEvent>, d: seq<StreamEvent>,
                       r: seq<StreamEvent>)
    requires AreNumbered(number, a + b, l) && AreNumbered(number, a, d) && AreNumbered(number + |a|, b, r)
    requires |l| == |d| + |r| && |d| == |a|
    ensures l == d + r
  {
    forall i | 0 <= i < |l|
      ensures l[i] == (d + r)[i]
    {
      if i >= |a| {
        var j := i - |a|;
        assert (a + b)[i] == b[j] && number + |a| + j + 1 == number + i + 1;
      }
    }
  }

  lemma DeliveredAppend(lim: Limits, base: nat, number: nat, a: seq<RawLine>, b: seq<RawLine>)
    requires number <= base
    requires FirstError(lim, base, a).None?
    ensures Delivered(lim, base, number, a + b)
            == Delivered(lim, base, number, a) + Delivered(lim, base + |a|, number + |a|, b)
  {
    AcceptedAppend(lim, base, a, b);
    DeliveredMeans(lim, base, number, a + b);
    DeliveredMeans(lim, base, number, a);
    DeliveredMeans(lim, base + |a|, number + |a|, b);
    NumberedAppend(number, a, b, Delivered(lim, base, number, a + b),
                   Delivered(lim, base, number, a), Delivered(lim, base + |a|, number + |a|, b));
  }

  lemma DeliveredStops(lim: Limits, base: nat, number: nat, a: seq<RawLine>, b: seq<RawLine>)
    requires number <= base
    requires FirstError(lim, base, a).Some?
    ensures Delivered(lim, base, number, a + b) == Delivered(lim, base, number, a)
  {
    AcceptedAppend(lim, base, a, b);
    DeliveredMeans(lim, base, number, a + b);
    DeliveredMeans(lim, base, number, a);
    var l, d := Delivered(lim, base, number, a + b), Delivered(lim, base, number, a);
    assert forall i :: 0 <= i < |l| ==> (a + b)[i] == a[i];
    assert forall i :: 0 <= i < |l| ==> l[i] == d[i];
  }

  // ----- bodies that arrive piece by piece -----

  lemma CompleteAppend(a: seq<seq<Byte>>, b: seq<seq<Byte>>)
    ensures Complete(a + b) == Complete(a) + Complete(b)
  {
  }

  lemma LinesOfPieces(body: seq<Byte>, p: seq<seq<Byte>>)
    requires p == Split(body, NEWLINE)
    ensures |p| > 0 && TerminatedLines(body) == Complete(p[..|p| - 1]) && Remainder(body) == p[|p| - 1]
  {
  }

  lemma PiecesAppend(p: seq<seq<Byte>>, q: seq<seq<Byte>>)
    requires |p| > 0 && |q| > 0
    ensures var pq := p[..|p| - 1] + q;
            Complete(pq[..|pq| - 1]) == Complete(p[..|p| - 1]) + Complete(q[..|q| - 1]) && pq[|pq| - 1] == q[|q| - 1]
  {
    hide Complete;
    AppendInit(p[..|p| - 1], q);
    CompleteAppend(p[..|p| - 1], q[..|q| - 1]);
  }

  lemma SplitConcat(x: seq<Byte>, y: seq<Byte>)
    ensures var p := Split(x, NEWLINE);
            Split(x + y, NEWLINE) == p[..|p| - 1] + Split(Remainder(x) + y, NEWLINE)
  {
    var p := Split(x, NEWLINE);
    SplitRestores(x, NEWLINE);
    SplitClean(x, NEWLINE);
    var done := p[..|p| - 1];
    assert x + y == Terminated(done, NEWLINE) + (Remainder(x) + y);
    SplitAfterLines(done, NEWLINE, Remainder(x) + y);
  }

  /** More bytes only extend the list of complete lines, starting from the carried remainder. */
  lemma LinesConcat(x: seq<Byte>, y: seq<Byte>)
    ensures TerminatedLines(x + y) == TerminatedLines(x) + TerminatedLines(Remainder(x) + y)
    ensures Remainder(x + y) == Remainder(Remainder(x) + y)
    ensures LinesOf(x + y) == TerminatedLines(x) + LinesOf(Remainder(x) + y)
  {
    hide Split, Complete, TerminatedLines, Remainder, Tail;
    var carried := Remainder(x) + y;
    var p, q, pq := Split(x, NEWLINE), Split(carried, NEWLINE), Split(x + y, NEWLINE);
    LinesOfPieces(x, p);
    LinesOfPieces(carried, q);
    LinesOfPieces(x + y, pq);
    SplitConcat(x, y);
    PiecesAppend(p, q);
    Associative(TerminatedLines(x), TerminatedLines(carried), Tail(Remainder(carried)));
  }

  /** The first line of a body starts with everything before its first newline. */
  lemma FirstLine(pending: seq<Byte>, rest: seq<Byte>)
    requires NEWLINE !in pending && pending != []
    ensures var ls := LinesOf(pending + rest); |ls| > 0 && |ls[0].bytes| >= |pending|
  {
    var s := pending + rest;
    var k := Find(s, NEWLINE);
    assert forall i :: 0 <= i < |pending| ==> s[i] == pending[i];
    assert k >= |pending|;
    if k < |s| {
      var p := Split(s, NEWLINE);
      assert p[0] == s[..k] && TerminatedLines(s)[0].bytes == p[0];
    } else {
      assert Split(s, NEWLINE) == [s];
    }
  }

  lemma RemainderClean(body: seq<Byte>)
    ensures NEWLINE !in Remainder(body)
  {
    SplitClean(body, NEWLINE);
  }

  function Rejoin(lines: seq<RawLine>): seq<Byte> {
    if lines == [] then []
    else lines[0].bytes + (if lines[0].terminated then [NEWLINE] else []) + Rejoin(lines[1..])
  }

  lemma {:induction false} RejoinComplete(pieces: seq<seq<Byte>>, rest: seq<Byte>)
    ensures Rejoin(Complete(pieces) + Tail(rest)) == Terminated(pieces, NEWLINE) + rest
  {
    var lines := Complete(pieces) + Tail(rest);
    if pieces == [] {
      assert lines == Tail(rest);
      if rest != [] {
        assert lines[1..] == [];
      }
    } else {
      assert lines[0] == RawLine(pieces[0], true);
      assert lines[1..] == Complete(pieces[1..]) + Tail(rest);
      RejoinComplete(pieces[1..], rest);
    }
  }

  /** Putting the terminators back restores the body exactly. */
  lemma LinesRestoreBody(body: seq<Byte>)
    ensures Rejoin(LinesOf(body)) == body
  {
    var p := Split(body, NEWLINE);
    SplitRestores(body, NEWLINE);
    RejoinComplete(p[..|p| - 1], Remainder(body));
  }

  // ----- chunks -----

  /** Why a chunk is refused after `read` bytes, if it is. */
  function ChunkDefect(lim: Limits, read: nat, c: Chunk): Option<StreamError> {
    if c.NonByteChunk? then Some(ForeignChunk)
    else if |c.bytes| == 0 then Some(EmptyChunk)
    else if |c.bytes| > DOWNLOAD_CHUNK_BYTES then Some(OversizedChunk)
    else if read + |c.bytes| > lim.maxDownloadBytes then Some(DownloadLimit)
    else None
  }

  /** How many leading chunks are usable. */
  function Usable(lim: Limits, read: nat, chunks: seq<Chunk>): (n: nat)
    ensures n <= |chunks|
    decreases |chunks|
  {
    if chunks == [] || ChunkDefect(lim, read, chunks[0]).Some? then 0
    else 1 + Usable(lim, read + |chunks[0].bytes|, chunks[1..])
  }

  function Content(c: Chunk): seq<Byte> {
    if c.ByteChunk? then c.bytes else []
  }

  function Flatten(chunks: seq<Chunk>): seq<Byte> {
    if chunks == [] then [] else Content(chunks[0]) + Flatten(chunks[1..])
  }

  /** The bytes a file delivers before its first unusable chunk. */
  function Body(lim: Limits, chunks: seq<Chunk>): seq<Byte> {
    Flatten(chunks[..Usable(lim, 0, chunks)])
  }

  predicate Whole(lim: Limits, chunks: seq<Chunk>) {
    Usable(lim, 0, chunks) == |chunks|
  }

  /** The lines a chunked file offers: an unterminated last line counts only when the file ended properly. */
  function Offered(lim: Limits, chunks: seq<Chunk>): seq<RawLine> {
    if Whole(lim, chunks) then LinesOf(Body(lim, chunks)) else TerminatedLines(Body(lim, chunks))
  }

  /** Every way of cutting a body into one to 64 KiB chunks within the download limit is usable as a whole. */
  lemma {:induction false} ProperChunkingIsWhole(lim: Limits, read: nat, chunks: seq<Chunk>)
    requires forall i :: 0 <= i < |chunks| ==> chunks[i].ByteChunk? && 0 < |chunks[i].bytes| <= DOWNLOAD_CHUNK_BYTES
    requires read + |Flatten(chunks)| <= lim.maxDownloadBytes
    ensures Usable(lim, read, chunks) == |chunks|
    decreases |chunks|
  {
    if chunks != [] {
      ProperChunkingIsWhole(lim, read + |chunks[0].bytes|, chunks[1..]);
    }
  }

  lemma {:induction false} UsableStep(lim: Limits, read: nat, chunks: seq<Chunk>, i: nat)
    requires i < |chunks| && i <= Usable(lim, read, chunks)
    ensures ChunkDefect(lim, read + |Flatten(chunks[..i])|, chunks[i]).Some? <==> i == Usable(lim, read, chunks)
    decreases |chunks|
  {
    if i > 0 {
      assert chunks[..i][1..] == chunks[1..][..i - 1];
      UsableStep(lim, read + |chunks[0].bytes|, chunks[1..], i - 1);
    }
  }

  lemma {:induction false} FlattenAppend(a: seq<Chunk>, b: seq<Chunk>)
    ensures Flatten(a + b) == Flatten(a) + Flatten(b)
  {
    if a == [] {
      assert a + b == b;
    } else {
      assert (a + b)[1..] == a[1..] + b;
      FlattenAppend(a[1..], b);
    }
  }

  // ----- the incremental reader -----

  /** The batch-wide ceiling on physical lines, shared by both provider files. */
  class PhysicalLineBudget {
    const limit: Uint64
    var observed: nat

    constructor (limit: Uint64)
      ensures this.limit == limit && observed == 0
    {
      this.limit := limit;
      observed := 0;
    }

    method Observe() returns (ok: bool)
      modifies this
      ensures observed == old(observed) + 1
      ensures ok <==> observed <= limit
    {
      observed := observed + 1;
      ok := observed <= limit;
    }
  }

  /** Counts one line against the budget and parses it, in that order. */
  method TakeLine(lim: Limits, budget: PhysicalLineBudget, line: seq<Byte>) returns (error: Option<StreamError>)
    requires budget.limit == lim.maxPhysicalLines
    modifies budget
    ensures budget.observed == old(budget.observed) + 1
    ensures error == Verdict(lim, budget.observed, line)
  {
    var ok := budget.Observe();
    if !ok {
      return Some(PhysicalLineLimit);
    }
    match ParseLine(lim, line)
    case Rejected(e) => error := Some(e);
    case _ => error := None;
  }

  lemma PiecesCons(x: seq<Byte>, q: seq<seq<Byte>>)
    requires |q| > 0
    ensures var p := [x] + q;
            && Complete(p[..|p| - 1]) == [RawLine(x, true)] + Complete(q[..|q| - 1])
            && p[|p| - 1] == q[|q| - 1]
  {
    AppendInit([x], q);
    CompleteAppend([x], q[..|q| - 1]);
    assert Complete([x]) == [RawLine(x, true)];
  }

  lemma NextLine(pending: seq<Byte>)
    requires Find(pending, NEWLINE) < |pending|
    ensures var k := Find(pending, NEWLINE);
            && TerminatedLines(pending) == [RawLine(pending[..k], true)] + TerminatedLines(pending[k + 1..])
            && Remainder(pending) == Remainder(pending[k + 1..])
  {
    hide Find, Split, Complete, TerminatedLines, Remainder;
    var k := Find(pending, NEWLINE);
    SplitStep(pending, NEWLINE);
    ConsLines(pending, pending[..k], pending[k + 1..]);
  }

  lemma ConsLines(body: seq<Byte>, line: seq<Byte>, rest: seq<Byte>)
    requires Split(body, NEWLINE) == [line] + Split(rest, NEWLINE)
    ensures TerminatedLines(body) == [RawLine(line, true)] + TerminatedLines(rest) && Remainder(body) == Remainder(rest)
  {
    hide Split, Complete, TerminatedLines, Remainder;
    LinesOfPieces(body, Split(body, NEWLINE));
    LinesOfPieces(rest, Split(rest, NEWLINE));
    PiecesCons(line, Split(rest, NEWLINE));
  }

  lemma NoNewline(pending: seq<Byte>)
    requires Find(pending, NEWLINE) == |pending|
    ensures TerminatedLines(pending) == [] && Remainder(pending) == pending
  {
  }

  /** What the inner loop has established: the first lines of `all` were accepted and delivered. */
  ghost predicate Taken(lim: Limits, base: nat, number: nat, all: seq<RawLine>, lines: seq<StreamEvent>) {
    && AreNumbered(number, all, lines)
    && forall i :: 0 <= i < |lines| ==> Verdict(lim, base + i + 1, all[i].bytes).None?
  }

  lemma TakenToEnd(lim: Limits, base: nat, number: nat, all: seq<RawLine>, lines: seq<StreamEvent>)
    requires number <= base && Taken(lim, base, number, all, lines)
    requires |lines| < |all| ==> Verdict(lim, base + |lines| + 1, all[|lines|].bytes).Some?
    ensures lines == Delivered(lim, base, number, all)
    ensures FirstError(lim, base, all)
            == if |lines| < |all| then Verdict(lim, base + |lines| + 1, all[|lines|].bytes) else None
  {
    AcceptedIs(lim, base, all, |lines|);
  }

  /** The buffer still holds exactly the lines of `all` not taken yet. */
  ghost predicate Buffered(all: seq<RawLine>, taken: nat, pending: seq<Byte>) {
    taken <= |all| && all[taken..] == TerminatedLines(pending)
  }

  lemma BufferedNext(all: seq<RawLine>, taken: nat, pending: seq<Byte>)
    requires Buffered(all, taken, pending) && Find(pending, NEWLINE) < |pending|
    ensures var k := Find(pending, NEWLINE);
            && taken < |all| && all[taken] == RawLine(pending[..k], true)
            && Buffered(all, taken + 1, pending[k + 1..])
            && Remainder(pending) == Remainder(pending[k + 1..])
  {
    NextLine(pending);
    DropCons(all, taken);
  }

  lemma TakenNext(lim: Limits, base: nat, number: nat, all: seq<RawLine>, lines: seq<StreamEvent>)
    requires number <= base && Taken(lim, base, number, all, lines) && |lines| < |all|
    requires Verdict(lim, base + |lines| + 1, all[|lines|].bytes).None?
    ensures Encodable(number + |lines| + 1, all[|lines|])
    ensures Taken(lim, base, number, all, lines + [Numbered(number + |lines| + 1, all[|lines|])])
  {
  }

  /** The inner loop: takes every complete line out of the carry buffer. */
  method DrainCompleteLines(lim: Limits, budget: PhysicalLineBudget, buffer: seq<Byte>, number: nat)
    returns (pending: seq<Byte>, lines: seq<StreamEvent>, error: Option<StreamError>)
    requires budget.limit == lim.maxPhysicalLines && number <= budget.observed
    modifies budget
    ensures lines == Delivered(lim, old(budget.observed), number, TerminatedLines(buffer))
    ensures error == FirstError(lim, old(budget.observed), TerminatedLines(buffer))
    ensures error.None? ==> pending == Remainder(buffer)
    ensures error.None? ==> budget.observed == old(budget.observed) + |lines|
  {
    ghost var base, all := budget.observed, TerminatedLines(buffer);
    pending, lines, error := buffer, [], None;
    var newline := Find(pending, NEWLINE);
    while newline < |pending|
      invariant newline == Find(pending, NEWLINE)
      invariant budget.observed == base + |lines|
      invariant Taken(lim, base, number, all, lines) && error.None?
      invariant Buffered(all, |lines|, pending)
      invariant Remainder(pending) == Remainder(buffer)
      decreases |pending|
    {
      BufferedNext(all, |lines|, pending);
      var line := RawLine(pending[..newline], true);
      error := TakeLine(lim, budget, line.bytes);
      if error.Some? {
        TakenToEnd(lim, base, number, all, lines);
        return;
      }
      TakenNext(lim, base, number, all, lines);
      lines := lines + [Numbered(number + |lines| + 1, line)];
      pending := pending[newline + 1..];
      newline := Find(pending, NEWLINE);
    }
    NoNewline(pending);
    TakenToEnd(lim, base, number, all, lines);
  }

  // ----- the outer loop over chunks -----

  /** What one provider file request answers with. */
  datatype Source = Source(declaredBytes: Option<int>, chunks: seq<Chunk>)

  predicate Announced(lim: Limits, src: Source) {
    src.declaredBytes.Some? && src.declaredBytes.value > lim.maxDownloadBytes
  }

  /** The lines a file delivers, and whether reading it ends in an error: functions of its bytes alone. */
  function FileLines(lim: Limits, base: nat, src: Source): seq<StreamEvent> {
    if Announced(lim, src) then [] else Delivered(lim, base, 0, Offered(lim, src.chunks))
  }

  predicate FileFails(lim: Limits, base: nat, src: Source) {
    Announced(lim, src) || !Whole(lim, src.chunks) || FirstError(lim, base, Offered(lim, src.chunks)).Some?
  }

  /** After the first `i` chunks no complete line was refused, yet more than a line's worth is carried. */
  predicate OverlongCarry(lim: Limits, base: nat, chunks: seq<Chunk>, i: nat)
    requires i <= |chunks|
  {
    && FirstError(lim, base, TerminatedLines(Flatten(chunks[..i]))).None?
    && |Remainder(Flatten(chunks[..i]))| > lim.maxLineBytes
  }

  predicate CarriedTooLong(lim: Limits, base: nat, chunks: seq<Chunk>) {
    exists i :: 0 < i <= Usable(lim, 0, chunks) && OverlongCarry(lim, base, chunks, i)
  }

  /**
   The error of reading these chunks: an over-long carry at some chunk boundary is
   reported before the line it belongs to is complete; otherwise the first refused
   line is, and only then the first defective chunk.
   */
  function ErrorOf(lim: Limits, base: nat, chunks: seq<Chunk>): Option<StreamError> {
    var u := Usable(lim, 0, chunks);
    if CarriedTooLong(lim, base, chunks) then Some(LineLimit)
    else if FirstError(lim, base, Offered(lim, chunks)).Some? then FirstError(lim, base, Offered(lim, chunks))
    else if u < |chunks| then ChunkDefect(lim, |Body(lim, chunks)|, chunks[u])
    else None
  }

  /** No carry was over-long at any of the first `i` chunk boundaries. */
  predicate CarriedWell(lim: Limits, base: nat, chunks: seq<Chunk>, i: nat)
    requires i <= |chunks|
  {
    forall j :: 0 < j <= i ==> !OverlongCarry(lim, base, chunks, j)
  }

  ghost function LaterLines(lim: Limits, chunks: seq<Chunk>, i: nat): seq<RawLine>
    requires i <= Usable(lim, 0, chunks)
  {
    var rest := Remainder(Flatten(chunks[..i])) + Flatten(chunks[i..Usable(lim, 0, chunks)]);
    if Whole(lim, chunks) then LinesOf(rest) else TerminatedLines(rest)
  }

  lemma OfferedFrom(lim: Limits, chunks: seq<Chunk>, i: nat)
    requires i <= Usable(lim, 0, chunks)
    ensures Offered(lim, chunks) == TerminatedLines(Flatten(chunks[..i])) + LaterLines(lim, chunks, i)
  {
    var u := Usable(lim, 0, chunks);
    assert chunks[..u] == chunks[..i] + chunks[i..u];
    FlattenAppend(chunks[..i], chunks[i..u]);
    LinesConcat(Flatten(chunks[..i]), Flatten(chunks[i..u]));
  }

  /** The state of the outer loop after `i` chunks. */
  ghost predicate ReadSoFar(lim: Limits, base: nat, chunks: seq<Chunk>, i: nat, pending: seq<Byte>,
                            lines: seq<StreamEvent>)
  {
    && i <= Usable(lim, 0, chunks)
    && var body := Flatten(chunks[..i]);
    && pending == Remainder(body)
    && FirstError(lim, base, TerminatedLines(body)).None?
    && lines == Delivered(lim, base, 0, TerminatedLines(body))
  }

  lemma FlattenSnoc(chunks: seq<Chunk>, i: nat)
    requires i < |chunks|
    ensures Flatten(chunks[..i + 1]) == Flatten(chunks[..i]) + Content(chunks[i])
  {
    TakeSnoc(chunks, i);
    FlattenAppend(chunks[..i], [chunks[i]]);
    assert Flatten([chunks[i]]) == Content(chunks[i]) + [];
  }

  lemma AppendBytes(lim: Limits, base: nat, body: seq<Byte>, c: seq<Byte>)
    requires FirstError(lim, base, TerminatedLines(body)).None?
    ensures var n, more := |TerminatedLines(body)|, TerminatedLines(Remainder(body) + c);
            && Remainder(body + c) == Remainder(Remainder(body) + c)
            && FirstError(lim, base, TerminatedLines(body + c)) == FirstError(lim, base + n, more)
            && Delivered(lim, base, 0, TerminatedLines(body + c))
               == Delivered(lim, base, 0, TerminatedLines(body)) + Delivered(lim, base + n, n, more)
  {
    var more := TerminatedLines(Remainder(body) + c);
    LinesConcat(body, c);
    FirstErrorAppend(lim, base, TerminatedLines(body), more);
    DeliveredAppend(lim, base, 0, TerminatedLines(body), more);
  }

  /** What reading a file must come to, said of its bytes. */
  ghost predicate ReadOutcome(lim: Limits, base: nat, chunks: seq<Chunk>, lines: seq<StreamEvent>,
                              error: Option<StreamError>) {
    && lines == Delivered(lim, base, 0, Offered(lim, chunks))
    && (error.Some? <==> !Whole(lim, chunks) || FirstError(lim, base, Offered(lim, chunks)).Some?)
    && error == ErrorOf(lim, base, chunks)
  }

  /** A line refused among the first chunks stays refused as more arrive, so no later carry counts. */
  lemma RefusalPersists(lim: Limits, base: nat, chunks: seq<Chunk>, i: nat, j: nat)
    requires i <= j <= |chunks| && FirstError(lim, base, TerminatedLines(Flatten(chunks[..i]))).Some?
    ensures FirstError(lim, base, TerminatedLines(Flatten(chunks[..j]))).Some?
  {
    hide TerminatedLines, Remainder, FirstError;
    var x, y := Flatten(chunks[..i]), Flatten(chunks[i..j]);
    assert chunks[..j] == chunks[..i] + chunks[i..j];
    FlattenAppend(chunks[..i], chunks[i..j]);
    LinesConcat(x, y);
    FirstErrorAppend(lim, base, TerminatedLines(x), TerminatedLines(Remainder(x) + y));
  }

  lemma NeverCarriedTooLong(lim: Limits, base: nat, chunks: seq<Chunk>, i: nat)
    requires i <= |chunks| && CarriedWell(lim, base, chunks, i)
    requires FirstError(lim, base, TerminatedLines(Flatten(chunks[..i]))).Some? || i == Usable(lim, 0, chunks)
    ensures !CarriedTooLong(lim, base, chunks)
  {
    hide TerminatedLines, Remainder, FirstError, Flatten;
    forall j | 0 < j <= Usable(lim, 0, chunks)
      ensures !OverlongCarry(lim, base, chunks, j)
    {
      if j > i {
        RefusalPersists(lim, base, chunks, i, j);
      }
    }
  }

  /** One more chunk drained without a refusal. */
  lemma ChunkRead(lim: Limits, base: nat, chunks: seq<Chunk>, i: nat, pending: seq<Byte>, lines: seq<StreamEvent>,
                  more: seq<StreamEvent>)
    requires ReadSoFar(lim, base, chunks, i, pending, lines) && i < Usable(lim, 0, chunks)
    requires var buffer := pending + Content(chunks[i]);
             && more == Delivered(lim, base + |lines|, |lines|, TerminatedLines(buffer))
             && FirstError(lim, base + |lines|, TerminatedLines(buffer)).None?
    ensures ReadSoFar(lim, base, chunks, i + 1, Remainder(pending + Content(chunks[i])), lines + more)
  {
    FlattenSnoc(chunks, i);
    AppendBytes(lim, base, Flatten(chunks[..i]), Content(chunks[i]));
  }

  /** A file whose offered lines start with a refused one is read up to that line. */
  lemma StopsWithin(lim: Limits, base: nat, chunks: seq<Chunk>, i: nat)
    requires i <= Usable(lim, 0, chunks) && CarriedWell(lim, base, chunks, i)
    requires FirstError(lim, base, TerminatedLines(Flatten(chunks[..i]))).Some?
    ensures var a := TerminatedLines(Flatten(chunks[..i]));
            ReadOutcome(lim, base, chunks, Delivered(lim, base, 0, a), FirstError(lim, base, a))
  {
    OfferedFrom(lim, chunks, i);
    var a, b := TerminatedLines(Flatten(chunks[..i])), LaterLines(lim, chunks, i);
    FirstErrorAppend(lim, base, a, b);
    DeliveredStops(lim, base, 0, a, b);
    NeverCarriedTooLong(lim, base, chunks, i);
  }

  lemma WellUpToRefusal(lim: Limits, base: nat, chunks: seq<Chunk>, i: nat)
    requires i < |chunks| && CarriedWell(lim, base, chunks, i)
    requires FirstError(lim, base, TerminatedLines(Flatten(chunks[..i + 1]))).Some?
    ensures CarriedWell(lim, base, chunks, i + 1)
  {
    hide Flatten, TerminatedLines, Remainder, FirstError;
  }

  lemma StopsAtLine(lim: Limits, base: nat, chunks: seq<Chunk>, i: nat, pending: seq<Byte>, lines: seq<StreamEvent>,
                    more: seq<StreamEvent>)
    requires ReadSoFar(lim, base, chunks, i, pending, lines) && i < Usable(lim, 0, chunks)
    requires CarriedWell(lim, base, chunks, i)
    requires var buffer := pending + Content(chunks[i]);
             && more == Delivered(lim, base + |lines|, |lines|, TerminatedLines(buffer))
             && FirstError(lim, base + |lines|, TerminatedLines(buffer)).Some?
    ensures ReadOutcome(lim, base, chunks, lines + more,
                        FirstError(lim, base + |lines|, TerminatedLines(pending + Content(chunks[i]))))
  {
    hide Usable, Whole, Offered, Flatten, TerminatedLines, Remainder, Delivered, FirstError, ReadOutcome;
    FlattenSnoc(chunks, i);
    AppendBytes(lim, base, Flatten(chunks[..i]), Content(chunks[i]));
    WellUpToRefusal(lim, base, chunks, i);
    StopsWithin(lim, base, chunks, i + 1);
  }

  /** Lines whose first one is too long add nothing after the lines already accepted. */
  lemma NothingMore(lim: Limits, base: nat, a: seq<RawLine>, b: seq<RawLine>)
    requires FirstError(lim, base, a).None?
    requires b != [] ==> |b[0].bytes| > lim.maxLineBytes
    ensures Delivered(lim, base, 0, a + b) == Delivered(lim, base, 0, a)
    ensures Accepted(lim, base, a + b) == |a|
  {
    assert Accepted(lim, base + |a|, b) == 0;
    AcceptedAppend(lim, base, a, b);
    DeliveredAppend(lim, base, 0, a, b);
  }

  /** A carried remainder over the line limit already dooms the line it belongs to, whatever follows. */
  lemma CarryTooLong(lim: Limits, chunks: seq<Chunk>, i: nat)
    requires i <= Usable(lim, 0, chunks)
    requires |Remainder(Flatten(chunks[..i]))| > lim.maxLineBytes
    ensures var b := LaterLines(lim, chunks, i);
            if b != [] then |b[0].bytes| > lim.maxLineBytes
            else !Whole(lim, chunks) && |Remainder(Body(lim, chunks))| > lim.maxLineBytes
  {
    var u, x := Usable(lim, 0, chunks), Flatten(chunks[..i]);
    var y := Flatten(chunks[i..u]);
    RemainderClean(x);
    FirstLine(Remainder(x), y);
    assert chunks[..u] == chunks[..i] + chunks[i..u];
    FlattenAppend(chunks[..i], chunks[i..u]);
    LinesConcat(x, y);
  }

  lemma StopsAtCarry(lim: Limits, base: nat, chunks: seq<Chunk>, i: nat, pending: seq<Byte>, lines: seq<StreamEvent>)
    requires 0 < i <= |chunks| && ReadSoFar(lim, base, chunks, i, pending, lines) && |pending| > lim.maxLineBytes
    ensures ReadOutcome(lim, base, chunks, lines, Some(LineLimit))
  {
    assert OverlongCarry(lim, base, chunks, i);
    OfferedFrom(lim, chunks, i);
    CarryTooLong(lim, chunks, i);
    NothingMore(lim, base, TerminatedLines(Flatten(chunks[..i])), LaterLines(lim, chunks, i));
  }

  lemma StopsAtChunk(lim: Limits, base: nat, chunks: seq<Chunk>, i: nat, pending: seq<Byte>, lines: seq<StreamEvent>)
    requires ReadSoFar(lim, base, chunks, i, pending, lines)
    requires i == Usable(lim, 0, chunks) < |chunks| && CarriedWell(lim, base, chunks, i)
    requires ChunkDefect(lim, |Flatten(chunks[..i])|, chunks[i]).Some?
    ensures ReadOutcome(lim, base, chunks, lines, ChunkDefect(lim, |Flatten(chunks[..i])|, chunks[i]))
  {
    NeverCarriedTooLong(lim, base, chunks, i);
  }

  lemma EndOfFile(lim: Limits, base: nat, chunks: seq<Chunk>, pending: seq<Byte>, lines: seq<StreamEvent>)
    requires ReadSoFar(lim, base, chunks, |chunks|, pending, lines) && CarriedWell(lim, base, chunks, |chunks|)
    ensures Whole(lim, chunks) && !CarriedTooLong(lim, base, chunks)
    ensures Offered(lim, chunks) == TerminatedLines(Flatten(chunks[..|chunks|])) + Tail(pending)
    ensures pending == [] ==> ReadOutcome(lim, base, chunks, lines, None)
  {
    var a := TerminatedLines(Flatten(chunks[..|chunks|]));
    assert a + [] == a;
    NeverCarriedTooLong(lim, base, chunks, |chunks|);
  }

  /** An unterminated last line is judged like any other. */
  lemma LastLine(lim: Limits, base: nat, chunks: seq<Chunk>, pending: seq<Byte>, lines: seq<StreamEvent>)
    requires ReadSoFar(lim, base, chunks, |chunks|, pending, lines) && pending != []
    requires CarriedWell(lim, base, chunks, |chunks|)
    ensures Verdict(lim, base + |lines| + 1, pending).None? ==>
              && Encodable(|lines| + 1, RawLine(pending, false))
              && ReadOutcome(lim, base, chunks, lines + [Numbered(|lines| + 1, RawLine(pending, false))], None)
    ensures Verdict(lim, base + |lines| + 1, pending).Some? ==>
              ReadOutcome(lim, base, chunks, lines, Verdict(lim, base + |lines| + 1, pending))
  {
    hide Flatten, TerminatedLines, Verdict, Delivered, FirstError, Whole, Offered, Numbered, Encodable;
    hide CarriedWell, CarriedTooLong;
    EndOfFile(lim, base, chunks, pending, lines);
    var a, n := TerminatedLines(Flatten(chunks[..|chunks|])), |lines|;
    OneLine(lim, base + n, n, RawLine(pending, false));
    FirstErrorAppend(lim, base, a, Tail(pending));
    DeliveredAppend(lim, base, 0, a, Tail(pending));
  }

  lemma OneLine(lim: Limits, base: nat, number: nat, line: RawLine)
    requires number <= base
    ensures FirstError(lim, base, [line]) == Verdict(lim, base + 1, line.bytes)
    ensures Verdict(lim, base + 1, line.bytes).Some? ==> Delivered(lim, base, number, [line]) == []
    ensures Verdict(lim, base + 1, line.bytes).None? ==>
              Encodable(number + 1, line) && Delivered(lim, base, number, [line]) == [Numbered(number + 1, line)]
  {
    DeliveredMeans(lim, base, number, [line]);
    AcceptedMeans(lim, base, [line]);
  }

  /**
   Reads one provider file. The lines delivered and whether reading fails are
   those of the bytes, however they were chunked, and the carry buffer stays
   within one line and one chunk.
   */
  method ReadLines(lim: Limits, src: Source, budget: PhysicalLineBudget)
    returns (lines: seq<StreamEvent>, error: Option<StreamError>, ghost peak: nat)
    requires budget.limit == lim.maxPhysicalLines
    modifies budget
    ensures lines == FileLines(lim, old(budget.observed), src)
    ensures error.Some? <==> FileFails(lim, old(budget.observed), src)
    ensures src.declaredBytes.Some? && src.declaredBytes.value > lim.maxDownloadBytes ==>
              lines == [] && error == Some(DownloadLimit) && budget.observed == old(budget.observed)
    ensures src.declaredBytes.None? || src.declaredBytes.value <= lim.maxDownloadBytes ==>
              error == ErrorOf(lim, old(budget.observed), src.chunks)
    ensures error.None? ==> budget.observed == old(budget.observed) + |lines|
    ensures peak <= lim.maxLineBytes + DOWNLOAD_CHUNK_BYTES
  {
    if Announced(lim, src) {
      return [], Some(DownloadLimit), 0;
    }
    lines, error, peak := ReadChunks(lim, src.chunks, budget);
  }

  /** One round of the loop over chunks. */
  method TakeChunk(lim: Limits, budget: PhysicalLineBudget, ghost base: nat, chunks: seq<Chunk>, i: nat, read: nat,
                   pending: seq<Byte>, lines: seq<StreamEvent>)
    returns (carry: seq<Byte>, lines': seq<StreamEvent>, error: Option<StreamError>, ghost held: nat)
    requires budget.limit == lim.maxPhysicalLines && budget.observed == base + |lines|
    requires |pending| <= lim.maxLineBytes
    requires i < |chunks| && ReadSoFar(lim, base, chunks, i, pending, lines) && CarriedWell(lim, base, chunks, i)
    requires read == |Flatten(chunks[..i])|
    modifies budget
    ensures error.Some? ==> ReadOutcome(lim, base, chunks, lines', error)
    ensures error.None? ==>
              && ReadSoFar(lim, base, chunks, i + 1, carry, lines') && CarriedWell(lim, base, chunks, i + 1)
              && |Flatten(chunks[..i + 1])| == read + |Content(chunks[i])|
              && |carry| <= lim.maxLineBytes
              && budget.observed == base + |lines'|
    ensures held <= lim.maxLineBytes + DOWNLOAD_CHUNK_BYTES
  {
    hide Flatten, ReadOutcome, Usable, Delivered, FirstError, TerminatedLines, Remainder, Whole, Offered, CarriedWell;
    UsableStep(lim, 0, chunks, i);
    FlattenSnoc(chunks, i);
    carry, lines', error, held := pending, lines, ChunkDefect(lim, read, chunks[i]), |pending|;
    if error.Some? {
      StopsAtChunk(lim, base, chunks, i, pending, lines);
      return;
    }
    var buffer, more := pending + chunks[i].bytes, [];
    held := |buffer|;
    carry, more, error := DrainCompleteLines(lim, budget, buffer, |lines|);
    lines' := lines + more;
    if error.Some? {
      StopsAtLine(lim, base, chunks, i, pending, lines, more);
      return;
    }
    ChunkRead(lim, base, chunks, i, pending, lines, more);
    if |carry| > lim.maxLineBytes {
      error := Some(LineLimit);
      StopsAtCarry(lim, base, chunks, i + 1, carry, lines');
    } else {
      StillCarriedWell(lim, base, chunks, i, carry, lines');
    }
  }

  lemma StillCarriedWell(lim: Limits, base: nat, chunks: seq<Chunk>, i: nat, carry: seq<Byte>, lines: seq<StreamEvent>)
    requires i < |chunks| && CarriedWell(lim, base, chunks, i)
    requires ReadSoFar(lim, base, chunks, i + 1, carry, lines) && |carry| <= lim.maxLineBytes
    ensures CarriedWell(lim, base, chunks, i + 1)
  {
  }

  method ReadChunks(lim: Limits, chunks: seq<Chunk>, budget: PhysicalLineBudget)
    returns (lines: seq<StreamEvent>, error: Option<StreamError>, ghost peak: nat)
    requires budget.limit == lim.maxPhysicalLines
    modifies budget
    ensures ReadOutcome(lim, old(budget.observed), chunks, lines, error)
    ensures error.None? ==> budget.observed == old(budget.observed) + |lines|
    ensures peak <= lim.maxLineBytes + DOWNLOAD_CHUNK_BYTES
  {
    ghost var base := budget.observed;
    lines, error, peak := [], None, 0;
    var pending: seq<Byte>, read, i := [], 0, 0;
    NothingRead(lim, base, chunks);
    while i < |chunks|
      invariant 0 <= i <= |chunks|
      invariant ReadSoFar(lim, base, chunks, i, pending, lines) && error.None?
      invariant CarriedWell(lim, base, chunks, i)
      invariant read == |Flatten(chunks[..i])|
      invariant budget.observed == base + |lines|
      invariant |pending| <= lim.maxLineBytes
      invariant peak <= lim.maxLineBytes + DOWNLOAD_CHUNK_BYTES
    {
      ghost var held;
      pending, lines, error, held := TakeChunk(lim, budget, base, chunks, i, read, pending, lines);
      peak := if held > peak then held else peak;
      if error.Some? {
        return;
      }
      read := read + |Content(chunks[i])|;
      i := i + 1;
    }
    lines, error := TakeLastLine(lim, budget, base, chunks, pending, lines);
  }

  /** After the last chunk, whatever is still carried is an unterminated line. */
  method TakeLastLine(lim: Limits, budget: PhysicalLineBudget, ghost base: nat, ghost chunks: seq<Chunk>,
                      pending: seq<Byte>, lines: seq<StreamEvent>)
    returns (lines': seq<StreamEvent>, error: Option<StreamError>)
    requires budget.limit == lim.maxPhysicalLines && budget.observed == base + |lines|
    requires ReadSoFar(lim, base, chunks, |chunks|, pending, lines) && CarriedWell(lim, base, chunks, |chunks|)
    modifies budget
    ensures ReadOutcome(lim, base, chunks, lines', error)
    ensures error.None? ==> budget.observed == base + |lines'|
  {
    lines', error := lines, None;
    EndOfFile(lim, base, chunks, pending, lines);
    if pending != [] {
      LastLine(lim, base, chunks, pending, lines);
      error := TakeLine(lim, budget, pending);
      if error.None? {
        lines' := lines + [Numbered(|lines| + 1, RawLine(pending, false))];
      }
    }
  }

  lemma NothingRead(lim: Limits, base: nat, chunks: seq<Chunk>)
    ensures Flatten(chunks[..0]) == [] && ReadSoFar(lim, base, chunks, 0, [], []) && CarriedWell(lim, base, chunks, 0)
  {
    NoNewline([]);
  }

  /** Non-empty byte chunks of the size that was asked for, whose bytes stay within the download limit. */
  predicate ProperChunks(lim: Limits, chunks: seq<Chunk>) {
    && (forall i :: 0 <= i < |chunks| ==> chunks[i].ByteChunk? && 0 < |chunks[i].bytes| <= DOWNLOAD_CHUNK_BYTES)
    && |Flatten(chunks)| <= lim.maxDownloadBytes
  }

  /** Every line of a properly chunked body is offered, and nothing else. */
  lemma ProperChunksOfferTheBody(lim: Limits, chunks: seq<Chunk>)
    requires ProperChunks(lim, chunks)
    ensures Whole(lim, chunks) && Offered(lim, chunks) == LinesOf(Flatten(chunks))
  {
    hide LinesOf, Flatten, TerminatedLines;
    ProperChunkingIsWhole(lim, 0, chunks);
    assert chunks[..|chunks|] == chunks;
  }

  /**
   Two chunkings of the same bytes within the download limit, under any declared
   length, deliver the same lines and fail alike; unless the declared length alone
   is refused, these are the body's own lines up to the first refused one.
   */
  lemma ChunkingIsIrrelevant(lim: Limits, base: nat, declared: Option<int>, a: seq<Chunk>, b: seq<Chunk>)
    requires ProperChunks(lim, a) && ProperChunks(lim, b) && Flatten(a) == Flatten(b)
    ensures FileLines(lim, base, Source(declared, a)) == FileLines(lim, base, Source(declared, b))
    ensures FileFails(lim, base, Source(declared, a)) <==> FileFails(lim, base, Source(declared, b))
    ensures FileLines(lim, base, Source(declared, a))
            == if Announced(lim, Source(declared, a)) then [] else Delivered(lim, base, 0, LinesOf(Flatten(a)))
  {
    hide LinesOf, Flatten, Offered, Delivered, ProperChunks;
    ProperChunksOfferTheBody(lim, a);
    ProperChunksOfferTheBody(lim, b);
  }

  function EventBytes(events: seq<StreamEvent>): seq<RawLine>
    requires forall i :: 0 <= i < |events| ==> events[i].PhysicalLine?
  {
    seq(|events|, i requires 0 <= i < |events| => RawLine(events[i].bytes, events[i].terminated))
  }

  /** A file read to its end without error was delivered byte for byte. */
  lemma SuccessRestoresBody(lim: Limits, base: nat, src: Source)
    requires !FileFails(lim, base, src)
    ensures var lines := FileLines(lim, base, src);
            && (forall i :: 0 <= i < |lines| ==> lines[i].PhysicalLine?)
            && Rejoin(EventBytes(lines)) == Body(lim, src.chunks)
            && Body(lim, src.chunks) == Flatten(src.chunks)
  {
    var lines, raw := FileLines(lim, base, src), Offered(lim, src.chunks);
    DeliveredMeans(lim, base, 0, raw);
    assert EventBytes(lines) == raw;
    LinesRestoreBody(Body(lim, src.chunks));
    assert src.chunks[..|src.chunks|] == src.chunks;
  }
}
