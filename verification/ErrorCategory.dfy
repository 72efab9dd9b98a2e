/**
 How far the error of a download depends on where its chunks were cut: for which
 bodies the category is fixed, and one run of each kind for which it is not.

 Within the download limit the lines delivered never depend on it. The category
 does only when the first refused line is over the line count and over-long at
 once: a chunk boundary inside its over-long part is reported as the line limit,
 and without such a boundary the line is completed and counted. A boundary there
 cannot be avoided if the line is unterminated or at least a chunk too long.
 */
module ErrorCategory {
  import opened Bytes
  import opened Delimited
  import opened LineStream
  import opened Sequences

  /** The number of lines before the first refused one. */
  function Before(lim: Limits, base: nat, body: seq<Byte>): nat {
    Accepted(lim, base, LinesOf(body))
  }

  predicate Breaks(lim: Limits, base: nat, body: seq<Byte>) {
    Before(lim, base, body) < |LinesOf(body)|
  }

  /** The first refused line. */
  function Culprit(lim: Limits, base: nat, body: seq<Byte>): RawLine
    requires Breaks(lim, base, body)
  {
    LinesOf(body)[Before(lim, base, body)]
  }

  /**
   The refused line is terminated, over the line count and over-long, and short
   enough that one chunk can reach from its last permitted byte past its end.
   */
  predicate Ambiguous(lim: Limits, base: nat, body: seq<Byte>) {
    && Breaks(lim, base, body)
    && Culprit(lim, base, body).terminated
    && base + Before(lim, base, body) + 1 > lim.maxPhysicalLines
    && lim.maxLineBytes < |Culprit(lim, base, body).bytes| < lim.maxLineBytes + DOWNLOAD_CHUNK_BYTES
  }

  /** The category of a body that is not ambiguous. */
  function Category(lim: Limits, base: nat, body: seq<Byte>): Option<StreamError> {
    if Breaks(lim, base, body) && |Culprit(lim, base, body).bytes| > lim.maxLineBytes then Some(LineLimit)
    else FirstError(lim, base, LinesOf(body))
  }

  predicate Chunks(lim: Limits, body: seq<Byte>, chunks: seq<Chunk>) {
    ProperChunks(lim, chunks) && Flatten(chunks) == body
  }

  // ----- prefixes of a body -----

  lemma PrefixOfBody(chunks: seq<Chunk>, i: nat)
    requires i <= |chunks|
    ensures |Flatten(chunks[..i])| <= |Flatten(chunks)|
    ensures Flatten(chunks[..i]) == Flatten(chunks)[..|Flatten(chunks[..i])|]
  {
    hide Flatten;
    assert chunks == chunks[..i] + chunks[i..];
    FlattenAppend(chunks[..i], chunks[i..]);
  }

  /** Wherever a prefix carries too much with nothing refused yet, it carries part of the first refused line. */
  lemma OverlongIsCulprit(lim: Limits, base: nat, body: seq<Byte>, k: nat)
    requires k <= |body| && |Remainder(body[..k])| > lim.maxLineBytes
    requires FirstError(lim, base, TerminatedLines(body[..k])).None?
    ensures Breaks(lim, base, body) && |TerminatedLines(body[..k])| == Before(lim, base, body)
    ensures TerminatedLines(body[..k]) == LinesOf(body)[..Before(lim, base, body)]
    ensures |Culprit(lim, base, body).bytes| >= |Remainder(body[..k])|
  {
    hide LinesOf, TerminatedLines, Remainder, FirstError, Accepted, ParseLine;
    var x, y := body[..k], body[k..];
    var done, later, all := TerminatedLines(x), LinesOf(Remainder(x) + y), LinesOf(body);
    assert body == x + y;
    LinesConcat(x, y);
    RemainderClean(x);
    FirstLine(Remainder(x), y);
    assert all == done + later && all[|done|] == later[0];
    AcceptedMeans(lim, base, done);
    OverlongIsRefused(lim, base + |done| + 1, later[0].bytes);
    assert forall i :: 0 <= i < |done| ==> all[i] == done[i];
    AcceptedIs(lim, base, all, |done|);
  }

  lemma OverlongIsRefused(lim: Limits, observed: nat, line: seq<Byte>)
    requires |line| > lim.maxLineBytes
    ensures Verdict(lim, observed, line)
            == Some(if observed > lim.maxPhysicalLines then PhysicalLineLimit else LineLimit)
  {
  }

  /** A line over the count is refused for that whatever else it is, and a short one never for its length. */
  lemma VerdictOf(lim: Limits, observed: nat, line: seq<Byte>)
    ensures observed > lim.maxPhysicalLines ==> Verdict(lim, observed, line) == Some(PhysicalLineLimit)
    ensures Verdict(lim, observed, line) == Some(PhysicalLineLimit) ==> observed > lim.maxPhysicalLines
  {
  }

  lemma FirstErrorIsCulprits(lim: Limits, base: nat, body: seq<Byte>)
    ensures Breaks(lim, base, body) ==>
              FirstError(lim, base, LinesOf(body))
              == Verdict(lim, base + Before(lim, base, body) + 1, Culprit(lim, base, body).bytes)
    ensures !Breaks(lim, base, body) ==> FirstError(lim, base, LinesOf(body)) == None
  {
  }

  /** Where the first refused line starts. */
  ghost function StartOf(lim: Limits, base: nat, body: seq<Byte>): nat
    requires Breaks(lim, base, body)
  {
    |Terminated(Split(body, NEWLINE)[..PieceCount(lim, base, body)], NEWLINE)|
  }

  ghost function PieceCount(lim: Limits, base: nat, body: seq<Byte>): (n: nat)
    requires Breaks(lim, base, body)
    ensures n == Before(lim, base, body) && n < |Split(body, NEWLINE)|
  {
    LineIsPiece(body, Before(lim, base, body));
    Before(lim, base, body)
  }

  lemma LineIsPiece(body: seq<Byte>, n: nat)
    requires n < |LinesOf(body)|
    ensures n < |Split(body, NEWLINE)| && LinesOf(body)[n].bytes == Split(body, NEWLINE)[n]
    ensures LinesOf(body)[n].terminated <==> n < |Split(body, NEWLINE)| - 1
    ensures n <= |TerminatedLines(body)| && LinesOf(body)[..n] == Complete(Split(body, NEWLINE)[..n])
  {
    hide Split;
    var p := Split(body, NEWLINE);
    assert p[..|p| - 1][..if n <= |p| - 1 then n else |p| - 1] == p[..if n <= |p| - 1 then n else |p| - 1];
  }

  /** The pieces before and after a place in a list of pieces, in bytes. */
  lemma BodyAround(body: seq<Byte>, n: nat)
    requires n < |Split(body, NEWLINE)|
    ensures var p := Split(body, NEWLINE);
            var start := |Terminated(p[..n], NEWLINE)|;
            && start + |p[n]| <= |body|
            && body[..start] == Terminated(p[..n], NEWLINE) && body[start..start + |p[n]|] == p[n]
            && (n < |p| - 1 ==> start + |p[n]| < |body| && body[start + |p[n]|] == NEWLINE)
            && (n == |p| - 1 ==> start + |p[n]| == |body|)
            && Clean(p, NEWLINE)
  {
    hide Split;
    var p := Split(body, NEWLINE);
    SplitClean(body, NEWLINE);
    SplitRestores(body, NEWLINE);
    var pre := Terminated(p[..n], NEWLINE);
    if n < |p| - 1 {
      var post := p[n + 1..|p| - 1];
      assert p[..|p| - 1] == p[..n] + ([p[n]] + post);
      TerminatedAppend(p[..n], [p[n]] + post, NEWLINE);
      TerminatedFirst(p[n], post);
      assert body == pre + (p[n] + [NEWLINE] + Terminated(post, NEWLINE)) + p[|p| - 1];
      ThreeParts(pre, p[n], [NEWLINE] + Terminated(post, NEWLINE) + p[|p| - 1]);
      assert body == pre + p[n] + ([NEWLINE] + Terminated(post, NEWLINE) + p[|p| - 1]);
    } else {
      assert body == pre + p[n];
      ThreeParts(pre, p[n], []);
      assert body == pre + p[n] + [];
    }
  }

  lemma TerminatedFirst(line: seq<Byte>, more: seq<seq<Byte>>)
    ensures Terminated([line] + more, NEWLINE) == line + [NEWLINE] + Terminated(more, NEWLINE)
  {
    assert ([line] + more)[1..] == more;
  }

  /** A prefix that ends inside a piece has the earlier pieces as its lines and carries the part of the piece it has. */
  lemma PrefixInside(body: seq<Byte>, n: nat, k: nat)
    requires n < |Split(body, NEWLINE)|
    requires var start := |Terminated(Split(body, NEWLINE)[..n], NEWLINE)|;
             start <= k <= start + |Split(body, NEWLINE)[n]|
    ensures k <= |body|
    ensures TerminatedLines(body[..k]) == Complete(Split(body, NEWLINE)[..n])
    ensures |Remainder(body[..k])| == k - |Terminated(Split(body, NEWLINE)[..n], NEWLINE)|
  {
    hide Split, TerminatedLines, Remainder, Complete, Terminated;
    BodyAround(body, n);
    var p := Split(body, NEWLINE);
    var start := |Terminated(p[..n], NEWLINE)|;
    var part := body[start..k];
    assert part == p[n][..k - start];
    assert body[..k] == Terminated(p[..n], NEWLINE) + part;
    assert NEWLINE !in p[n] && NEWLINE !in part;
    SplitAfterLines(p[..n], NEWLINE, part);
    OnePiece(part);
    var q := p[..n] + [part];
    LinesOfPieces(body[..k], q);
    assert q[..|q| - 1] == p[..n];
  }

  lemma OnePiece(part: seq<Byte>)
    requires NEWLINE !in part
    ensures Split(part, NEWLINE) == [part]
  {
    assert Find(part, NEWLINE) == |part|;
  }

  /** A prefix that ends after a terminated piece has it among its lines. */
  lemma PrefixBeyond(body: seq<Byte>, n: nat, k: nat)
    requires n < |Split(body, NEWLINE)| - 1 && k <= |body|
    requires k > |Terminated(Split(body, NEWLINE)[..n], NEWLINE)| + |Split(body, NEWLINE)[n]|
    ensures |TerminatedLines(body[..k])| > n
  {
    hide Split, TerminatedLines, Remainder, Complete, Terminated;
    BodyAround(body, n);
    var p := Split(body, NEWLINE);
    var end := |Terminated(p[..n], NEWLINE)| + |p[n]| + 1;
    assert p[..n + 1] == p[..n] + [p[n]];
    TerminatedAppend(p[..n], [p[n]], NEWLINE);
    OneTerminated(p[n]);
    assert body[..k] == Terminated(p[..n + 1], NEWLINE) + body[end..k];
    SplitAfterLines(p[..n + 1], NEWLINE, body[end..k]);
    var q := p[..n + 1] + Split(body[end..k], NEWLINE);
    LinesOfPieces(body[..k], q);
  }

  lemma OneTerminated(line: seq<Byte>)
    ensures Terminated([line], NEWLINE) == line + [NEWLINE]
  {
    assert [line][1..] == [];
  }

  /** A prefix's lines and carry account for its length. */
  lemma PrefixLength(body: seq<Byte>)
    ensures |body| == |Terminated(Split(body, NEWLINE)[..|Split(body, NEWLINE)| - 1], NEWLINE)| + |Remainder(body)|
    ensures TerminatedLines(body) == Complete(Split(body, NEWLINE)[..|Split(body, NEWLINE)| - 1])
  {
    SplitRestores(body, NEWLINE);
  }

  lemma CompleteInjective(a: seq<seq<Byte>>, b: seq<seq<Byte>>)
    requires Complete(a) == Complete(b)
    ensures a == b
  {
    assert |a| == |Complete(a)| == |Complete(b)| == |b|;
    forall i | 0 <= i < |a|
      ensures a[i] == b[i]
    {
      assert Complete(a)[i] == Complete(b)[i];
    }
  }

  // ----- the error of one chunking -----

  /**
   For a proper chunking of a body the error is decided by the carry at its boundaries,
   and then by the body's lines.
   */
  lemma ErrorOfProper(lim: Limits, base: nat, body: seq<Byte>, chunks: seq<Chunk>)
    requires Chunks(lim, body, chunks)
    ensures ErrorOf(lim, base, chunks)
            == if CarriedTooLong(lim, base, chunks) then Some(LineLimit) else FirstError(lim, base, LinesOf(body))
    ensures CarriedTooLong(lim, base, chunks) <==> exists i :: 0 < i <= |chunks| && OverlongCarry(lim, base, chunks, i)
  {
    hide LinesOf, FirstError, OverlongCarry, ProperChunks;
    ProperChunksOfferTheBody(lim, chunks);
  }

  lemma CarryIsCulprit(lim: Limits, base: nat, body: seq<Byte>, chunks: seq<Chunk>)
    requires Chunks(lim, body, chunks) && CarriedTooLong(lim, base, chunks)
    ensures Breaks(lim, base, body) && |Culprit(lim, base, body).bytes| > lim.maxLineBytes
  {
    hide LinesOf, FirstError, TerminatedLines, Remainder, ProperChunks, Before, Flatten;
    ErrorOfProper(lim, base, body, chunks);
    var i :| 0 < i <= |chunks| && OverlongCarry(lim, base, chunks, i);
    PrefixOfBody(chunks, i);
    OverlongIsCulprit(lim, base, body, |Flatten(chunks[..i])|);
  }

  /** The lines before the first refused one are accepted by themselves. */
  lemma LinesBeforeAreAccepted(lim: Limits, base: nat, body: seq<Byte>)
    requires Breaks(lim, base, body)
    ensures FirstError(lim, base, LinesOf(body)[..Before(lim, base, body)]).None?
  {
    hide LinesOf, Accepted;
    AcceptedMeans(lim, base, LinesOf(body));
    AcceptedIs(lim, base, LinesOf(body)[..Before(lim, base, body)], Before(lim, base, body));
  }

  /** A chunk boundary inside the over-long part of the refused line is an over-long carry. */
  lemma BoundaryInsideCulprit(lim: Limits, base: nat, body: seq<Byte>, chunks: seq<Chunk>, i: nat)
    requires Chunks(lim, body, chunks) && Breaks(lim, base, body) && 0 < i <= |chunks|
    requires StartOf(lim, base, body) + lim.maxLineBytes < |Flatten(chunks[..i])|
    requires |Flatten(chunks[..i])| <= StartOf(lim, base, body) + |Culprit(lim, base, body).bytes|
    ensures ErrorOf(lim, base, chunks) == Some(LineLimit)
  {
    hide LinesOf, FirstError, TerminatedLines, Remainder, ProperChunks, Flatten, Split, Complete, Accepted;
    var n, k := Before(lim, base, body), |Flatten(chunks[..i])|;
    LineIsPiece(body, n);
    PrefixOfBody(chunks, i);
    PrefixInside(body, n, k);
    LinesBeforeAreAccepted(lim, base, body);
    assert OverlongCarry(lim, base, chunks, i);
    ErrorOfProper(lim, base, body, chunks);
  }

  /** Some boundary falls in any stretch at least one chunk long. */
  lemma {:induction false} SomeBoundary(lim: Limits, chunks: seq<Chunk>, from: nat, to: nat, i: nat) returns (j: nat)
    requires ProperChunks(lim, chunks) && i <= |chunks| && |Flatten(chunks[..i])| <= from < |Flatten(chunks)|
    requires from + DOWNLOAD_CHUNK_BYTES <= to
    ensures 0 < j <= |chunks| && from < |Flatten(chunks[..j])| <= to
    decreases |chunks| - i
  {
    hide Flatten;
    assert chunks[..|chunks|] == chunks;
    FlattenSnoc(chunks, i);
    if |Flatten(chunks[..i + 1])| > from {
      j := i + 1;
    } else {
      j := SomeBoundary(lim, chunks, from, to, i + 1);
    }
  }

  lemma CulpritInBody(lim: Limits, base: nat, body: seq<Byte>)
    requires Breaks(lim, base, body)
    ensures var start, line := StartOf(lim, base, body), Culprit(lim, base, body);
            && start + |line.bytes| <= |body|
            && (line.terminated ==> start + |line.bytes| < |body|)
            && (!line.terminated ==> start + |line.bytes| == |body|)
  {
    hide LinesOf, Split, Accepted;
    LineIsPiece(body, Before(lim, base, body));
    BodyAround(body, Before(lim, base, body));
  }

  /**
   An over-long refused line that is not terminated, or is at least a chunk too long, is
   always caught in the carry.
   */
  lemma AlwaysCarried(lim: Limits, base: nat, body: seq<Byte>, chunks: seq<Chunk>)
    requires Chunks(lim, body, chunks) && Breaks(lim, base, body) && |Culprit(lim, base, body).bytes| > lim.maxLineBytes
    requires Culprit(lim, base, body).terminated ==>
               |Culprit(lim, base, body).bytes| >= lim.maxLineBytes + DOWNLOAD_CHUNK_BYTES
    ensures ErrorOf(lim, base, chunks) == Some(LineLimit)
  {
    hide LinesOf, Flatten, Before, StartOf, ErrorOf;
    var start, line := StartOf(lim, base, body), Culprit(lim, base, body);
    CulpritInBody(lim, base, body);
    if line.terminated {
      NoBytes(chunks);
      var i := SomeBoundary(lim, chunks, start + lim.maxLineBytes, start + |line.bytes|, 0);
      BoundaryInsideCulprit(lim, base, body, chunks, i);
    } else {
      assert chunks[..|chunks|] == chunks;
      NoBytes(chunks);
      BoundaryInsideCulprit(lim, base, body, chunks, |chunks|);
    }
  }

  lemma NoBytes(chunks: seq<Chunk>)
    ensures Flatten(chunks[..0]) == [] && (chunks == [] ==> Flatten(chunks) == [])
  {
  }

  /** Unless the body is ambiguous, its category is the same for every proper chunking. */
  lemma UnambiguousIsFixed(lim: Limits, base: nat, body: seq<Byte>, chunks: seq<Chunk>)
    requires Chunks(lim, body, chunks) && !Ambiguous(lim, base, body)
    ensures ErrorOf(lim, base, chunks) == Category(lim, base, body)
  {
    hide LinesOf, Before, FirstError, Chunks, CarriedTooLong, ErrorOf, Verdict;
    ErrorOfProper(lim, base, body, chunks);
    FirstErrorIsCulprits(lim, base, body);
    if CarriedTooLong(lim, base, chunks) {
      CarryIsCulprit(lim, base, body, chunks);
    }
    if Breaks(lim, base, body) && |Culprit(lim, base, body).bytes| > lim.maxLineBytes {
      OverlongIsRefused(lim, base + Before(lim, base, body) + 1, Culprit(lim, base, body).bytes);
      if base + Before(lim, base, body) + 1 > lim.maxPhysicalLines {
        AlwaysCarried(lim, base, body, chunks);
      }
    }
  }

  // ----- two chunkings of an ambiguous body -----

  function ByteByByte(bytes: seq<Byte>): (chunks: seq<Chunk>)
    ensures |chunks| == |bytes|
  {
    seq(|bytes|, i requires 0 <= i < |bytes| => ByteChunk([bytes[i]]))
  }

  lemma {:induction false} ByteByByteIsProper(bytes: seq<Byte>)
    ensures Flatten(ByteByByte(bytes)) == bytes
    ensures forall i :: 0 <= i < |bytes| ==> ByteByByte(bytes)[i].ByteChunk? && |ByteByByte(bytes)[i].bytes| == 1
  {
    if bytes != [] {
      ByteByByteIsProper(bytes[1..]);
      assert ByteByByte(bytes)[1..] == ByteByByte(bytes[1..]);
    }
  }

  lemma ByteByBytePrefix(bytes: seq<Byte>, i: nat)
    requires i <= |bytes|
    ensures Flatten(ByteByByte(bytes)[..i]) == bytes[..i]
  {
    hide Flatten;
    ByteByByteIsProper(bytes[..i]);
    assert ByteByByte(bytes)[..i] == ByteByByte(bytes[..i]);
  }

  /** Byte by byte, an ambiguous body breaks the line limit. */
  lemma ByteByByteBreaksLength(lim: Limits, base: nat, body: seq<Byte>)
    requires |body| <= lim.maxDownloadBytes && Ambiguous(lim, base, body)
    ensures Chunks(lim, body, ByteByByte(body)) && ErrorOf(lim, base, ByteByByte(body)) == Some(LineLimit)
  {
    hide LinesOf, Flatten, Before, StartOf, ErrorOf;
    ByteByByteIsProper(body);
    CulpritInBody(lim, base, body);
    var i := StartOf(lim, base, body) + lim.maxLineBytes + 1;
    ByteByBytePrefix(body, i);
    BoundaryInsideCulprit(lim, base, body, ByteByByte(body), i);
  }

  /** One chunk across the refused line's end, and single bytes around it. */
  function Straddling(body: seq<Byte>, from: nat, to: nat): seq<Chunk>
    requires from < to <= |body|
  {
    ByteByByte(body[..from]) + [ByteChunk(body[from..to])] + ByteByByte(body[to..])
  }

  lemma StraddlingIsProper(lim: Limits, body: seq<Byte>, from: nat, to: nat)
    requires from < to <= |body| <= lim.maxDownloadBytes && to - from <= DOWNLOAD_CHUNK_BYTES
    ensures Chunks(lim, body, Straddling(body, from, to))
  {
    hide Flatten;
    ByteByByteIsProper(body[..from]);
    ByteByByteIsProper(body[to..]);
    FlattenOne(ByteChunk(body[from..to]));
    FlattenAppend(ByteByByte(body[..from]), [ByteChunk(body[from..to])]);
    FlattenAppend(ByteByByte(body[..from]) + [ByteChunk(body[from..to])], ByteByByte(body[to..]));
    assert body == body[..from] + body[from..to] + body[to..];
  }

  lemma FlattenOne(c: Chunk)
    ensures Flatten([c]) == Content(c)
  {
    assert Flatten([c]) == Content(c) + Flatten([c][1..]);
  }

  /** Its boundaries are outside the stretch that the large chunk covers. */
  lemma StraddlingBoundary(body: seq<Byte>, from: nat, to: nat, i: nat)
    requires from < to <= |body| && i <= |Straddling(body, from, to)|
    ensures |Flatten(Straddling(body, from, to)[..i])| <= from || |Flatten(Straddling(body, from, to)[..i])| >= to
  {
    hide Flatten;
    var a, b, c := ByteByByte(body[..from]), [ByteChunk(body[from..to])], ByteByByte(body[to..]);
    var chunks := Straddling(body, from, to);
    if i <= from {
      assert chunks[..i] == a[..i];
      ByteByBytePrefix(body[..from], i);
    } else {
      assert chunks[..i] == a + b + c[..i - from - 1];
      ByteByByteIsProper(body[..from]);
      FlattenOne(b[0]);
      FlattenAppend(a, b);
      FlattenAppend(a + b, c[..i - from - 1]);
    }
  }

  /** Cut so, an ambiguous body breaks the line count instead. */
  lemma StraddlingBreaksCount(lim: Limits, base: nat, body: seq<Byte>)
    requires |body| <= lim.maxDownloadBytes && Ambiguous(lim, base, body)
    ensures var from := StartOf(lim, base, body) + lim.maxLineBytes;
            var to := StartOf(lim, base, body) + |Culprit(lim, base, body).bytes| + 1;
            && from < to <= |body| && Chunks(lim, body, Straddling(body, from, to))
            && ErrorOf(lim, base, Straddling(body, from, to)) == Some(PhysicalLineLimit)
  {
    hide LinesOf, Flatten, FirstError, Straddling, Chunks, ErrorOf, OverlongCarry, StartOf, Verdict, Before;
    CulpritInBody(lim, base, body);
    var from := StartOf(lim, base, body) + lim.maxLineBytes;
    var to := StartOf(lim, base, body) + |Culprit(lim, base, body).bytes| + 1;
    var chunks := Straddling(body, from, to);
    StraddlingIsProper(lim, body, from, to);
    ErrorOfProper(lim, base, body, chunks);
    FirstErrorIsCulprits(lim, base, body);
    VerdictOf(lim, base + Before(lim, base, body) + 1, Culprit(lim, base, body).bytes);
    forall i | 0 < i <= |chunks|
      ensures !OverlongCarry(lim, base, chunks, i)
    {
      StraddlingBoundary(body, from, to, i);
      OutsideIsNotOverlong(lim, base, body, chunks, i);
    }
  }

  /** A boundary no further than the permitted part of the refused line, or past its end, is no over-long carry. */
  lemma OutsideIsNotOverlong(lim: Limits, base: nat, body: seq<Byte>, chunks: seq<Chunk>, i: nat)
    requires Chunks(lim, body, chunks) && Breaks(lim, base, body) && Culprit(lim, base, body).terminated
             && i <= |chunks|
    requires var k := |Flatten(chunks[..i])|;
             || k <= StartOf(lim, base, body) + lim.maxLineBytes
             || k > StartOf(lim, base, body) + |Culprit(lim, base, body).bytes|
    ensures !OverlongCarry(lim, base, chunks, i)
  {
    hide LinesOf, Flatten, FirstError, TerminatedLines, Remainder, Split, Complete, Accepted;
    var n, k := Before(lim, base, body), |Flatten(chunks[..i])|;
    PrefixOfBody(chunks, i);
    LineIsPiece(body, n);
    if k > StartOf(lim, base, body) + |Culprit(lim, base, body).bytes| {
      PrefixBeyond(body, n, k);
    }
    if OverlongCarry(lim, base, chunks, i) {
      OverlongIsInside(lim, base, body, k);
    }
  }

  /** An over-long carry ends beyond the permitted part of the refused line, with no more lines complete. */
  lemma OverlongIsInside(lim: Limits, base: nat, body: seq<Byte>, k: nat)
    requires k <= |body| && |Remainder(body[..k])| > lim.maxLineBytes
    requires FirstError(lim, base, TerminatedLines(body[..k])).None?
    ensures Breaks(lim, base, body) && |TerminatedLines(body[..k])| == Before(lim, base, body)
    ensures k > StartOf(lim, base, body) + lim.maxLineBytes
  {
    hide LinesOf, FirstError, TerminatedLines, Remainder, Split, Complete, Accepted;
    OverlongIsCulprit(lim, base, body, k);
    LineIsPiece(body, Before(lim, base, body));
    var p, q := Split(body, NEWLINE), Split(body[..k], NEWLINE);
    PrefixLength(body[..k]);
    CompleteInjective(q[..|q| - 1], p[..Before(lim, base, body)]);
  }

  /**
   The error category of a body within the download limit does not depend on how
   it was cut into chunks if and only if the body is not ambiguous.
   */
  lemma CategoryIsFixedIff(lim: Limits, base: nat, body: seq<Byte>)
    requires |body| <= lim.maxDownloadBytes
    ensures (forall a, b :: Chunks(lim, body, a) && Chunks(lim, body, b) ==>
               ErrorOf(lim, base, a) == ErrorOf(lim, base, b))
      <==> !Ambiguous(lim, base, body)
  {
    hide Ambiguous, Chunks, ErrorOf;
    if Ambiguous(lim, base, body) {
      ByteByByteBreaksLength(lim, base, body);
      StraddlingBreaksCount(lim, base, body);
    } else {
      forall a, b | Chunks(lim, body, a) && Chunks(lim, body, b)
        ensures ErrorOf(lim, base, a) == ErrorOf(lim, base, b)
      {
        UnambiguousIsFixed(lim, base, body, a);
        UnambiguousIsFixed(lim, base, body, b);
      }
    }
  }

  // ----- one body of each kind -----

  const DOUBLE_A: seq<Byte> := [97, 97, NEWLINE]

  lemma LinesOfDoubleA()
    ensures LinesOf(DOUBLE_A) == [RawLine([97, 97], true)]
  {
    SplitFirst([97, 97], NEWLINE, []);
    assert [97, 97] + [NEWLINE] + [] == DOUBLE_A;
    OnePiece([]);
    var p := [[97, 97], []];
    assert Split(DOUBLE_A, NEWLINE) == p && p[..1] == [[97, 97]];
  }

  /**
   Two bytes and a newline under a line limit of one, on the line that breaks the count:
   two chunkings, two categories.
   */
  lemma CategoryDepends(lim: Limits)
    requires lim.maxLineBytes == 1 && lim.maxDownloadBytes >= 3
    ensures exists a, b :: Chunks(lim, DOUBLE_A, a) && Chunks(lim, DOUBLE_A, b)
                           && ErrorOf(lim, lim.maxPhysicalLines, a) == Some(LineLimit)
                           && ErrorOf(lim, lim.maxPhysicalLines, b) == Some(PhysicalLineLimit)
  {
    hide LinesOf, Chunks, ErrorOf;
    var base: nat := lim.maxPhysicalLines;
    LinesOfDoubleA();
    OverlongIsRefused(lim, base + 1, [97, 97]);
    AcceptedIs(lim, base, LinesOf(DOUBLE_A), 0);
    assert Ambiguous(lim, base, DOUBLE_A);
    ByteByByteBreaksLength(lim, base, DOUBLE_A);
    StraddlingBreaksCount(lim, base, DOUBLE_A);
  }

  /** Two newlines under a download limit of one: a line is delivered before the error, or none. */
  lemma DeliveryDepends(lim: Limits, base: nat)
    requires lim.maxDownloadBytes == 1 && base < lim.maxPhysicalLines
    ensures var apart, together := [ByteChunk([NEWLINE]), ByteChunk([NEWLINE])], [ByteChunk([NEWLINE, NEWLINE])];
            && Flatten(apart) == Flatten(together)
            && |FileLines(lim, base, Source(None, apart))| == 1 && |FileLines(lim, base, Source(None, together))| == 0
            && ErrorOf(lim, base, apart) == ErrorOf(lim, base, together) == Some(DownloadLimit)
  {
    var apart, together := [ByteChunk([NEWLINE]), ByteChunk([NEWLINE])], [ByteChunk([NEWLINE, NEWLINE])];
    FlattenOne(apart[1]);
    FlattenOne(together[0]);
    assert apart[1..] == [apart[1]];
    assert Flatten(apart) == [NEWLINE] + [NEWLINE];
    ApartDelivers(lim, base, apart);
    TogetherDelivers(lim, base, together);
  }

  lemma NothingCarried(lim: Limits, base: nat, chunks: seq<Chunk>, body: seq<Byte>)
    requires Usable(lim, 0, chunks) == |chunks| - 1 && body == Body(lim, chunks)
    requires |body| <= 1 && (body == [] || body == [NEWLINE])
    ensures TerminatedLines(body) == (if body == [] then [] else [RawLine([], true)])
            && !CarriedTooLong(lim, base, chunks)
  {
    SplitFirst([], NEWLINE, []);
    assert [] + [NEWLINE] + [] == [NEWLINE];
    OnePiece([]);
    var pieces: seq<seq<Byte>> := [[], []];
    assert pieces[..1] == [[]];
    hide TerminatedLines, Split;
    forall i | 0 < i <= Usable(lim, 0, chunks)
      ensures !OverlongCarry(lim, base, chunks, i)
    {
      var u := Usable(lim, 0, chunks);
      assert chunks[..u][..i] == chunks[..i];
      PrefixOfBody(chunks[..u], i);
      assert Flatten(chunks[..i]) == [] || Flatten(chunks[..i]) == [NEWLINE];
      PrefixLength(Flatten(chunks[..i]));
    }
  }

  lemma ApartDelivers(lim: Limits, base: nat, apart: seq<Chunk>)
    requires lim.maxDownloadBytes == 1 && base < lim.maxPhysicalLines
    requires apart == [ByteChunk([NEWLINE]), ByteChunk([NEWLINE])]
    ensures |FileLines(lim, base, Source(None, apart))| == 1 && ErrorOf(lim, base, apart) == Some(DownloadLimit)
  {
    assert apart[1..] == [apart[1]] && apart[1..][1..] == [];
    assert Usable(lim, 0, apart) == 1;
    assert apart[..1] == [apart[0]];
    FlattenOne(apart[0]);
    NothingCarried(lim, base, apart, [NEWLINE]);
    OneLine(lim, base, 0, RawLine([], true));
  }

  lemma TogetherDelivers(lim: Limits, base: nat, together: seq<Chunk>)
    requires lim.maxDownloadBytes == 1 && together == [ByteChunk([NEWLINE, NEWLINE])]
    ensures |FileLines(lim, base, Source(None, together))| == 0 && ErrorOf(lim, base, together) == Some(DownloadLimit)
  {
    assert Usable(lim, 0, together) == 0;
    assert together[..0] == [];
    NothingCarried(lim, base, together, []);
  }
}
