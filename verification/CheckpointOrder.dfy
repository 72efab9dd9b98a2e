/** The checkpoints a stream produces are valid and strictly ordered. */
module CheckpointOrder {
  import opened Framing
  import opened LineStream
  import opened CheckpointedStream
  import opened Sequences

  const POSTGRES_BIGINT_MAX: nat := 0x7FFF_FFFF_FFFF_FFFF

  /** Lines read since the current file was opened. */
  function FileLineCount(es: seq<StreamEvent>): nat {
    if es == [] || es[|es| - 1].OpenFile? then 0 else FileLineCount(es[..|es| - 1]) + 1
  }

  /** Files carry valid ids, and lines are numbered from one within their file. */
  predicate WellFormed(rules: IdentifierRules, es: seq<StreamEvent>) {
    es == [] ||
    var before, e := es[..|es| - 1], es[|es| - 1];
    && WellFormed(rules, before)
    && match e
       case OpenFile(_, fileId) => rules.resourceId(fileId)
       case PhysicalLine(number, _, _) => before != [] && number == FileLineCount(before) + 1
  }

  lemma {:induction false} CountsAreOrdered(lim: Limits, rules: IdentifierRules, es: seq<StreamEvent>)
    requires WellFormed(rules, es)
    ensures FileLineCount(es) <= LineCount(es) && RecordCount(lim, es) <= LineCount(es)
    ensures es != [] ==> rules.resourceId(CurrentFile(es).1)
  {
    if es != [] {
      CountsAreOrdered(lim, rules, es[..|es| - 1]);
    }
  }

  /** Every checkpoint built while iterating satisfies the checkpoint constructor. */
  lemma {:induction false} ItemsAreValid(lim: Limits, rules: IdentifierRules, id: StreamId, es: seq<StreamEvent>)
    requires WellFormed(rules, es) && rules.resourceId(id.batchId) && rules.alias(id.endpointAlias)
    ensures forall item :: item in Items(lim, id, es) ==> ValidCheckpoint(rules, item.checkpoint)
  {
    if es != [] {
      ItemsAreValid(lim, rules, id, es[..|es| - 1]);
      CountsAreOrdered(lim, rules, es);
    }
  }

  /** Consecutive records, also across the two files, strictly raise both counts. */
  lemma {:induction false} ItemsIncrease(lim: Limits, id: StreamId, es: seq<StreamEvent>)
    ensures forall i :: 0 <= i < |Items(lim, id, es)| ==>
              && Items(lim, id, es)[i].checkpoint.recordCount == i + 1
              && Items(lim, id, es)[i].checkpoint.batchLineCount <= LineCount(es)
    ensures forall i, j :: 0 <= i < j < |Items(lim, id, es)| ==>
              Items(lim, id, es)[i].checkpoint.batchLineCount < Items(lim, id, es)[j].checkpoint.batchLineCount
  {
    if es != [] {
      ItemsIncrease(lim, id, es[..|es| - 1]);
      ItemsCount(lim, id, es[..|es| - 1]);
    }
  }

  lemma WellFormedSnoc(rules: IdentifierRules, es: seq<StreamEvent>, e: StreamEvent)
    ensures WellFormed(rules, es + [e]) <==>
              && WellFormed(rules, es)
              && (if e.OpenFile? then rules.resourceId(e.fileId) else es != [] && e.number == FileLineCount(es) + 1)
    ensures FileLineCount(es + [e]) == if e.OpenFile? then 0 else FileLineCount(es) + 1
  {
    SnocInit(es, e);
  }

  lemma {:induction false} LinesKeepWellFormed(rules: IdentifierRules, es: seq<StreamEvent>, lines: seq<StreamEvent>)
    requires WellFormed(rules, es) && es != [] && FileLineCount(es) == 0
    requires forall i :: 0 <= i < |lines| ==> lines[i].PhysicalLine? && lines[i].number == i + 1
    ensures WellFormed(rules, es + lines) && FileLineCount(es + lines) == |lines|
  {
    if lines == [] {
      assert es + lines == es;
    } else {
      var k := |lines| - 1;
      LinesKeepWellFormed(rules, es, lines[..k]);
      WellFormedSnoc(rules, es + lines[..k], lines[k]);
      AppendTakeSnoc(es, lines, k);
      AppendTakeAll(es, lines);
    }
  }

  lemma FileLinesNumbered(lim: Limits, base: nat, src: Source)
    ensures forall i :: 0 <= i < |FileLines(lim, base, src)| ==>
              FileLines(lim, base, src)[i].PhysicalLine? && FileLines(lim, base, src)[i].number == i + 1
    ensures FileLines(lim, base, src) == [] || base + |FileLines(lim, base, src)| <= lim.maxPhysicalLines
  {
    if !Announced(lim, src) {
      var raw := Offered(lim, src.chunks);
      DeliveredMeans(lim, base, 0, raw);
      AcceptedMeans(lim, base, raw);
      var n := Accepted(lim, base, raw);
      if n > 0 {
        assert Verdict(lim, base + (n - 1) + 1, raw[n - 1].bytes).None?;
      }
    }
  }

  lemma {:induction false} TraceIsWellFormed(lim: Limits, rules: IdentifierRules, seen: seq<StreamEvent>,
                                             files: seq<ProviderFile>)
    requires WellFormed(rules, seen) && LineCount(seen) <= lim.maxPhysicalLines
    ensures var trace := TraceFrom(lim, rules, LineCount(seen), files);
            && WellFormed(rules, seen + trace.events)
            && LineCount(seen + trace.events) <= lim.maxPhysicalLines
    decreases |files|
  {
    hide FileTrace, LineCount, WellFormed;
    if files == [] {
      assert seen + [] == seen;
    } else {
      var base, f := LineCount(seen), files[0];
      var first := FileTrace(lim, rules, base, f);
      FileKeepsWellFormed(lim, rules, seen, f);
      if !first.failed {
        TraceIsWellFormed(lim, rules, seen + first.events, files[1..]);
        Associative(seen, first.events, TraceFrom(lim, rules, base + LineCount(first.events), files[1..]).events);
      }
    }
  }

  lemma FileKeepsWellFormed(lim: Limits, rules: IdentifierRules, seen: seq<StreamEvent>, f: ProviderFile)
    requires WellFormed(rules, seen) && LineCount(seen) <= lim.maxPhysicalLines
    ensures var events := FileTrace(lim, rules, LineCount(seen), f).events;
            && WellFormed(rules, seen + events)
            && LineCount(seen + events) == LineCount(seen) + LineCount(events)
            && LineCount(seen + events) <= lim.maxPhysicalLines
  {
    var base := LineCount(seen);
    var events := FileTrace(lim, rules, base, f).events;
    if events == [] {
      assert seen + events == seen;
    } else {
      var open, lines := OpenFile(f.kind, f.fileId.value), FileLines(lim, base, f.source);
      FileLinesNumbered(lim, base, f.source);
      WellFormedSnoc(rules, seen, open);
      LinesKeepWellFormed(rules, seen + [open], lines);
      LinesCounted(lim, base, f.source, open);
      SnocInit(seen, open);
      LineCountAppend(seen + [open], lines);
      Associative(seen, [open], lines);
    }
  }

  /** Everything a batch yields is valid, within the physical-line ceiling, and strictly ordered. */
  lemma BatchYieldsAreOrdered(lim: Limits, rules: IdentifierRules, id: StreamId, status: BatchStatus, i: nat, j: nat)
    requires rules.resourceId(id.batchId) && rules.alias(id.endpointAlias)
    requires i < j < |Yields(lim, id, BatchTrace(lim, rules, status))|
    ensures var ys := Yields(lim, id, BatchTrace(lim, rules, status));
            && ValidCheckpoint(rules, ys[i].checkpoint) && ValidCheckpoint(rules, ys[j].checkpoint)
            && ys[i].checkpoint.recordCount < ys[j].checkpoint.recordCount
            && ys[i].checkpoint.batchLineCount < ys[j].checkpoint.batchLineCount <= lim.maxPhysicalLines
  {
    var trace := BatchTrace(lim, rules, status);
    TraceIsWellFormed(lim, rules, [], status.files);
    assert [] + trace.events == trace.events;
    ItemsAreValid(lim, rules, id, trace.events);
    ItemsIncrease(lim, id, trace.events);
  }
}
