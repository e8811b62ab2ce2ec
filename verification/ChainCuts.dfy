/** Cut records: the accumulator that summarises the lines a prune removes, and the record it makes. */
module ChainCuts {
  import opened Common
  import opened ChainLines

  datatype Summary = Summary(
    removedFrom: Option<Digest>,
    removedTo: Option<Digest>,
    removedCount: nat,
    removedChained: nat,
    removedLegacy: nat,
    legacyTail: Option<Digest>)

  const EMPTY := Summary(None, None, 0, 0, 0, None)

  /** One removed line.  The accumulator asks only for `prevDigest`, so a cut record counts as a legacy row. */
  function Add(s: Summary, line: Line): Summary {
    match line
    case Blank => s
    case Torn(_, _) => s.(removedCount := s.removedCount + 1)
    case Row(_, prev) =>
      s.(removedCount := s.removedCount + 1,
         removedChained := s.removedChained + 1,
         removedFrom := if s.removedFrom.None? then Some(prev) else s.removedFrom,
         removedTo := Some(Of(line)))
    case _ =>
      s.(removedCount := s.removedCount + 1,
         removedLegacy := s.removedLegacy + 1,
         legacyTail := Some(Of(line)))
  }

  function Summarise(s: Summary, lines: seq<Line>): Summary
    decreases |lines|
  {
    if |lines| == 0 then s
    else Add(Summarise(s, lines[..|lines| - 1]), lines[|lines| - 1])
  }

  function Merge(target: Summary, next: Summary): Summary {
    Summary(
      if target.removedFrom.None? then next.removedFrom else target.removedFrom,
      if next.removedTo.Some? then next.removedTo else target.removedTo,
      target.removedCount + next.removedCount,
      target.removedChained + next.removedChained,
      target.removedLegacy + next.removedLegacy,
      if next.legacyTail.Some? then next.legacyTail else target.legacyTail)
  }

  /** The record a prune writes, or none when nothing removed needs accounting for. */
  function Finalize(s: Summary, cutAtMs: int): Option<CutRecord> {
    if s.removedFrom.None? || s.removedTo.None? then
      if s.removedLegacy == 0 || s.legacyTail.None? then None
      else Some(CutRecord(cutAtMs, Genesis, Genesis, s.removedCount, V2, Some(0), Some(s.removedLegacy), s.legacyTail))
    else
      Some(CutRecord(cutAtMs, s.removedFrom.value, s.removedTo.value, s.removedCount, V2,
                     Some(s.removedChained), Some(s.removedLegacy),
                     if s.removedLegacy > 0 then s.legacyTail else None))
  }

  /** The lines of several archives, oldest archive first. */
  function Flatten(archives: seq<seq<Line>>): seq<Line>
    decreases |archives|
  {
    if |archives| == 0 then [] else Flatten(archives[..|archives| - 1]) + archives[|archives| - 1]
  }

  /** Each archive summarised on its own, and the summaries merged oldest first. */
  function MergeAll(archives: seq<seq<Line>>): Summary
    decreases |archives|
  {
    if |archives| == 0 then EMPTY
    else Merge(MergeAll(archives[..|archives| - 1]), Summarise(EMPTY, archives[|archives| - 1]))
  }

  lemma {:induction false} SummariseConcat(s: Summary, a: seq<Line>, b: seq<Line>)
    ensures Summarise(s, a + b) == Summarise(Summarise(s, a), b)
    decreases |b|
  {
    if |b| == 0 {
      assert a + b == a;
    } else {
      assert (a + b)[..|a + b| - 1] == a + b[..|b| - 1];
      SummariseConcat(s, a, b[..|b| - 1]);
    }
  }

  /** Going on from a summary is the same as starting afresh and merging. */
  lemma {:induction false} SummariseIsMerge(s: Summary, lines: seq<Line>)
    ensures Summarise(s, lines) == Merge(s, Summarise(EMPTY, lines))
    decreases |lines|
  {
    if |lines| > 0 {
      SummariseIsMerge(s, lines[..|lines| - 1]);
      assert (Summarise(EMPTY, lines[..|lines| - 1]).removedFrom.None?
             ==> Merge(s, Summarise(EMPTY, lines[..|lines| - 1])).removedFrom == s.removedFrom);
    }
  }

  /** Merging is associative, and the empty summary is its unit. */
  lemma MergeIsMonoid(a: Summary, b: Summary, c: Summary)
    ensures Merge(Merge(a, b), c) == Merge(a, Merge(b, c))
    ensures Merge(EMPTY, a) == a == Merge(a, EMPTY)
  {
  }

  /** Merging the archives' summaries oldest first gives the summary of all their lines. */
  lemma {:induction false} MergedArchives(archives: seq<seq<Line>>)
    ensures MergeAll(archives) == Summarise(EMPTY, Flatten(archives))
    decreases |archives|
  {
    if |archives| > 0 {
      var last := |archives| - 1;
      MergedArchives(archives[..last]);
      SummariseConcat(EMPTY, Flatten(archives[..last]), archives[last]);
      SummariseIsMerge(Summarise(EMPTY, Flatten(archives[..last])), archives[last]);
    }
  }

  // ---------------------------------------------------------------------------
  // What a summary and its record say of the lines.
  // ---------------------------------------------------------------------------

  /** The lines that are not blank: a damaged one is counted, because the count describes what left. */
  function NonBlank(lines: seq<Line>): nat
    decreases |lines|
  {
    if |lines| == 0 then 0 else NonBlank(lines[..|lines| - 1]) + if lines[|lines| - 1].Blank? then 0 else 1
  }

  function RowCount(lines: seq<Line>): nat
    decreases |lines|
  {
    if |lines| == 0 then 0 else RowCount(lines[..|lines| - 1]) + if lines[|lines| - 1].Row? then 1 else 0
  }

  /** The lines that parse and are no chained row. */
  function UnlinkedCount(lines: seq<Line>): nat
    decreases |lines|
  {
    if |lines| == 0 then 0
    else
      var last := lines[|lines| - 1];
      UnlinkedCount(lines[..|lines| - 1]) + if Parses(last) && !last.Row? then 1 else 0
  }

  ghost predicate FirstRowAt(lines: seq<Line>, i: nat) {
    i < |lines| && lines[i].Row? && forall j :: 0 <= j < i ==> !lines[j].Row?
  }

  ghost predicate LastRowAt(lines: seq<Line>, i: nat) {
    i < |lines| && lines[i].Row? && forall j :: i < j < |lines| ==> !lines[j].Row?
  }

  predicate Unlinked(line: Line) {
    Parses(line) && !line.Row?
  }

  ghost predicate LastUnlinkedAt(lines: seq<Line>, i: nat) {
    i < |lines| && Unlinked(lines[i]) && forall j :: i < j < |lines| ==> !Unlinked(lines[j])
  }

  lemma {:induction false} CountsTold(lines: seq<Line>)
    ensures var s := Summarise(EMPTY, lines);
            && s.removedCount == NonBlank(lines) && s.removedChained == RowCount(lines)
            && s.removedLegacy == UnlinkedCount(lines)
            && (s.removedFrom.Some? <==> s.removedChained > 0) && (s.removedTo.Some? <==> s.removedChained > 0)
            && (s.legacyTail.Some? <==> s.removedLegacy > 0)
    decreases |lines|
  {
    if |lines| > 0 {
      CountsTold(lines[..|lines| - 1]);
    }
  }

  lemma {:induction false} NoneCounted(lines: seq<Line>)
    ensures RowCount(lines) == 0 <==> forall j :: 0 <= j < |lines| ==> !lines[j].Row?
    ensures UnlinkedCount(lines) == 0 <==> forall j :: 0 <= j < |lines| ==> !Unlinked(lines[j])
    decreases |lines|
  {
    if |lines| > 0 {
      var n := |lines| - 1;
      NoneCounted(lines[..n]);
      assert forall j :: 0 <= j < n ==> lines[..n][j] == lines[j];
    }
  }

  /** The counts and the ends of the lines, whatever they are. */
  lemma {:induction false} SummaryTold(lines: seq<Line>)
    ensures var s := Summarise(EMPTY, lines);
            && s.removedCount == NonBlank(lines) && s.removedChained == RowCount(lines)
            && s.removedLegacy == UnlinkedCount(lines)
            && (s.removedFrom.Some? <==> s.removedChained > 0) && (s.removedTo.Some? <==> s.removedChained > 0)
            && (s.legacyTail.Some? <==> s.removedLegacy > 0)
            && (forall i: nat :: FirstRowAt(lines, i) ==> s.removedFrom == Some(lines[i].prev))
            && (forall i: nat :: LastRowAt(lines, i) ==> s.removedTo == Some(Of(lines[i])))
            && (forall i: nat :: LastUnlinkedAt(lines, i) ==> s.legacyTail == Some(Of(lines[i])))
    decreases |lines|
  {
    CountsTold(lines);
    if |lines| > 0 {
      var n := |lines| - 1;
      var init, s := lines[..n], Summarise(EMPTY, lines);
      SummaryTold(init);
      CountsTold(init);
      NoneCounted(init);
      assert s == Add(Summarise(EMPTY, init), lines[n]);
      hide Summarise, RowCount, UnlinkedCount, NonBlank;
      assert forall i: nat :: i < n ==> lines[i] == init[i];
      forall i: nat | FirstRowAt(lines, i) ensures s.removedFrom == Some(lines[i].prev) {
        assert i < n ==> FirstRowAt(init, i);
      }
      forall i: nat | LastRowAt(lines, i) ensures s.removedTo == Some(Of(lines[i])) {
        assert i < n ==> LastRowAt(init, i);
      }
      forall i: nat | LastUnlinkedAt(lines, i) ensures s.legacyTail == Some(Of(lines[i])) {
        assert i < n ==> LastUnlinkedAt(init, i);
      }
    }
  }

  /** The record of what a prune removed: none exactly when nothing that parses was removed, and else every number
      and both ends; a record of legacy rows alone stands at genesis, and one without them names none. */
  lemma RecordTold(lines: seq<Line>, cutAtMs: int)
    ensures var record := Finalize(Summarise(EMPTY, lines), cutAtMs);
            && (record.None? <==> RowCount(lines) == 0 && UnlinkedCount(lines) == 0)
            && (record.Some? ==>
                  var c := record.value;
                  && c.version == V2 && c.cutAtMs == cutAtMs && c.removedCount == NonBlank(lines)
                  && c.removedChained == Some(RowCount(lines)) && c.removedLegacy == Some(UnlinkedCount(lines))
                  && (RowCount(lines) == 0 ==> c.removedFrom == Genesis && c.removedTo == Genesis)
                  && (UnlinkedCount(lines) == 0 <==> c.legacyTail.None?)
                  && (forall i: nat :: FirstRowAt(lines, i) ==> c.removedFrom == lines[i].prev)
                  && (forall i: nat :: LastRowAt(lines, i) ==> c.removedTo == Of(lines[i]))
                  && (forall i: nat :: LastUnlinkedAt(lines, i) ==> c.legacyTail == Some(Of(lines[i]))))
  {
    SummaryTold(lines);
    hide Summarise;
  }

  // ---------------------------------------------------------------------------
  // Text.
  // ---------------------------------------------------------------------------

  /** The first newline at or after `start`, or the length of the text. */
  function LineEnd(text: string, start: nat): (end: nat)
    requires start <= |text|
    ensures start <= end <= |text|
    ensures forall k :: start <= k < end ==> text[k] != '\n'
    ensures end < |text| ==> text[end] == '\n'
    decreases |text| - start
  {
    if start == |text| || text[start] == '\n' then start else LineEnd(text, start + 1)
  }

  /** The lines of a text: what lies between its newlines. */
  function Split(text: string): seq<string>
    decreases |text|
  {
    var end := LineEnd(text, 0);
    if end == |text| then [text] else [text[..end]] + Split(text[end + 1..])
  }

  function Join(lines: seq<string>): string
    requires |lines| > 0
  {
    if |lines| == 1 then lines[0] else lines[0] + "\n" + Join(lines[1..])
  }

  /** `Split` is the inverse of joining with newlines. */
  lemma {:induction false} SplitThenJoin(text: string)
    ensures |Split(text)| > 0 && Join(Split(text)) == text
    ensures forall k :: 0 <= k < |Split(text)| ==> '\n' !in Split(text)[k]
    decreases |text|
  {
    var end := LineEnd(text, 0);
    if end < |text| {
      SplitThenJoin(text[end + 1..]);
      assert Split(text)[1..] == Split(text[end + 1..]);
      assert text == text[..end] + "\n" + text[end + 1..];
    }
  }

  lemma {:induction false} JoinThenSplit(lines: seq<string>)
    requires |lines| > 0 && forall k :: 0 <= k < |lines| ==> '\n' !in lines[k]
    ensures Split(Join(lines)) == lines
    decreases |lines|
  {
    var text := Join(lines);
    if |lines| == 1 {
      assert LineEnd(text, 0) == |text|;
    } else {
      var end := LineEnd(text, 0);
      assert text[|lines[0]|] == '\n';
      assert forall k :: 0 <= k < |lines[0]| ==> text[k] == lines[0][k];
      assert end >= |lines[0]| by {
        assert forall k :: 0 <= k < |lines[0]| ==> lines[0][k] != '\n';
      }
      assert text[..end] == lines[0];
      assert text[end + 1..] == Join(lines[1..]);
      JoinThenSplit(lines[1..]);
    }
  }

  /** What `JSON.parse` makes of each line. */
  function Parse(parse: string -> Line, lines: seq<string>): seq<Line> {
    seq(|lines|, i requires 0 <= i < |lines| => parse(lines[i]))
  }

  // ---------------------------------------------------------------------------
  // The accumulator as the source holds it.
  // ---------------------------------------------------------------------------

  class AuditCutAccumulator {
    var removedFrom: Option<Digest>
    var removedTo: Option<Digest>
    var removedCount: nat
    var removedChained: nat
    var removedLegacy: nat
    var legacyTail: Option<Digest>

    function Value(): Summary
      reads this
    {
      Summary(removedFrom, removedTo, removedCount, removedChained, removedLegacy, legacyTail)
    }

    constructor ()
      ensures Value() == EMPTY
    {
      removedFrom, removedTo, legacyTail := None, None, None;
      removedCount, removedChained, removedLegacy := 0, 0, 0;
    }

    method AppendCutLine(line: Line)
      modifies this
      ensures Value() == Add(old(Value()), line)
    {
      if line.Blank? {
        return;
      }
      removedCount := removedCount + 1;
      if line.Torn? {
        return;
      }
      if !line.Row? {
        removedLegacy := removedLegacy + 1;
        legacyTail := Some(Of(line));
        return;
      }
      removedChained := removedChained + 1;
      if removedFrom.None? {
        removedFrom := Some(line.prev);
      }
      removedTo := Some(Of(line));
    }

    /** Every line of an archive, already split. */
    method AppendLines(lines: seq<Line>)
      modifies this
      ensures Value() == Summarise(old(Value()), lines)
    {
      for i := 0 to |lines|
        invariant Value() == Summarise(old(Value()), lines[..i])
      {
        AppendCutLine(lines[i]);
        assert lines[..i + 1][..i] == lines[..i];
      }
      assert lines[..|lines|] == lines;
    }

    /** The scan by `indexOf` visits exactly the lines of the text. */
    method AppendCutText(text: string, parse: string -> Line)
      modifies this
      ensures Value() == Summarise(old(Value()), Parse(parse, Split(text)))
    {
      hide Split, Summarise, Parse;
      var start := 0;
      NothingScanned(text, old(Value()), parse);
      ghost var done: seq<string> := [];
      while true
        invariant start <= |text|
        invariant Value() == Summarise(old(Value()), Parse(parse, done))
        invariant done + Split(text[start..]) == Split(text)
        decreases |text| - start
      {
        var end := LineEnd(text, start);
        AppendCutLine(parse(text[start..end]));
        ScanOne(text, start, done, old(Value()), parse);
        done := done + [text[start..end]];
        if end == |text| {
          break;
        }
        start := end + 1;
      }
    }

    method MergeFrom(next: Summary)
      modifies this
      ensures Value() == Merge(old(Value()), next)
    {
      removedCount := removedCount + next.removedCount;
      removedChained := removedChained + next.removedChained;
      removedLegacy := removedLegacy + next.removedLegacy;
      if next.legacyTail.Some? {
        legacyTail := next.legacyTail;
      }
      if removedFrom.None? && next.removedFrom.Some? {
        removedFrom := next.removedFrom;
      }
      if next.removedTo.Some? {
        removedTo := next.removedTo;
      }
    }
  }

  lemma NothingScanned(text: string, s: Summary, parse: string -> Line)
    ensures Summarise(s, Parse(parse, [])) == s
    ensures [] + Split(text[0..]) == Split(text)
  {
    assert text[0..] == text;
  }

  /** One turn of the scan: the line from `start` joins those already summarised. */
  lemma ScanOne(text: string, start: nat, done: seq<string>, s: Summary, parse: string -> Line)
    requires start <= |text|
    ensures var end := LineEnd(text, start);
            var next := done + [text[start..end]];
            && Summarise(s, Parse(parse, next)) == Add(Summarise(s, Parse(parse, done)), parse(text[start..end]))
            && done + Split(text[start..]) == if end == |text| then next else next + Split(text[end + 1..])
  {
    hide Split, Add, Summarise, LineEnd;
    SplitFrom(text, start);
    var line := text[start..LineEnd(text, start)];
    assert Parse(parse, done + [line]) == Parse(parse, done) + [parse(line)];
    OneMoreLine(s, Parse(parse, done), parse(line));
  }

  lemma OneMoreLine(s: Summary, lines: seq<Line>, line: Line)
    ensures Summarise(s, lines + [line]) == Add(Summarise(s, lines), line)
  {
    assert (lines + [line])[..|lines|] == lines;
  }

  /** The first line of a text from `start`, and the rest. */
  lemma SplitFrom(text: string, start: nat)
    requires start <= |text|
    ensures var end := LineEnd(text, start);
            Split(text[start..]) == [text[start..end]] + if end == |text| then [] else Split(text[end + 1..])
  {
    hide LineEnd;
    var end := LineEnd(text, start);
    var rest := text[start..];
    LineEndFrom(text, start, 0);
    assert LineEnd(rest, 0) == end - start;
    assert rest[..end - start] == text[start..end];
    if end < |text| {
      assert rest[end - start + 1..] == text[end + 1..];
    } else {
      assert rest == text[start..end];
    }
  }

  lemma {:induction false} LineEndFrom(text: string, start: nat, i: nat)
    requires start + i <= |text|
    ensures LineEnd(text[start..], i) == LineEnd(text, start + i) - start
    decreases |text| - i
  {
    if start + i < |text| && text[start + i] != '\n' {
      LineEndFrom(text, start, i + 1);
    }
  }

  /** `cutRecordFor`: the record for all the lines of one prune. */
  method CutRecordFor(removed: seq<Line>, cutAtMs: int) returns (record: Option<CutRecord>)
    ensures record == Finalize(Summarise(EMPTY, removed), cutAtMs)
  {
    var acc := new AuditCutAccumulator();
    acc.AppendLines(removed);
    record := Finalize(acc.Value(), cutAtMs);
  }
}
