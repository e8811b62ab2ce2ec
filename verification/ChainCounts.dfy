/** What the verifier's answer says, told from the lines alone: every number of an accepted log, and why and
    where any other log fails. */
module ChainCounts {
  import opened Common
  import opened ChainLines
  import opened ChainWalk
  import opened ChainFacts
  import opened ChainMeaning

  // ---------------------------------------------------------------------------
  // Counting lines.
  // ---------------------------------------------------------------------------

  function CutLines(lines: seq<Line>): nat
    decreases |lines|
  {
    if |lines| == 0 then 0
    else CutLines(lines[..|lines| - 1]) + if lines[|lines| - 1].Cut? then 1 else 0
  }

  function LegacyLines(lines: seq<Line>): nat
    decreases |lines|
  {
    if |lines| == 0 then 0
    else LegacyLines(lines[..|lines| - 1]) + if lines[|lines| - 1].Legacy? then 1 else 0
  }

  /** The chained rows a record says it removed: a version-1 record counts every line as one. */
  function RowsGone(c: CutRecord): int {
    match c.version
    case V1 => c.removedCount
    case V2 => c.removedChained.GetOr(0)
    case UnknownVersion => 0
  }

  /** The legacy rows a record says it removed: only a version-2 record says so. */
  function LegacyGone(c: CutRecord): int {
    if c.version.V2? && c.removedLegacy.Some? && c.removedLegacy.value > 0 then c.removedLegacy.value else 0
  }

  function AllRowsGone(lines: seq<Line>): int
    decreases |lines|
  {
    if |lines| == 0 then 0
    else
      var last := lines[|lines| - 1];
      AllRowsGone(lines[..|lines| - 1]) + if last.Cut? then RowsGone(last.cut) else 0
  }

  function AllLegacyGone(lines: seq<Line>): int
    decreases |lines|
  {
    if |lines| == 0 then 0
    else
      var last := lines[|lines| - 1];
      AllLegacyGone(lines[..|lines| - 1]) + if last.Cut? then LegacyGone(last.cut) else 0
  }

  /** How many chained rows there were up to here, the removed ones included. */
  function Position(lines: seq<Line>): int {
    AllRowsGone(lines) + |Chained(lines)|
  }

  /** Line `i` is the first row with digest `d`. */
  ghost predicate FirstRow(lines: seq<Line>, i: nat, d: Digest) {
    && i < |lines| && lines[i].Row? && Of(lines[i]) == d
    && forall j :: 0 <= j < i && lines[j].Row? ==> Of(lines[j]) != d
  }

  ghost predicate NoRow(lines: seq<Line>, d: Digest) {
    forall j :: 0 <= j < |lines| && lines[j].Row? ==> Of(lines[j]) != d
  }

  // ---------------------------------------------------------------------------
  // The links, line by line.
  // ---------------------------------------------------------------------------

  /** A record that takes no part in the links. */
  predicate NoLink(c: CutRecord) {
    c.version.V2? && c.removedChained == Some(0) && c.removedFrom == Genesis && c.removedTo == Genesis
  }

  /** The link of a row, and what a record that removed rows begins with. */
  function LinkOf(line: Line): Option<Digest> {
    match line
    case Row(_, prev) => Some(prev)
    case Cut(c) => if NoLink(c) then None else Some(c.removedFrom)
    case _ => None
  }

  /** The digest the next line must link to. */
  function EndOf(line: Line): Option<Digest> {
    match line
    case Row(_, _) => Some(Of(line))
    case Cut(c) => if NoLink(c) then None else Some(c.removedTo)
    case _ => None
  }

  function FirstLink(lines: seq<Line>): Option<Digest>
    decreases |lines|
  {
    if |lines| == 0 then None
    else
      var before := FirstLink(lines[..|lines| - 1]);
      if before.Some? then before else LinkOf(lines[|lines| - 1])
  }

  function LastEnd(lines: seq<Line>): Option<Digest>
    decreases |lines|
  {
    if |lines| == 0 then None
    else
      var end := EndOf(lines[|lines| - 1]);
      if end.Some? then end else LastEnd(lines[..|lines| - 1])
  }

  /** The last legacy row, or what the last record that removed legacy rows names as that. */
  function LegacyEnd(lines: seq<Line>): Option<Digest>
    decreases |lines|
  {
    if |lines| == 0 then None
    else
      var last := lines[|lines| - 1];
      if last.Legacy? then Some(Of(last))
      else if last.Cut? && LegacyGone(last.cut) > 0 then last.cut.legacyTail
      else LegacyEnd(lines[..|lines| - 1])
  }

  /** The link a row after `lines` carries. */
  function NextLink(lines: seq<Line>): Digest {
    if LastEnd(lines).Some? then LastEnd(lines).value else LegacyEnd(lines).GetOr(Genesis)
  }

  // ---------------------------------------------------------------------------
  // The walk.
  // ---------------------------------------------------------------------------

  ghost predicate StandsTold(s: Standing, lines: seq<Line>) {
    && (s.begun <==> LastEnd(lines).Some?)
    && (s.begun <==> FirstLink(lines).Some?)
    && (s.begun ==> LastEnd(lines) == Some(s.expected))
    && s.legacyTail == LegacyEnd(lines)
    && s.transition == (match FirstLink(lines)
                        case None => None
                        case Some(link) => Some(if link == Genesis then FromGenesis else FromLegacyTail))
  }

  /** The probe is found at the position of the first row that has its digest, and not when there is none. */
  ghost predicate FoundTold(foundAt: Option<int>, lines: seq<Line>, probe: Option<Digest>) {
    && (foundAt.None? <==> probe.None? || NoRow(lines, probe.value))
    && (foundAt.Some? ==>
          && probe.Some?
          && exists i: nat ::
               i < |lines| && FirstRow(lines, i, probe.value) && foundAt.value == Position(lines[..i]) + 1)
  }

  ghost predicate TallyTold(t: Tally, lines: seq<Line>, probe: Option<Digest>) {
    && t.entries == |Chained(lines)|
    && t.cuts == CutLines(lines)
    && t.unchainedPrefix == LegacyLines(lines)
    && t.prunedThrough == AllRowsGone(lines)
    && t.prunedLegacy == AllLegacyGone(lines)
    && FoundTold(t.foundAt, lines, probe)
  }

  lemma OneLineTold(s: Standing, lines: seq<Line>, line: Line)
    requires StandsTold(s, lines) && Parses(line) && Fault(s, line).None?
    ensures StandsTold(Move(s, line), lines + [line])
  {
    assert (lines + [line])[..|lines|] == lines;
  }

  lemma OtherLineTold(s: Standing, lines: seq<Line>, line: Line)
    requires StandsTold(s, lines) && !Parses(line)
    ensures StandsTold(s, lines + [line])
  {
    assert (lines + [line])[..|lines|] == lines;
  }

  lemma SnocCounts(lines: seq<Line>, line: Line)
    ensures var all := lines + [line];
            && Chained(all) == Chained(lines) + (if line.Row? then [Of(line)] else [])
            && CutLines(all) == CutLines(lines) + (if line.Cut? then 1 else 0)
            && LegacyLines(all) == LegacyLines(lines) + (if line.Legacy? then 1 else 0)
            && AllRowsGone(all) == AllRowsGone(lines) + (if line.Cut? then RowsGone(line.cut) else 0)
            && AllLegacyGone(all) == AllLegacyGone(lines) + (if line.Cut? then LegacyGone(line.cut) else 0)
  {
    assert (lines + [line])[..|lines|] == lines;
  }

  lemma FirstRowSnoc(lines: seq<Line>, line: Line, d: Digest)
    ensures NoRow(lines + [line], d) <==> NoRow(lines, d) && !(line.Row? && Of(line) == d)
    ensures forall i: nat ::
              FirstRow(lines, i, d) ==> FirstRow(lines + [line], i, d) && (lines + [line])[..i] == lines[..i]
    ensures NoRow(lines, d) && line.Row? && Of(line) == d ==>
              FirstRow(lines + [line], |lines|, d) && (lines + [line])[..|lines|] == lines
  {
    var all := lines + [line];
    assert all[|lines|] == line;
    assert forall j :: 0 <= j < |lines| ==> all[j] == lines[j];
    forall i: nat | FirstRow(lines, i, d) ensures FirstRow(all, i, d) && all[..i] == lines[..i] {
    }
  }

  lemma OneLineCounted(t: Tally, lines: seq<Line>, probe: Option<Digest>, line: Line)
    requires TallyTold(t, lines, probe) && Parses(line) && !(line.Cut? && line.cut.version.UnknownVersion?)
    ensures TallyTold(Count(probe, t, line), lines + [line], probe)
  {
    hide FirstRow, NoRow, Chained, CutLines, LegacyLines, AllRowsGone, AllLegacyGone;
    SnocCounts(lines, line);
    if probe.Some? {
      FirstRowSnoc(lines, line, probe.value);
      if t.foundAt.Some? {
        var i: nat :| i < |lines| && FirstRow(lines, i, probe.value) && t.foundAt.value == Position(lines[..i]) + 1;
        assert FirstRow(lines + [line], i, probe.value);
      } else if line.Row? && Of(line) == probe.value {
        assert FirstRow(lines + [line], |lines|, probe.value);
        assert (lines + [line])[..|lines|] == lines;
      }
    }
  }

  lemma OtherLineCounted(t: Tally, lines: seq<Line>, probe: Option<Digest>, line: Line)
    requires TallyTold(t, lines, probe) && !Parses(line)
    ensures TallyTold(t, lines + [line], probe)
  {
    hide FirstRow, NoRow, Chained, CutLines, LegacyLines, AllRowsGone, AllLegacyGone;
    SnocCounts(lines, line);
    if probe.Some? {
      FirstRowSnoc(lines, line, probe.value);
      if t.foundAt.Some? {
        var i: nat :| i < |lines| && FirstRow(lines, i, probe.value) && t.foundAt.value == Position(lines[..i]) + 1;
        assert FirstRow(lines + [line], i, probe.value);
      }
    }
  }

  lemma StepTold(rigour: Rigour, probe: Option<Digest>, w: Walk, line: Line)
    requires PendingIsTorn(w) && w.Walking? && Step(rigour, probe, w, line).Walking?
    ensures var w' := Step(rigour, probe, w, line);
            if Parses(line) then
              Fault(w.standing, line).None? && w'.standing == Move(w.standing, line)
              && w'.tally == Count(probe, w.tally, line)
              && !(line.Cut? && line.cut.version.UnknownVersion?)
            else w'.standing == w.standing && w'.tally == w.tally
  {
  }

  /** Whatever lines the walk takes, cut records included: where its links stand, and all it has counted. */
  lemma {:induction false} WalkTold(rigour: Rigour, probe: Option<Digest>, lines: seq<Line>)
    requires Fold(rigour, probe, START, lines).Walking?
    ensures var w := Fold(rigour, probe, START, lines);
            StandsTold(w.standing, lines) && TallyTold(w.tally, lines, probe)
    decreases |lines|
  {
    if |lines| == 0 {
      NothingTold(probe);
      assert lines == [];
    } else {
      hide StandsTold, TallyTold, Step;
      var n := |lines| - 1;
      var init, line := lines[..n], lines[n];
      assert init + [line] == lines;
      WalkingBefore(rigour, probe, START, init, [line]);
      WalkTold(rigour, probe, init);
      var w := Fold(rigour, probe, START, init);
      StepTold(rigour, probe, w, line);
      if Parses(line) {
        OneLineTold(w.standing, init, line);
        OneLineCounted(w.tally, init, probe, line);
      } else {
        OtherLineTold(w.standing, init, line);
        OtherLineCounted(w.tally, init, probe, line);
      }
    }
  }

  lemma NothingTold(probe: Option<Digest>)
    ensures StandsTold(START.standing, []) && TallyTold(START.tally, [], probe)
  {
  }

  /** Every number of an accepted log: rows, cut records, legacy rows, removed rows and legacy rows, the tail
      position, where the probe stands, and how the chain begins. */
  lemma AnswerTold(lines: seq<Line>, probe: Option<Digest>)
    requires Verify(lines, probe).Intact?
    ensures var v := Verify(lines, probe);
            && v.entries == |Chained(lines)|
            && v.cuts == CutLines(lines)
            && v.unchainedPrefix == LegacyLines(lines)
            && v.prunedLegacy == AllLegacyGone(lines)
            && v.positions.prunedThrough == AllRowsGone(lines)
            && v.positions.tail == Position(lines)
            && (v.transition.None? <==> FirstLink(lines).None?)
            && (v.transition == Some(FromGenesis) <==> FirstLink(lines) == Some(Genesis))
            && (if probe.None? then v.positions.probe.None?
                else v.positions.probe.Some? && v.positions.probe.value.digest == probe.value
                     && FoundTold(v.positions.probe.value.foundAt, lines, probe))
  {
    hide FoundTold, Fold, CutLines, LegacyLines, AllRowsGone, AllLegacyGone, Chained, FirstLink;
    WalkTold(Strict, probe, lines);
  }

  // ---------------------------------------------------------------------------
  // Why a log fails.
  // ---------------------------------------------------------------------------

  /** What is wrong with `line` after `before`: the reason and the detail. */
  ghost predicate Wrong(before: seq<Line>, line: Line, reason: Reason, detail: Detail) {
    match detail
    case NotJson => line.Torn? && reason == Malformed
    case CutVersionUnknown => line.Cut? && line.cut.version.UnknownVersion? && reason == Malformed
    case CutFieldsMissing =>
      line.Cut? && line.cut.version.V2? && reason == Malformed
      && (line.cut.removedChained.None? || line.cut.removedLegacy.None?
          || (line.cut.legacyTail.Some? <==> line.cut.removedLegacy == Some(0)))
    case PreFeatureCut => line.Cut? && line.cut.version.V1? && Unjoined(before, line.cut) && LastEnd(before).None?
                          && reason == BrokenLink
    case CutGap(claimed, at) =>
      line.Cut? && Unjoined(before, line.cut) && claimed == line.cut.removedFrom && reason == BrokenLink
      && at == LastEnd(before).GetOr(Genesis) && (line.cut.version.V1? ==> LastEnd(before).Some?)
    case LinkMissing => line.Legacy? && LastEnd(before).Some? && reason == Malformed
    case LinkMismatch(link, expected) =>
      line.Row? && line.prev == link && LastEnd(before) == Some(expected) && link != expected && reason == BrokenLink
    case FirstLinkUnproven(link) =>
      line.Row? && line.prev == link && LastEnd(before).None? && reason == BrokenLink
      && link != Genesis && Some(link) != LegacyEnd(before)
  }

  /** A record of a known version, with its fields, that removed rows and does not begin where the chain is. */
  predicate Unjoined(before: seq<Line>, c: CutRecord) {
    && !NoLink(c)
    && if LastEnd(before).Some? then Some(c.removedFrom) != LastEnd(before)
       else c.removedFrom != Genesis && Some(c.removedFrom) != LegacyEnd(before + [Cut(c)])
  }

  lemma FaultIsWrong(s: Standing, before: seq<Line>, line: Line)
    requires StandsTold(s, before) && Parses(line) && Fault(s, line).Some?
    requires !s.begun ==> s.expected == Genesis
    ensures Wrong(before, line, Fault(s, line).value.0, Fault(s, line).value.1)
  {
    assert (before + [line])[..|before|] == before;
  }

  /** The failure is that of line `atEntry`, the lines before it being taken: a damaged line that the next
      non-blank line does not diagnose, or a line that does not fit there. */
  ghost predicate FailsAt(lines: seq<Line>, reason: Reason, atEntry: nat, detail: Detail, atEnd: bool) {
    && 1 <= atEntry <= |lines|
    && Wrong(lines[..atEntry - 1], lines[atEntry - 1], reason, detail)
    && (lines[atEntry - 1].Torn? ==>
          var next := NextNonBlank(lines, atEntry);
          if next == |lines| then atEnd
          else !Diagnoses(lines[next], lines[atEntry - 1], NextLink(lines[..atEntry - 1])))
  }

  lemma FailsAtSnoc(lines: seq<Line>, line: Line, reason: Reason, atEntry: nat, detail: Detail)
    requires FailsAt(lines, reason, atEntry, detail, false)
    ensures FailsAt(lines + [line], reason, atEntry, detail, false)
  {
    assert (lines + [line])[..atEntry - 1] == lines[..atEntry - 1];
    NextSnoc(lines, line, atEntry);
    hide Wrong, Diagnoses, NextNonBlank;
  }

  /** The walk takes every line before the failing one. */
  predicate WalksTo(probe: Option<Digest>, lines: seq<Line>, atEntry: nat) {
    1 <= atEntry <= |lines| && Fold(Strict, probe, START, lines[..atEntry - 1]).Walking?
  }

  lemma FailsAtPlace(lines: seq<Line>, reason: Reason, atEntry: nat, detail: Detail)
    requires FailsAt(lines, reason, atEntry, detail, false)
    ensures 1 <= atEntry <= |lines|
  {
  }

  lemma {:induction false} BrokenTold(probe: Option<Digest>, lines: seq<Line>)
    ensures var w := Fold(Strict, probe, START, lines);
            && (w.Broken? ==> FailsAt(lines, w.reason, w.atEntry, w.detail, false) && WalksTo(probe, lines, w.atEntry))
            && (w.Walking? && !w.standing.begun ==> w.standing.expected == Genesis)
    decreases |lines|
  {
    if |lines| > 0 {
      hide FailsAt, Step, WalksTo;
      var n := |lines| - 1;
      var init, line := lines[..n], lines[n];
      assert init + [line] == lines;
      BrokenTold(probe, init);
      FoldSnoc(Strict, probe, START, init, line);
      hide Fold;
      if Fold(Strict, probe, START, init).Broken? {
        StillFails(probe, init, line);
      } else {
        FailsNow(probe, init, line);
      }
    }
  }

  lemma StillFails(probe: Option<Digest>, lines: seq<Line>, line: Line)
    requires var w := Fold(Strict, probe, START, lines);
             w.Broken? && FailsAt(lines, w.reason, w.atEntry, w.detail, false) && WalksTo(probe, lines, w.atEntry)
    ensures var w, all := Fold(Strict, probe, START, lines), lines + [line];
            && Step(Strict, probe, w, line) == w
            && FailsAt(all, w.reason, w.atEntry, w.detail, false) && WalksTo(probe, all, w.atEntry)
  {
    hide Fold, FailsAt;
    var w := Fold(Strict, probe, START, lines);
    BrokenStep(probe, w, line);
    FailsAtSnoc(lines, line, w.reason, w.atEntry, w.detail);
    assert (lines + [line])[..w.atEntry - 1] == lines[..w.atEntry - 1];
  }

  lemma FailsNow(probe: Option<Digest>, lines: seq<Line>, line: Line)
    requires var w := Fold(Strict, probe, START, lines);
             w.Walking? && (!w.standing.begun ==> w.standing.expected == Genesis)
    ensures var w, all := Step(Strict, probe, Fold(Strict, probe, START, lines), line), lines + [line];
            && (w.Broken? ==> FailsAt(all, w.reason, w.atEntry, w.detail, false) && WalksTo(probe, all, w.atEntry))
            && (w.Walking? && !w.standing.begun ==> w.standing.expected == Genesis)
  {
    hide Fold, FailsAt, Step, StandsTold, TallyTold, HoldsAt;
    WalkTold(Strict, probe, lines);
    Strictly(probe, lines);
    var v := Fold(Strict, probe, START, lines);
    StepFails(probe, v, lines, line);
    var w := Step(Strict, probe, v, line);
    if w.Broken? {
      FailsAtPlace(lines + [line], w.reason, w.atEntry, w.detail);
      var before := lines[..w.atEntry - 1];
      assert before + lines[w.atEntry - 1..] == lines && (lines + [line])[..w.atEntry - 1] == before;
      WalkingBefore(Strict, probe, START, before, lines[w.atEntry - 1..]);
    }
  }

  /** Where the strict walk is, and which damaged line it holds. */
  lemma Strictly(probe: Option<Digest>, lines: seq<Line>)
    requires Fold(Strict, probe, START, lines).Walking?
    ensures var w := Fold(Strict, probe, START, lines);
            && w.consumed == |lines|
            && HoldsAt(w, lines)
  {
    StrictOrTolerant(probe, lines);
    PendingPlace(probe, lines);
    var w := Fold(Strict, probe, START, lines);
    if w.pending.Some? {
      var at := w.pending.value.at;
      SameNext(lines, at);
    }
  }

  /** A damaged line and the blank ones after it leave the next link as it is. */
  lemma {:induction false} SameNext(lines: seq<Line>, at: nat)
    requires at < |lines| && lines[at].Torn? && forall k :: at < k < |lines| ==> lines[k].Blank?
    ensures NextLink(lines[..at]) == NextLink(lines)
    decreases |lines|
  {
    var n := |lines| - 1;
    if at < n {
      SameNext(lines[..n], at);
      assert lines[..n][..at] == lines[..at];
    }
  }

  lemma {:induction false} AllBlank(lines: seq<Line>, from: nat)
    requires from <= |lines| && forall k :: from <= k < |lines| ==> lines[k].Blank?
    ensures NextNonBlank(lines, from) == |lines|
    decreases |lines| - from
  {
    if from < |lines| {
      AllBlank(lines, from + 1);
    }
  }

  /** Where the strict walk holds a damaged line. */
  ghost predicate HoldsAt(w: Walk, lines: seq<Line>) {
    w.Walking? && w.pending.Some? ==>
      var at := w.pending.value.at;
      && at < |lines| && lines[at] == w.pending.value.line
      && (forall k :: at < k < |lines| ==> lines[k].Blank?)
      && NextLink(lines[..at]) == NextLink(lines)
  }

  lemma PendingFails(w: Walk, lines: seq<Line>, line: Line)
    requires w.Walking? && PendingIsTorn(w) && HoldsAt(w, lines) && w.pending.Some? && !line.Blank?
    requires Link(w.standing) == NextLink(lines) && !Diagnoses(line, w.pending.value.line, Link(w.standing))
    ensures FailsAt(lines + [line], Malformed, w.pending.value.at + 1, NotJson, false)
  {
    hide NextNonBlank, NextLink, Diagnoses;
    var all, at := lines + [line], w.pending.value.at;
    AllBlank(lines, at + 1);
    NextSnoc(lines, line, at + 1);
    assert all[..at] == lines[..at] && all[at] == lines[at] && all[|lines|] == line;
  }

  lemma FaultFails(s: Standing, lines: seq<Line>, line: Line)
    requires StandsTold(s, lines) && (!s.begun ==> s.expected == Genesis)
    requires Parses(line) && Fault(s, line).Some?
    ensures FailsAt(lines + [line], Fault(s, line).value.0, |lines| + 1, Fault(s, line).value.1, false)
  {
    hide Fault, StandsTold, Wrong;
    FaultIsWrong(s, lines, line);
    var all := lines + [line];
    assert all[..|lines|] == lines && all[|lines|] == line;
  }

  lemma StandsNext(s: Standing, lines: seq<Line>)
    requires StandsTold(s, lines)
    ensures Link(s) == NextLink(lines)
  {
  }

  lemma StepFails(probe: Option<Digest>, w: Walk, lines: seq<Line>, line: Line)
    requires w.Walking? && PendingIsTorn(w) && w.consumed == |lines|
    requires StandsTold(w.standing, lines) && (!w.standing.begun ==> w.standing.expected == Genesis)
    requires HoldsAt(w, lines)
    ensures var w' := Step(Strict, probe, w, line);
            && (w'.Broken? ==> FailsAt(lines + [line], w'.reason, w'.atEntry, w'.detail, false))
            && (w'.Walking? && !w'.standing.begun ==> w'.standing.expected == Genesis)
  {
    hide Count, StandsTold, HoldsAt, FailsAt, Link, Fault;
    StandsNext(w.standing, lines);
    if !line.Blank? && w.pending.Some? && !Diagnoses(line, w.pending.value.line, Link(w.standing)) {
      PendingFails(w, lines, line);
    } else if Parses(line) && Fault(w.standing, line).Some? {
      FaultFails(w.standing, lines, line);
    }
  }

  /** Why and where a log fails, for every list of lines. */
  lemma FailureTold(lines: seq<Line>, probe: Option<Digest>)
    requires Verify(lines, probe).Failed?
    ensures var v := Verify(lines, probe); FailsAt(lines, v.reason, v.atEntry, v.detail, true)
    ensures WalksTo(probe, lines, Verify(lines, probe).atEntry)
  {
    BrokenTold(probe, lines);
    var w := Fold(Strict, probe, START, lines);
    if w.Walking? {
      Strictly(probe, lines);
      var at := w.pending.value.at;
      AllBlank(lines, at + 1);
      assert lines[..at] + lines[at..] == lines;
      WalkingBefore(Strict, probe, START, lines[..at], lines[at..]);
    }
  }

  // ---------------------------------------------------------------------------
  // What is accepted has nothing wrong, and the damages are told.
  // ---------------------------------------------------------------------------

  /** Nothing but damage is wrong with a line the walk takes. */
  ghost predicate NothingWrong(before: seq<Line>, line: Line) {
    forall reason, detail: Detail :: !detail.NotJson? ==> !Wrong(before, line, reason, detail)
  }

  lemma TakenIsRight(s: Standing, before: seq<Line>, line: Line)
    requires StandsTold(s, before) && (Parses(line) ==> Fault(s, line).None?)
    ensures NothingWrong(before, line)
  {
    assert (before + [line])[..|before|] == before;
  }

  /** No line of a log that is walked is wrong for any of the reasons a log fails for, its damaged lines apart. */
  lemma {:induction false} WalkedIsRight(rigour: Rigour, probe: Option<Digest>, lines: seq<Line>, k: nat)
    requires Fold(rigour, probe, START, lines).Walking? && k < |lines|
    ensures NothingWrong(lines[..k], lines[k])
    decreases |lines|
  {
    hide NothingWrong, StandsTold, TallyTold, Step;
    var n := |lines| - 1;
    assert lines[..n] + [lines[n]] == lines;
    WalkingBefore(rigour, probe, START, lines[..n], [lines[n]]);
    if k < n {
      WalkedIsRight(rigour, probe, lines[..n], k);
      assert lines[..n][..k] == lines[..k];
    } else {
      WalkTold(rigour, probe, lines[..n]);
      var w := Fold(rigour, probe, START, lines[..n]);
      StepTold(rigour, probe, w, lines[n]);
      TakenIsRight(w.standing, lines[..n], lines[n]);
    }
  }

  /** The 1-based places of the damaged lines, in order. */
  function DamagedPlaces(lines: seq<Line>): seq<nat>
    decreases |lines|
  {
    if |lines| == 0 then []
    else DamagedPlaces(lines[..|lines| - 1]) + if lines[|lines| - 1].Torn? then [|lines|] else []
  }

  /** Each reported damage has the place, the length and the digest of its line. */
  ghost predicate TellsDamage(damage: Damage, place: nat, lines: seq<Line>) {
    && 1 <= place <= |lines| && lines[place - 1].Torn?
    && damage.line == place && damage.digest == Of(lines[place - 1]) && damage.byteLength == 1 + |lines[place - 1].rest|
  }

  lemma {:induction false} DamagedTold(lines: seq<Line>)
    ensures var damages, places := DamagedLines(lines, 0), DamagedPlaces(lines);
            |damages| == |places| && forall k :: 0 <= k < |places| ==> TellsDamage(damages[k], places[k], lines)
    decreases |lines|
  {
    if |lines| > 0 {
      var n := |lines| - 1;
      DamagedTold(lines[..n]);
      var damages, places := DamagedLines(lines, 0), DamagedPlaces(lines);
      forall k | 0 <= k < |places| ensures TellsDamage(damages[k], places[k], lines) {
        if k < |DamagedPlaces(lines[..n])| {
          assert TellsDamage(DamagedLines(lines[..n], 0)[k], DamagedPlaces(lines[..n])[k], lines[..n]);
        }
      }
    }
  }

  /** The damages an accepted log reports: one for each damaged line, in order, with its place, length and digest. */
  lemma DamagesTold(lines: seq<Line>, probe: Option<Digest>)
    requires Verify(lines, probe).Intact?
    ensures var damages, places := Verify(lines, probe).damages, DamagedPlaces(lines);
            |damages| == |places| && forall k :: 0 <= k < |places| ==> TellsDamage(damages[k], places[k], lines)
  {
    AcceptedReportsDamage(probe, lines);
    DamagedTold(lines);
    hide Verify, DamagedPlaces, DamagedLines, TellsDamage;
  }

  /** A row diagnoses a damaged line exactly when it is a version-1 damaged-tail row with the length and the digest of
      the line, and the link that stood before it. */
  lemma DiagnosisTold(row: Line, damaged: Line, before: Digest)
    requires damaged.Torn?
    ensures Diagnoses(row, damaged, before)
       <==> row.Row? && row.body.Integrity?
            && row == Row(Integrity(row.body.id, DamagedTail(1, 1 + |damaged.rest|, Of(damaged))), before)
  {
  }
}
