/** What it means for a log, cut records first, to be accepted, said of its lines alone. */
module ChainMeaning {
  import opened Common
  import opened ChainLines
  import opened ChainWalk
  import opened ChainFacts
  import opened ChainEvidence

  /** Legacy rows come before every chained row. */
  ghost predicate LegacyFirst(lines: seq<Line>) {
    forall i, j :: 0 <= i < j < |lines| && lines[i].Row? ==> !lines[j].Legacy?
  }

  // ---------------------------------------------------------------------------
  // The cut records.
  // ---------------------------------------------------------------------------

  /** What cut records leave to link to: the last row they removed, if any, and the last legacy row. */
  datatype Base = Base(link: Option<Digest>, legacyTail: Option<Digest>)

  const NO_CUTS := Base(None, None)

  predicate AllCuts(lines: seq<Line>) {
    forall k :: 0 <= k < |lines| ==> lines[k].Cut? || lines[k].Blank?
  }

  /** Where the last cut record that removed chained rows ends. */
  function LastRemoved(cuts: seq<Line>): Option<Digest>
    decreases |cuts|
  {
    if |cuts| == 0 then None
    else
      var last := cuts[|cuts| - 1];
      if last.Cut? && !LegacyOnly(last.cut) then Some(last.cut.removedTo) else LastRemoved(cuts[..|cuts| - 1])
  }

  /** The last legacy row of the last cut record that removed legacy rows. */
  function LastClaim(cuts: seq<Line>): Option<Digest>
    decreases |cuts|
  {
    if |cuts| == 0 then None
    else
      var last := cuts[|cuts| - 1];
      if last.Cut? && CutLegacy(last.cut) > 0 then last.cut.legacyTail else LastClaim(cuts[..|cuts| - 1])
  }

  function BaseOf(cuts: seq<Line>): Base {
    Base(LastRemoved(cuts), LastClaim(cuts))
  }

  /** A record of a known version with its fields, that begins where the one before it ended, or at genesis or
      the last legacy row. */
  predicate Joins(earlier: seq<Line>, c: CutRecord) {
    && !c.version.UnknownVersion?
    && (c.version.V2? ==> WellFormedVersion2(c))
    && (LegacyOnly(c) ||
        if LastRemoved(earlier).Some? then Some(c.removedFrom) == LastRemoved(earlier)
        else c.removedFrom == Genesis || Some(c.removedFrom) == LastClaim(earlier + [Cut(c)]))
  }

  ghost predicate AllJoin(cuts: seq<Line>) {
    forall k :: 0 <= k < |cuts| && cuts[k].Cut? ==> Joins(cuts[..k], cuts[k].cut)
  }

  /** The walk stands where the cut records end. */
  predicate StandsOn(w: Walk, b: Base)
    requires w.Walking?
  {
    && w.pending.None?
    && w.standing.legacyTail == b.legacyTail
    && (if w.standing.begun then b.link == Some(w.standing.expected) else b.link.None?)
  }

  lemma CutSnoc(cuts: seq<Line>, line: Line)
    ensures LastRemoved(cuts + [line])
         == if line.Cut? && !LegacyOnly(line.cut) then Some(line.cut.removedTo) else LastRemoved(cuts)
    ensures LastClaim(cuts + [line])
         == if line.Cut? && CutLegacy(line.cut) > 0 then line.cut.legacyTail else LastClaim(cuts)
    ensures AllJoin(cuts + [line]) <==> AllJoin(cuts) && (line.Cut? ==> Joins(cuts, line.cut))
  {
    var all := cuts + [line];
    assert all[..|cuts|] == cuts;
    assert forall k :: 0 <= k < |cuts| ==> all[k] == cuts[k] && all[..k] == cuts[..k];
    hide Joins;
  }

  lemma CutStep(probe: Option<Digest>, w: Walk, cuts: seq<Line>, line: Line)
    requires w.Walking? && StandsOn(w, BaseOf(cuts)) && (line.Cut? || line.Blank?)
    ensures var w' := Step(Strict, probe, w, line);
            && (w'.Walking? <==> (line.Cut? ==> Joins(cuts, line.cut)))
            && (w'.Walking? ==> StandsOn(w', BaseOf(cuts + [line])) && w'.consumed == w.consumed + 1)
  {
    CutSnoc(cuts, line);
    hide LastRemoved, LastClaim, AllJoin, WellFormedVersion2, Count;
  }

  lemma {:induction false} CutsWalk(probe: Option<Digest>, cuts: seq<Line>)
    requires AllCuts(cuts)
    ensures var w := Fold(Strict, probe, START, cuts);
            && (w.Walking? <==> AllJoin(cuts))
            && (w.Walking? ==> StandsOn(w, BaseOf(cuts)) && w.consumed == |cuts|)
    decreases |cuts|
  {
    if |cuts| > 0 {
      hide AllJoin, StandsOn, Step;
      var n := |cuts| - 1;
      assert cuts == cuts[..n] + [cuts[n]];
      CutsWalk(probe, cuts[..n]);
      CutSnoc(cuts[..n], cuts[n]);
      var w := Fold(Strict, probe, START, cuts[..n]);
      if w.Walking? {
        CutStep(probe, w, cuts[..n], cuts[n]);
      } else {
        BrokenStep(probe, w, cuts[n]);
      }
    } else {
      hide Joins;
    }
  }

  // ---------------------------------------------------------------------------
  // The rows.
  // ---------------------------------------------------------------------------

  /** The last legacy row, one that a cut record accounts for when there is no later one. */
  function LegacyAfter(b: Base, lines: seq<Line>): Option<Digest> {
    if LastLegacy(lines).Some? then LastLegacy(lines) else b.legacyTail
  }

  /** May the first chained row carry `link`? */
  predicate ProvenFirst(b: Base, lines: seq<Line>, link: Digest) {
    if b.link.Some? then b.link == Some(link) else link == Genesis || Some(link) == LegacyAfter(b, lines)
  }

  /** Legacy rows first, and none after removed chained rows; every chained row links to the one before it, the
      first to what the cut records leave, or else to genesis or the last legacy row. */
  ghost predicate WellLinked(b: Base, lines: seq<Line>) {
    && LegacyFirst(lines)
    && (b.link.Some? ==> LastLegacy(lines).None?)
    && Linked(Chained(lines))
    && (|Chained(lines)| > 0 ==> ProvenFirst(b, lines, Chained(lines)[0].line.prev))
  }

  /** What the row after `lines` links to: the last chained row, or the last legacy row, or genesis. */
  function LinkAfter(b: Base, lines: seq<Line>): Digest {
    var rows := Chained(lines);
    if |rows| > 0 then rows[|rows| - 1]
    else if b.link.Some? then b.link.value
    else LegacyAfter(b, lines).GetOr(Genesis)
  }

  /** Nothing but blank lines follows line `i`. */
  predicate Trails(lines: seq<Line>, i: nat)
    requires i < |lines|
  {
    NextNonBlank(lines, i + 1) == |lines|
  }

  /** The next non-blank line after the damaged line `i` is the row that diagnoses it. */
  predicate DiagnosedLine(b: Base, lines: seq<Line>, i: nat)
    requires i < |lines| && lines[i].Torn?
  {
    DiagnosedAhead(lines, i, LinkAfter(b, lines[..i]))
  }

  ghost predicate AllDiagnosed(b: Base, lines: seq<Line>) {
    forall i: nat :: i < |lines| && lines[i].Torn? ==> DiagnosedLine(b, lines, i)
  }

  /** As `AllDiagnosed`, but nothing may follow the last damaged line yet. */
  ghost predicate DiagnosedSoFar(b: Base, lines: seq<Line>) {
    forall i: nat :: i < |lines| && lines[i].Torn? ==> Trails(lines, i) || DiagnosedLine(b, lines, i)
  }

  // ---------------------------------------------------------------------------
  // One more line.
  // ---------------------------------------------------------------------------

  /** What `line` must be for the links to hold after it. */
  predicate LinksOn(b: Base, lines: seq<Line>, line: Line) {
    && (line.Legacy? ==> |Chained(lines)| == 0 && b.link.None?)
    && (line.Row? ==>
          if |Chained(lines)| > 0 then line.prev == LinkAfter(b, lines) else ProvenFirst(b, lines, line.prev))
  }

  /** What `line` must be for the damaged line before it, if it is the last, to be diagnosed. */
  ghost predicate DiagnosesLast(b: Base, lines: seq<Line>, line: Line) {
    !line.Blank? ==>
      forall i: nat :: i < |lines| && lines[i].Torn? && Trails(lines, i)
          ==> Diagnoses(line, lines[i], LinkAfter(b, lines[..i]))
  }

  lemma OneMore(lines: seq<Line>, line: Line)
    ensures Chained(lines + [line]) == Chained(lines) + if line.Row? then [Of(line)] else []
    ensures LastLegacy(lines + [line]) == if line.Legacy? then Some(Of(line)) else LastLegacy(lines)
  {
    assert (lines + [line])[..|lines|] == lines;
  }

  lemma {:induction false} RowsAreChained(lines: seq<Line>)
    ensures |Chained(lines)| > 0 <==> exists i :: 0 <= i < |lines| && lines[i].Row?
    decreases |lines|
  {
    if |lines| > 0 {
      var n := |lines| - 1;
      RowsAreChained(lines[..n]);
      if exists i :: 0 <= i < n && lines[i].Row? {
        var i :| 0 <= i < n && lines[i].Row?;
        assert lines[..n][i].Row?;
      }
    }
  }

  lemma LegacySnoc(lines: seq<Line>, line: Line)
    ensures LegacyFirst(lines + [line]) <==> LegacyFirst(lines) && (line.Legacy? ==> |Chained(lines)| == 0)
  {
    RowsAreChained(lines);
    hide Chained;
    var all := lines + [line];
    assert forall k :: 0 <= k < |lines| ==> all[k] == lines[k];
    assert all[|lines|] == line;
  }

  lemma LinkedSnoc(rows: seq<Digest>, line: Line)
    requires line.Row?
    ensures Linked(rows + [Of(line)]) <==> Linked(rows) && (|rows| > 0 ==> line.prev == rows[|rows| - 1])
  {
    var all := rows + [Of(line)];
    assert forall k :: 0 <= k < |rows| ==> all[k] == rows[k];
    assert all[|rows|] == Of(line);
  }

  lemma WellLinkedSnoc(b: Base, lines: seq<Line>, line: Line)
    requires !line.Cut?
    ensures WellLinked(b, lines + [line]) <==> WellLinked(b, lines) && LinksOn(b, lines, line)
  {
    OneMore(lines, line);
    LegacySnoc(lines, line);
    var rows := Chained(lines);
    if line.Row? {
      LinkedSnoc(rows, line);
      assert (rows + [Of(line)])[0] == if |rows| > 0 then rows[0] else Of(line);
    } else {
      assert rows + [] == rows;
    }
    hide Chained, LastLegacy, Linked, LegacyFirst;
  }

  lemma {:induction false} NextSnoc(lines: seq<Line>, line: Line, j: nat)
    requires j <= |lines|
    ensures NextNonBlank(lines + [line], j)
         == var next := NextNonBlank(lines, j);
            if next < |lines| then next else if line.Blank? then |lines| + 1 else |lines|
    decreases |lines| - j
  {
    if j < |lines| && lines[j].Blank? {
      NextSnoc(lines, line, j + 1);
    }
  }

  lemma DiagnosedSnocAt(b: Base, lines: seq<Line>, line: Line, i: nat)
    requires i < |lines| && lines[i].Torn?
    ensures var all := lines + [line];
            Trails(all, i) || DiagnosedLine(b, all, i)
            <==> if Trails(lines, i) then line.Blank? || Diagnoses(line, lines[i], LinkAfter(b, lines[..i]))
                 else DiagnosedLine(b, lines, i)
  {
    NextSnoc(lines, line, i + 1);
    assert (lines + [line])[..i] == lines[..i];
    hide LinkAfter, Diagnoses, NextNonBlank;
  }

  lemma DiagnosedSnoc(b: Base, lines: seq<Line>, line: Line)
    ensures DiagnosedSoFar(b, lines + [line]) <==> DiagnosedSoFar(b, lines) && DiagnosesLast(b, lines, line)
  {
    var all := lines + [line];
    forall i: nat | i < |lines| && lines[i].Torn?
      ensures Trails(all, i) || DiagnosedLine(b, all, i)
         <==> if Trails(lines, i) then line.Blank? || Diagnoses(line, lines[i], LinkAfter(b, lines[..i]))
              else DiagnosedLine(b, lines, i)
    {
      DiagnosedSnocAt(b, lines, line, i);
    }
    assert line.Torn? ==> Trails(all, |lines|);
    assert forall i: nat :: i < |lines| ==> all[i] == lines[i];
    hide DiagnosedLine, Trails, Diagnoses, LinkAfter;
  }

  // ---------------------------------------------------------------------------
  // The walk.
  // ---------------------------------------------------------------------------

  /** Where the strict walk stands, said of the lines. */
  ghost predicate StandsAfter(b: Base, from: nat, w: Walk, lines: seq<Line>)
    requires w.Walking?
  {
    && w.consumed == from + |lines|
    && (w.standing.begun <==> |Chained(lines)| > 0 || b.link.Some?)
    && w.standing.legacyTail == LegacyAfter(b, lines)
    && Link(w.standing) == LinkAfter(b, lines)
    && (forall i: nat :: i < |lines| && lines[i].Torn? && Trails(lines, i) ==>
          w.pending == Some(Pending(from + i, lines[i])) && LinkAfter(b, lines[..i]) == LinkAfter(b, lines))
    && (w.pending.Some? ==>
          var i := w.pending.value.at - from;
          0 <= i < |lines| && lines[i].Torn? && Trails(lines, i) && w.pending.value.line == lines[i])
  }

  /** The last damaged line, and what diagnoses it. */
  lemma PendingDiagnosed(b: Base, from: nat, w: Walk, lines: seq<Line>, line: Line)
    requires w.Walking? && StandsAfter(b, from, w, lines) && PendingIsTorn(w) && !line.Blank?
    ensures DiagnosesLast(b, lines, line)
            <==> w.pending.None? || Diagnoses(line, w.pending.value.line, Link(w.standing))
  {
    hide NextNonBlank, Chained, LastLegacy, LinkAfter, Diagnoses, Trails, Link;
  }

  lemma StepWalks(b: Base, from: nat, probe: Option<Digest>, w: Walk, lines: seq<Line>, line: Line)
    requires w.Walking? && StandsAfter(b, from, w, lines) && PendingIsTorn(w) && !line.Cut?
    ensures Step(Strict, probe, w, line).Walking? <==> LinksOn(b, lines, line) && DiagnosesLast(b, lines, line)
  {
    hide Chained, LastLegacy, Trails, Move, Count;
    if !line.Blank? {
      PendingDiagnosed(b, from, w, lines, line);
    }
    hide DiagnosesLast;
  }

  lemma TrailsSnoc(lines: seq<Line>, line: Line)
    ensures forall i: nat :: i < |lines| ==> (Trails(lines + [line], i) <==> Trails(lines, i) && line.Blank?)
    ensures Trails(lines + [line], |lines|)
  {
    forall i: nat | i < |lines| ensures Trails(lines + [line], i) <==> Trails(lines, i) && line.Blank? {
      NextSnoc(lines, line, i + 1);
    }
  }

  lemma StepStands(b: Base, from: nat, probe: Option<Digest>, w: Walk, lines: seq<Line>, line: Line)
    requires w.Walking? && StandsAfter(b, from, w, lines) && PendingIsTorn(w) && !line.Cut?
    requires Step(Strict, probe, w, line).Walking?
    ensures StandsAfter(b, from, Step(Strict, probe, w, line), lines + [line])
  {
    hide Chained, LastLegacy, Trails, Count, Diagnoses, Fault;
    OneMore(lines, line);
    TrailsSnoc(lines, line);
    var all := lines + [line];
    assert all[..|lines|] == lines;
    assert Chained(lines) + [] == Chained(lines);
    forall i: nat | i < |lines| ensures all[i] == lines[i] && all[..i] == lines[..i] {
    }
  }

  /** From where cut records leave the walk, it takes lines without cuts exactly when they link and damage is
      diagnosed so far. */
  lemma {:induction false} WalksIffDeclared(probe: Option<Digest>, b: Base, v: Walk, lines: seq<Line>)
    requires v.Walking? && StandsOn(v, b) && NoCuts(lines)
    ensures var w := Fold(Strict, probe, v, lines);
            && (w.Walking? <==> WellLinked(b, lines) && DiagnosedSoFar(b, lines))
            && (w.Walking? ==> StandsAfter(b, v.consumed, w, lines))
    decreases |lines|
  {
    if |lines| > 0 {
      hide WellLinked, DiagnosedSoFar, StandsAfter, Step, LinksOn, DiagnosesLast, StandsOn;
      var n := |lines| - 1;
      var init, line := lines[..n], lines[n];
      assert lines == init + [line];
      WalksIffDeclared(probe, b, v, init);
      WellLinkedSnoc(b, init, line);
      DiagnosedSnoc(b, init, line);
      var w := Fold(Strict, probe, v, init);
      if w.Walking? {
        StepWalks(b, v.consumed, probe, w, init, line);
        if Step(Strict, probe, w, line).Walking? {
          StepStands(b, v.consumed, probe, w, init, line);
        }
      } else {
        BrokenStep(probe, w, line);
      }
    }
  }

  lemma BrokenStep(probe: Option<Digest>, w: Walk, line: Line)
    requires w.Broken?
    ensures Step(Strict, probe, w, line) == w
  {
  }

  /** A log, cut records first, is accepted exactly when each record is whole and begins where the one before it
      ended, legacy rows come first, the chained rows link each to the one before and the first to what the
      records leave, or else to genesis or the last legacy row, and every damaged line is diagnosed by the
      next non-blank line. */
  lemma AcceptedMeans(probe: Option<Digest>, cuts: seq<Line>, lines: seq<Line>)
    requires AllCuts(cuts) && NoCuts(lines)
    ensures Verify(cuts + lines, probe).Intact?
       <==> AllJoin(cuts) && WellLinked(BaseOf(cuts), lines) && AllDiagnosed(BaseOf(cuts), lines)
  {
    var v, b := Fold(Strict, probe, START, cuts), BaseOf(cuts);
    CutsWalk(probe, cuts);
    FoldConcat(Strict, probe, START, cuts, lines);
    if v.Broken? {
      BrokenStays(Strict, probe, v, lines);
    } else {
      WalksIffDeclared(probe, b, v, lines);
      forall i: nat | i < |lines| && lines[i].Torn? ensures !(Trails(lines, i) && DiagnosedLine(b, lines, i)) {
      }
    }
    hide WellLinked, DiagnosedLine, Trails, Fold, AllJoin, StandsOn;
  }

  /** Without cut records: the first row links to genesis or to the last legacy row. */
  lemma AcceptedWithoutCuts(probe: Option<Digest>, lines: seq<Line>)
    requires NoCuts(lines)
    ensures Verify(lines, probe).Intact? <==> WellLinked(NO_CUTS, lines) && AllDiagnosed(NO_CUTS, lines)
  {
    AcceptedMeans(probe, [], lines);
    assert [] + lines == lines;
    hide WellLinked, AllDiagnosed, Verify;
  }
}
