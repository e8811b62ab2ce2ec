/** What the chain makes evident: the last link binds the whole history, and an edit or a removal inside it
    is found at the first line whose link stops agreeing.  Also what it does not make evident. */
module ChainEvidence {
  import opened Common
  import opened ChainLines
  import opened ChainWalk
  import opened ChainFacts

  /** Each digest is that of a row, and each row links to the one before it. */
  ghost predicate Linked(rows: seq<Digest>) {
    && (forall i :: 0 <= i < |rows| ==> rows[i].Of? && rows[i].line.Row?)
    && (forall i :: 0 < i < |rows| ==> rows[i].line.prev == rows[i - 1])
  }

  /** Every later row reaches further back than an earlier one. */
  lemma {:induction false} LaterReachesFurther(rows: seq<Digest>, i: nat, j: nat)
    requires Linked(rows) && i < j < |rows|
    ensures Reach(rows[i]) < Reach(rows[j])
    decreases j
  {
    if i < j - 1 {
      LaterReachesFurther(rows, i, j - 1);
    }
    assert Reach(rows[j]) == 1 + Reach(rows[j - 1]);
  }

  /** No row occurs twice. */
  lemma LinkedAreDistinct(rows: seq<Digest>, i: nat, j: nat)
    requires Linked(rows) && i < |rows| && j < |rows| && rows[i] == rows[j]
    ensures i == j
  {
    if i < j {
      LaterReachesFurther(rows, i, j);
    } else if j < i {
      LaterReachesFurther(rows, j, i);
    }
  }

  /** From `start`, linked rows `rows` led the links to stand at `s`. */
  ghost predicate LeadsTo(start: Standing, rows: seq<Digest>, s: Standing) {
    && Linked(rows)
    && (start.begun ==> s.legacyTail == start.legacyTail)
    && (if |rows| == 0 then s == start.(legacyTail := s.legacyTail)
        else && s.begun
             && s.expected == rows[|rows| - 1]
             && Accepts(start.(legacyTail := s.legacyTail), rows[0].line.prev)
             && s.transition == Advance(start, rows[0].line.prev, Genesis).transition)
  }

  lemma LeadsOn(start: Standing, rows: seq<Digest>, s: Standing, line: Line)
    requires LeadsTo(start, rows, s) && IsEntry(line) && Fault(s, line).None?
    ensures LeadsTo(start, rows + if line.Row? then [Of(line)] else [], Move(s, line))
  {
    if line.Row? && |rows| > 0 {
      assert (rows + [Of(line)])[0] == rows[0];
    }
  }

  /** The chained rows of a walk without cuts are linked, from a link its start accepts to where it ends. */
  lemma {:induction false} RowsAreLinked(rigour: Rigour, probe: Option<Digest>, w: Walk, lines: seq<Line>)
    requires PendingIsTorn(w) && w.Walking? && NoCuts(lines)
    requires Fold(rigour, probe, w, lines).Walking?
    ensures LeadsTo(w.standing, Chained(lines), Fold(rigour, probe, w, lines).standing)
    decreases |lines|
  {
    if |lines| > 0 {
      var last := |lines| - 1;
      var init := lines[..last];
      assert init + [lines[last]] == lines;
      WalkingBefore(rigour, probe, w, init, [lines[last]]);
      RowsAreLinked(rigour, probe, w, init);
      var v := Fold(rigour, probe, w, init);
      StepLinks(rigour, probe, v, lines[last]);
      if Parses(lines[last]) {
        LeadsOn(w.standing, Chained(init), v.standing, lines[last]);
      } else {
        assert Chained(lines) == Chained(init);
      }
    }
  }

  lemma StepLinks(rigour: Rigour, probe: Option<Digest>, w: Walk, line: Line)
    requires PendingIsTorn(w) && w.Walking? && !line.Cut? && Step(rigour, probe, w, line).Walking?
    ensures Step(rigour, probe, w, line).standing == if Parses(line) then Move(w.standing, line) else w.standing
    ensures Parses(line) ==> Fault(w.standing, line).None?
  {
  }

  /** The last legacy row. */
  function LastLegacy(lines: seq<Line>): (last: Option<Digest>)
    ensures last.Some? ==> last.value.Of? && last.value.line.Legacy?
    decreases |lines|
  {
    if |lines| == 0 then None
    else if lines[|lines| - 1].Legacy? then Some(Of(lines[|lines| - 1]))
    else LastLegacy(lines[..|lines| - 1])
  }

  lemma {:induction false} LegacyTailIsLastLegacy(rigour: Rigour, probe: Option<Digest>, lines: seq<Line>)
    requires NoCuts(lines) && Fold(rigour, probe, START, lines).Walking?
    ensures Fold(rigour, probe, START, lines).standing.legacyTail == LastLegacy(lines)
    decreases |lines|
  {
    if |lines| > 0 {
      var last := |lines| - 1;
      assert lines[..last] + [lines[last]] == lines;
      WalkingBefore(rigour, probe, START, lines[..last], [lines[last]]);
      LegacyTailIsLastLegacy(rigour, probe, lines[..last]);
      StepLinks(rigour, probe, Fold(rigour, probe, START, lines[..last]), lines[last]);
    }
  }

  // ---------------------------------------------------------------------------
  // Binding.
  // ---------------------------------------------------------------------------

  /** Two linked histories whose first rows link to no row, and whose last rows agree, are one history. */
  lemma {:induction false} SameHeadSameRows(a: seq<Digest>, b: seq<Digest>)
    requires Linked(a) && Linked(b) && |a| > 0 && |b| > 0
    requires Reach(a[0].line.prev) == 0 == Reach(b[0].line.prev)
    requires a[|a| - 1] == b[|b| - 1]
    ensures a == b
    decreases |a|
  {
    if |a| > 1 && |b| > 1 {
      SameHeadSameRows(a[..|a| - 1], b[..|b| - 1]);
      assert a == a[..|a| - 1] + [a[|a| - 1]];
      assert b == b[..|b| - 1] + [b[|b| - 1]];
    } else if |a| > 1 {
      LaterReachesFurther(a, 0, |a| - 1);
    } else if |b| > 1 {
      LaterReachesFurther(b, 0, |b| - 1);
    }
  }

  /** The head binds the history: two accepted logs without cuts whose last chained rows have one digest
      have the same chained rows in the same order, the same transition and, when that is from the legacy
      tail, the same last legacy row.  Damaged lines may differ. */
  lemma Binding(a: seq<Line>, b: seq<Line>, probe: Option<Digest>)
    requires NoCuts(a) && NoCuts(b) && Verify(a, probe).Intact? && Verify(b, probe).Intact?
    requires |Chained(a)| > 0 && |Chained(b)| > 0
    requires Chained(a)[|Chained(a)| - 1] == Chained(b)[|Chained(b)| - 1]
    ensures Chained(a) == Chained(b)
    ensures Verify(a, probe).transition == Verify(b, probe).transition
    ensures Verify(a, probe).transition == Some(FromLegacyTail) ==> LastLegacy(a) == LastLegacy(b)
  {
    RowsAreLinked(Strict, probe, START, a);
    RowsAreLinked(Strict, probe, START, b);
    LegacyTailIsLastLegacy(Strict, probe, a);
    LegacyTailIsLastLegacy(Strict, probe, b);
    SameHeadSameRows(Chained(a), Chained(b));
  }

  // ---------------------------------------------------------------------------
  // Tamper evidence.
  // ---------------------------------------------------------------------------

  /** The walk that stands elsewhere fails on lines the right walk takes: at its pending damaged line, or at
      the first non-blank line, which is where the links stop agreeing. */
  lemma {:induction false} StopsAtFirstLink(probe: Option<Digest>, right: Walk, other: Walk, rest: seq<Line>)
    requires PendingIsTorn(right) && PendingIsTorn(other) && right.Walking? && other.Walking?
    requires right.standing.begun && !Accepts(other.standing, right.standing.expected)
    requires NoCuts(rest) && |Chained(rest)| > 0 && Fold(Strict, probe, right, rest).Walking?
    ensures Fold(Strict, probe, other, rest).Broken?
    ensures var stop := Fold(Strict, probe, other, rest);
            var first := NextNonBlank(rest, 0);
            && first < |rest|
            && stop.atEntry == (if other.pending.Some? then other.pending.value.at + 1 else other.consumed + first + 1)
            && stop.reason == (if other.pending.Some? || rest[first].Torn? then Malformed else BrokenLink)
    decreases |rest|
  {
    if |rest| > 0 {
      hide Fold, Chained;
      var tail := rest[1..];
      FoldCons(Strict, probe, right, rest);
      FoldCons(Strict, probe, other, rest);
      ChainedFirst(rest);
      var right', other' := Step(Strict, probe, right, rest[0]), Step(Strict, probe, other, rest[0]);
      if right'.Broken? {
        BrokenStays(Strict, probe, right', tail);
      }
      if other'.Broken? {
        BrokenStays(Strict, probe, other', tail);
      } else {
        StopsAtFirstLink(probe, right', other', tail);
        NextFromTail(rest, 0);
      }
    }
  }

  lemma ChainedFirst(lines: seq<Line>)
    requires |lines| > 0
    ensures Chained(lines) == (if lines[0].Row? then [Of(lines[0])] else []) + Chained(lines[1..])
  {
    assert lines == [lines[0]] + lines[1..];
    ChainedConcat([lines[0]], lines[1..]);
    assert [lines[0]][..0] == [];
  }

  lemma {:induction false} NextFromTail(lines: seq<Line>, index: nat)
    requires |lines| > 0 && index <= |lines| - 1
    ensures NextNonBlank(lines[1..], index) + 1 == NextNonBlank(lines, index + 1)
    decreases |lines| - index
  {
    if index < |lines| - 1 && lines[index + 1].Blank? {
      NextFromTail(lines, index + 1);
    }
  }

  /** Where the links of `before` stand, and whether they already name `d`. */
  function StandingAfter(before: seq<Line>): Walk {
    Fold(Strict, None, START, before)
  }

  /** The pieces of an accepted log walk one after the other. */
  lemma Pieces(before: seq<Line>, middle: seq<Line>, rest: seq<Line>)
    requires Verify(before + middle + rest, None).Intact?
    ensures StandingAfter(before).Walking?
    ensures Fold(Strict, None, StandingAfter(before), middle).Walking?
    ensures Fold(Strict, None, Fold(Strict, None, StandingAfter(before), middle), rest)
         == Fold(Strict, None, START, before + middle + rest)
  {
    WalkingBefore(Strict, None, START, before + middle, rest);
    FoldConcat(Strict, None, START, before + middle, rest);
    FoldConcat(Strict, None, START, before, middle);
    WalkingBefore(Strict, None, START, before, middle);
  }

  /** A link accepted where `before` stands reaches less far than the row that carries it, unless a cut
      record in `before` forges a legacy tail. */
  lemma {:induction false} LegacyTailReach(before: seq<Line>, d: Digest)
    requires StandingAfter(before).Walking? && StandingAfter(before).standing.legacyTail == Some(d)
    ensures (d.Of? && d.line.Legacy?)
         || exists k :: 0 <= k < |before| && before[k].Cut? && before[k].cut.legacyTail == Some(d)
    decreases |before|
  {
    if |before| > 0 {
      var last := |before| - 1;
      var init := before[..last];
      assert init + [before[last]] == before;
      WalkingBefore(Strict, None, START, init, [before[last]]);
      if StandingAfter(init).standing.legacyTail == Some(d) {
        LegacyTailReach(init, d);
        if exists k :: 0 <= k < |init| && init[k].Cut? && init[k].cut.legacyTail == Some(d) {
          var k :| 0 <= k < |init| && init[k].Cut? && init[k].cut.legacyTail == Some(d);
          assert before[k].Cut? && before[k].cut.legacyTail == Some(d);
        }
      }
    }
  }

  /** A cut record in `lines` claims that the last legacy row it removed has digest `d`. */
  ghost predicate ClaimsLegacyTail(lines: seq<Line>, d: Digest) {
    exists k :: 0 <= k < |lines| && lines[k].Cut? && lines[k].cut.legacyTail == Some(d)
  }

  /** The links before a row do not accept the row's own digest. */
  lemma RowIsNotItsOwnLink(before: seq<Line>, row: Line)
    requires StandingAfter(before).Walking? && row.Row? && Accepts(StandingAfter(before).standing, row.prev)
    requires !ClaimsLegacyTail(before, Of(row))
    ensures !Accepts(StandingAfter(before).standing, Of(row))
  {
    var s := StandingAfter(before).standing;
    if !s.begun && s.legacyTail == Some(Of(row)) {
      LegacyTailReach(before, Of(row));
    }
    assert Reach(Of(row)) == 1 + Reach(row.prev);
  }

  /** The first non-blank line decides for a walk that stands elsewhere: the link it must carry is accepted
      there, and a damaged line pending there is diagnosed by it. */
  lemma {:induction false} FirstLineDecides(right: Walk, other: Walk, rest: seq<Line>)
    requires PendingIsTorn(right) && PendingIsTorn(other) && right.Walking? && other.Walking?
    requires right.standing.begun && right.standing.expected.Of? && NoCuts(rest) && |Chained(rest)| > 0
    requires Finish(None, Fold(Strict, None, right, rest)).Intact?
    ensures Finish(None, Fold(Strict, None, other, rest)).Intact? <==> AgreesAt(right, other, rest)
    decreases |rest|
  {
    if !Accepts(other.standing, right.standing.expected) {
      StopsAtFirstLink(None, right, other, rest);
    } else if |rest| > 0 {
      hide Fold, Chained, Step, Diagnoses;
      FoldCons(Strict, None, right, rest);
      FoldCons(Strict, None, other, rest);
      ChainedFirst(rest);
      OneStepDecides(right, other, rest[0]);
      var right', other' := Step(Strict, None, right, rest[0]), Step(Strict, None, other, rest[0]);
      if right'.Broken? {
        BrokenStays(Strict, None, right', rest[1..]);
      } else if rest[0].Blank? {
        NextFromTail(rest, 0);
        FirstLineDecides(right', other', rest[1..]);
      } else if other'.Broken? {
        BrokenStays(Strict, None, other', rest[1..]);
      } else {
        GoesOnAlike(right', other', rest[1..]);
      }
    }
  }

  /** One line: a blank one leaves both walks where they are, any other decides. */
  lemma OneStepDecides(right: Walk, other: Walk, line: Line)
    requires PendingIsTorn(right) && PendingIsTorn(other) && right.Walking? && other.Walking? && !line.Cut?
    requires right.standing.begun && right.standing.expected.Of? && Accepts(other.standing, right.standing.expected)
    ensures var right', other' := Step(Strict, None, right, line), Step(Strict, None, other, line);
            if line.Blank? then
              right' == right.(consumed := right.consumed + 1) && other' == other.(consumed := other.consumed + 1)
            else right'.Walking? ==>
              && (other'.Walking?
                  <==> (other.pending.Some? ==> Diagnoses(line, other.pending.value.line, Link(other.standing))))
              && (other'.Walking? ==>
                    && right'.standing.begun && Accepts(other'.standing, right'.standing.expected)
                    && Link(other'.standing) == right'.standing.expected
                    && (right'.pending.Some? <==> other'.pending.Some?)
                    && (right'.pending.Some? ==> right'.pending.value.line == other'.pending.value.line))
  {
  }

  predicate AgreesAt(right: Walk, other: Walk, rest: seq<Line>)
    requires right.Walking? && other.Walking? && PendingIsTorn(other)
  {
    var first := NextNonBlank(rest, 0);
    && Accepts(other.standing, right.standing.expected)
    && (other.pending.Some? ==>
          first < |rest| && Diagnoses(rest[first], other.pending.value.line, Link(other.standing)))
  }

  /** Exactly when an edited row goes unseen, whatever the edit: the walk takes the replacement, the digest of
      the row is a link it then accepts, and a damaged replacement is diagnosed by the next line. */
  lemma EditedRowIff(before: seq<Line>, row: Line, edited: Line, rest: seq<Line>)
    requires row.Row? && NoCuts(rest) && |Chained(rest)| > 0
    requires Verify(before + [row] + rest, None).Intact?
    ensures var here, right := Step(Strict, None, StandingAfter(before), edited),
                               Step(Strict, None, StandingAfter(before), row);
            && right.Walking? && right.standing.expected == Of(row)
            && (Verify(before + [edited] + rest, None).Intact? <==> here.Walking? && AgreesAt(right, here, rest))
  {
    var w := StandingAfter(before);
    Pieces(before, [row], rest);
    FoldOne(Strict, None, w, row);
    FoldOne(Strict, None, w, edited);
    FoldConcat(Strict, None, START, before + [edited], rest);
    FoldConcat(Strict, None, START, before, [edited]);
    StepLinks(Strict, None, w, row);
    var right, other := Step(Strict, None, w, row), Step(Strict, None, w, edited);
    if other.Broken? {
      BrokenStays(Strict, None, other, rest);
    } else {
      FirstLineDecides(right, other, rest);
    }
  }

  /** An edited row is evident.  In an accepted log, a chained row that is not the last replaced by anything
      but a cut record makes the verdict a failure: at the replacement when that does not link, at the
      first non-blank line after it otherwise. */
  lemma EditedRowIsEvident(before: seq<Line>, row: Line, edited: Line, rest: seq<Line>)
    requires row.Row? && edited != row && !edited.Cut?
    requires NoCuts(rest) && |Chained(rest)| > 0 && !ClaimsLegacyTail(before, Of(row))
    requires Verify(before + [row] + rest, None).Intact?
    ensures var verdict, here := Verify(before + [edited] + rest, None),
                                 Step(Strict, None, StandingAfter(before), edited);
            var first := NextNonBlank(rest, 0);
            && verdict.Failed?
            && first < |rest|
            && (if here.Broken? then verdict == Failed(here.reason, here.atEntry, here.detail)
                else && verdict.atEntry == (if here.pending.Some? then here.pending.value.at
                                            else |before| + 1 + first) + 1
                     && verdict.reason == (if here.pending.Some? || rest[first].Torn? then Malformed else BrokenLink))
  {
    var w := StandingAfter(before);
    Pieces(before, [row], rest);
    FoldOne(Strict, None, w, row);
    FoldOne(Strict, None, w, edited);
    FoldConcat(Strict, None, START, before + [edited], rest);
    FoldConcat(Strict, None, START, before, [edited]);
    StepLinks(Strict, None, w, row);
    RowIsNotItsOwnLink(before, row);
    var right, other := Step(Strict, None, w, row), Step(Strict, None, w, edited);
    SkipsToFirst(right, rest);
    if other.Broken? {
      BrokenStays(Strict, None, other, rest);
    } else {
      Consumed(Strict, None, START, before + [edited]);
      StepLinks(Strict, None, w, edited);
      StopsAtFirstLink(None, right, other, rest);
    }
  }

  /** A list with a chained row has a non-blank line. */
  lemma {:induction false} SkipsToFirst(w: Walk, rest: seq<Line>)
    requires |Chained(rest)| > 0
    ensures NextNonBlank(rest, 0) < |rest|
  {
    if NextNonBlank(rest, 0) == |rest| {
      SkippedAreBlank(rest, 0);
      BlanksHoldNoRow(rest);
    }
  }

  lemma {:induction false} BlanksHoldNoRow(lines: seq<Line>)
    requires forall k :: 0 <= k < |lines| ==> lines[k].Blank?
    ensures Chained(lines) == []
    decreases |lines|
  {
    if |lines| > 0 {
      BlanksHoldNoRow(lines[..|lines| - 1]);
    }
  }

  /** A row replaced by a cut record goes unseen exactly when the record is one the walk accepts there and
      leads to the row's digest. */
  lemma RowReplacedByCut(before: seq<Line>, row: Line, cut: CutRecord, rest: seq<Line>)
    requires row.Row? && NoCuts(rest) && |Chained(rest)| > 0
    requires Verify(before + [row] + rest, None).Intact?
    ensures var w := StandingAfter(before);
            && w.Walking?
            && (Verify(before + [Cut(cut)] + rest, None).Intact?
                <==> && w.pending.None?
                     && Fault(w.standing, Cut(cut)).None?
                     && Accepts(Move(w.standing, Cut(cut)), Of(row)))
  {
    var w := StandingAfter(before);
    Pieces(before, [row], rest);
    FoldOne(Strict, None, w, row);
    FoldOne(Strict, None, w, Cut(cut));
    FoldConcat(Strict, None, START, before + [Cut(cut)], rest);
    FoldConcat(Strict, None, START, before, [Cut(cut)]);
    var right, other := Step(Strict, None, w, row), Step(Strict, None, w, Cut(cut));
    StepLinks(Strict, None, w, row);
    if other.Broken? {
      BrokenStays(Strict, None, other, rest);
    } else if !Accepts(other.standing, Of(row)) {
      StopsAtFirstLink(None, right, other, rest);
    } else {
      GoesOnAlike(right, other, rest);
    }
  }

  /** From places that accept the same next link, lines without cuts that hold a row walk alike. */
  lemma {:induction false} GoesOnAlike(right: Walk, other: Walk, rest: seq<Line>)
    requires PendingIsTorn(right) && PendingIsTorn(other) && right.Walking? && other.Walking?
    requires right.standing.begun && Accepts(other.standing, right.standing.expected)
    requires Link(other.standing) == right.standing.expected
    requires right.pending.Some? <==> other.pending.Some?
    requires right.pending.Some? ==> right.pending.value.line == other.pending.value.line
    requires NoCuts(rest) && Fold(Strict, None, right, rest).Walking?
    ensures Fold(Strict, None, other, rest).Walking?
    ensures Fold(Strict, None, right, rest).pending.Some? <==> Fold(Strict, None, other, rest).pending.Some?
    decreases |rest|
  {
    if |rest| > 0 {
      FoldCons(Strict, None, right, rest);
      FoldCons(Strict, None, other, rest);
      var right', other' := Step(Strict, None, right, rest[0]), Step(Strict, None, other, rest[0]);
      if right'.Broken? {
        BrokenStays(Strict, None, right', rest[1..]);
      } else {
        GoesOnAlike(right', other', rest[1..]);
      }
    }
  }

  /** The links before a range of rows do not accept the digest of its last row. */
  lemma RangeIsNotItsOwnLink(before: seq<Line>, range: seq<Line>)
    requires StandingAfter(before).Walking? && NoCuts(range) && |Chained(range)| > 0
    requires Fold(Strict, None, StandingAfter(before), range).Walking?
    requires !ClaimsLegacyTail(before, Chained(range)[|Chained(range)| - 1])
    ensures var last, s := Chained(range)[|Chained(range)| - 1], StandingAfter(before).standing;
            && !Accepts(s, last)
            && Fold(Strict, None, StandingAfter(before), range).standing.begun
            && Fold(Strict, None, StandingAfter(before), range).standing.expected == last
  {
    RowsAreLinked(Strict, None, StandingAfter(before), range);
    var rows, s := Chained(range), StandingAfter(before).standing;
    var last := rows[|rows| - 1];
    assert Reach(rows[0]) == 1 + Reach(rows[0].line.prev);
    if |rows| > 1 {
      LaterReachesFurther(rows, 0, |rows| - 1);
    }
    if !s.begun && s.legacyTail == Some(last) {
      LegacyTailReach(before, last);
    }
  }

  /** A removed range is evident: an accepted log with chained rows on both sides of what was taken out,
      and no cut for it, is not accepted. */
  lemma RemovedRangeIsEvident(before: seq<Line>, removed: seq<Line>, rest: seq<Line>)
    requires NoCuts(removed) && NoCuts(rest) && |Chained(removed)| > 0 && |Chained(rest)| > 0
    requires !ClaimsLegacyTail(before, Chained(removed)[|Chained(removed)| - 1])
    requires Verify(before + removed + rest, None).Intact?
    ensures var verdict, w, first := Verify(before + rest, None), StandingAfter(before), NextNonBlank(rest, 0);
            && verdict.Failed?
            && w.Walking?
            && first < |rest|
            && verdict.atEntry == (if w.pending.Some? then w.pending.value.at else |before| + first) + 1
            && verdict.reason == (if w.pending.Some? || rest[first].Torn? then Malformed else BrokenLink)
  {
    var w := StandingAfter(before);
    Pieces(before, removed, rest);
    FoldConcat(Strict, None, START, before, rest);
    RangeIsNotItsOwnLink(before, removed);
    Consumed(Strict, None, START, before);
    StopsAtFirstLink(None, Fold(Strict, None, w, removed), w, rest);
  }

  /** Exactly when a removed range goes unseen: the digest of its last row is a link accepted before the range,
      which then a cut record there claims as legacy tail, and a damaged line pending there is diagnosed by
      what follows. */
  lemma RemovedRangeIff(before: seq<Line>, removed: seq<Line>, rest: seq<Line>)
    requires NoCuts(removed) && NoCuts(rest) && |Chained(removed)| > 0 && |Chained(rest)| > 0
    requires Verify(before + removed + rest, None).Intact?
    ensures var w := StandingAfter(before);
            var right := Fold(Strict, None, w, removed);
            && w.Walking? && right.Walking? && right.standing.expected == Chained(removed)[|Chained(removed)| - 1]
            && (Verify(before + rest, None).Intact? <==> AgreesAt(right, w, rest))
            && (AgreesAt(right, w, rest) ==> ClaimsLegacyTail(before, right.standing.expected))
  {
    var w := StandingAfter(before);
    Pieces(before, removed, rest);
    FoldConcat(Strict, None, START, before, rest);
    RowsAreLinked(Strict, None, w, removed);
    FirstLineDecides(Fold(Strict, None, w, removed), w, rest);
    if !ClaimsLegacyTail(before, Chained(removed)[|Chained(removed)| - 1]) {
      RangeIsNotItsOwnLink(before, removed);
    }
  }

  /** The bytes of a diagnosed damaged line are bound by its diagnosis: changing them is found there. */
  lemma ChangedDamageIsEvident(before: seq<Line>, damaged: Line, changed: Line, rest: seq<Line>)
    requires damaged.Torn? && changed.Torn? && damaged != changed
    requires Verify(before + [damaged] + rest, None).Intact?
    ensures Verify(before + [changed] + rest, None) == Failed(Malformed, |before| + 1, NotJson)
  {
    var w := StandingAfter(before);
    Pieces(before, [damaged], rest);
    FoldOne(Strict, None, w, damaged);
    FoldOne(Strict, None, w, changed);
    FoldConcat(Strict, None, START, before + [changed], rest);
    FoldConcat(Strict, None, START, before, [changed]);
    Consumed(Strict, None, START, before);
    WrongDiagnosis(Step(Strict, None, w, damaged), Step(Strict, None, w, changed), rest);
  }

  /** Walks that have begun and expect the same next link go on alike, cut records included. */
  lemma {:induction false} BegunAlike(right: Walk, other: Walk, rest: seq<Line>)
    requires right.Walking? && other.Walking? && right.standing.begun && other.standing.begun
    requires right.standing.expected == other.standing.expected
    requires PendingIsTorn(right) && PendingIsTorn(other) && (right.pending.Some? <==> other.pending.Some?)
    requires right.pending.Some? ==> right.pending.value.line == other.pending.value.line
    ensures Finish(None, Fold(Strict, None, right, rest)).Intact?
       <==> Finish(None, Fold(Strict, None, other, rest)).Intact?
    decreases |rest|
  {
    if |rest| > 0 {
      FoldCons(Strict, None, right, rest);
      FoldCons(Strict, None, other, rest);
      var right', other' := Step(Strict, None, right, rest[0]), Step(Strict, None, other, rest[0]);
      if right'.Broken? || other'.Broken? {
        BrokenStays(Strict, None, right', rest[1..]);
        BrokenStays(Strict, None, other', rest[1..]);
      } else {
        BegunAlike(right', other', rest[1..]);
      }
    }
  }

  /** Where a damaged line is pending, the row that diagnoses it decides for a walk without it: its link is
      accepted there or not. */
  lemma {:induction false} DiagnosisDecides(right: Walk, other: Walk, rest: seq<Line>)
    requires PendingIsTorn(right) && right.Walking? && other.Walking? && right.pending.Some? && other.pending.None?
    requires Finish(None, Fold(Strict, None, right, rest)).Intact?
    ensures Finish(None, Fold(Strict, None, other, rest)).Intact? <==> Accepts(other.standing, Link(right.standing))
    decreases |rest|
  {
    if |rest| > 0 {
      FoldCons(Strict, None, right, rest);
      FoldCons(Strict, None, other, rest);
      var right', other' := Step(Strict, None, right, rest[0]), Step(Strict, None, other, rest[0]);
      if right'.Broken? {
        BrokenStays(Strict, None, right', rest[1..]);
      } else if rest[0].Blank? {
        DiagnosisDecides(right', other', rest[1..]);
      } else if other'.Broken? {
        BrokenStays(Strict, None, other', rest[1..]);
      } else {
        BegunAlike(right', other', rest[1..]);
      }
    }
  }

  /** What may stand in place of a diagnosed damaged line, where the links stand at `s`: a blank line, or a
      line the walk accepts there and that leaves the link the diagnosis carries acceptable. */
  predicate PassesForDamage(s: Standing, damaged: Line, changed: Line) {
    if changed.Torn? then changed == damaged
    else changed.Blank? || (Fault(s, changed).None? && Accepts(Move(s, changed), Link(s)))
  }

  /** Exactly which lines can stand in place of a diagnosed damaged line unseen. */
  lemma ChangedDamageIff(before: seq<Line>, damaged: Line, changed: Line, rest: seq<Line>)
    requires damaged.Torn? && Verify(before + [damaged] + rest, None).Intact?
    ensures StandingAfter(before).Walking?
    ensures Verify(before + [changed] + rest, None).Intact?
       <==> PassesForDamage(StandingAfter(before).standing, damaged, changed)
  {
    var w := StandingAfter(before);
    Pieces(before, [damaged], rest);
    FoldOne(Strict, None, w, damaged);
    FoldOne(Strict, None, w, changed);
    FoldConcat(Strict, None, START, before + [changed], rest);
    FoldConcat(Strict, None, START, before, [changed]);
    var right, other := Step(Strict, None, w, damaged), Step(Strict, None, w, changed);
    if changed.Torn? {
      if changed != damaged {
        WrongDiagnosis(right, other, rest);
      }
    } else if other.Broken? {
      BrokenStays(Strict, None, other, rest);
    } else {
      DiagnosisDecides(right, other, rest);
    }
  }

  /** Line by line: a blank line always passes, a damaged one never, a legacy row only before the chain has begun
      and when the diagnosis links to genesis or to that row, a chained row only when a cut record before it
      claims it as legacy tail. */
  lemma DamageReplacements(before: seq<Line>, damaged: Line, changed: Line, rest: seq<Line>)
    requires damaged.Torn? && changed != damaged && Verify(before + [damaged] + rest, None).Intact?
    ensures StandingAfter(before).Walking?
    ensures var s, passes := StandingAfter(before).standing, Verify(before + [changed] + rest, None).Intact?;
            && (changed.Blank? ==> passes)
            && (changed.Torn? ==> !passes)
            && (changed.Legacy? ==> (passes <==> !s.begun && Link(s) in {Genesis, Of(changed)}))
            && (changed.Row? ==>
                  (passes <==> !s.begun && s.legacyTail == Some(Of(changed)) && Accepts(s, changed.prev)))
            && (changed.Row? && passes ==> ClaimsLegacyTail(before, Of(changed)))
  {
    ChangedDamageIff(before, damaged, changed, rest);
    hide Verify;
    var s := StandingAfter(before).standing;
    if changed.Row? {
      assert Reach(Of(changed)) == 1 + Reach(changed.prev);
      if s.legacyTail == Some(Of(changed)) {
        LegacyTailReach(before, Of(changed));
      }
    }
  }

  lemma {:induction false} WrongDiagnosis(right: Walk, other: Walk, rest: seq<Line>)
    requires PendingIsTorn(right) && PendingIsTorn(other) && right.Walking? && other.Walking?
    requires right.pending.Some? && other.pending.Some? && right.pending.value.line != other.pending.value.line
    requires Finish(None, Fold(Strict, None, right, rest)).Intact?
    ensures Finish(None, Fold(Strict, None, other, rest)) == Failed(Malformed, other.pending.value.at + 1, NotJson)
    decreases |rest|
  {
    if |rest| > 0 {
      FoldCons(Strict, None, right, rest);
      FoldCons(Strict, None, other, rest);
      var right', other' := Step(Strict, None, right, rest[0]), Step(Strict, None, other, rest[0]);
      if right'.Broken? {
        BrokenStays(Strict, None, right', rest[1..]);
      } else if other'.Broken? {
        BrokenStays(Strict, None, other', rest[1..]);
      } else {
        WrongDiagnosis(right', other', rest[1..]);
      }
    }
  }

  // ---------------------------------------------------------------------------
  // What the chain alone does not show.
  // ---------------------------------------------------------------------------

  /** Removing the end of an accepted log leaves a log that is accepted, unless it now ends damaged.  This
      is what the head checkpoint is for. */
  lemma RemovedEndIsUnseen(kept: seq<Line>, removed: seq<Line>)
    requires Verify(kept + removed, None).Intact?
    ensures Verify(kept, None).Intact? <==> !EndsDamaged(kept)
  {
    WalkingBefore(Strict, None, START, kept, removed);
    StrictOrTolerant(None, kept);
    PendingAtEnd(None, kept);
  }

  /** Removing a diagnosed damaged line whole leaves an accepted log: its diagnosis is a row like any other. */
  lemma RemovedDamageIsUnseen(before: seq<Line>, damaged: Line, rest: seq<Line>)
    requires damaged.Torn?
    requires Verify(before + [damaged] + rest, None).Intact?
    ensures Verify(before + rest, None).Intact?
  {
    var w := StandingAfter(before);
    Pieces(before, [damaged], rest);
    FoldOne(Strict, None, w, damaged);
    FoldConcat(Strict, None, START, before, rest);
    DiagnosisDecides(Step(Strict, None, w, damaged), w, rest);
  }
}
