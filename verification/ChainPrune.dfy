/** A prune is invisible to the walk: whole lines replaced by their cut record leave the links where they
    were, every position where it was, and every legacy row accounted for. */
module ChainPrune {
  import opened Common
  import opened ChainLines
  import opened ChainWalk
  import opened ChainFacts
  import opened ChainCuts

  /** What the removed lines did to the walk, told by their summary alone. */
  ghost predicate Summarises(before: Walk, after: Walk, s: Summary)
    requires before.Walking? && after.Walking?
  {
    var b, a := before.standing, after.standing;
    && after.tally.entries == before.tally.entries + s.removedChained
    && after.tally.unchainedPrefix == before.tally.unchainedPrefix + s.removedLegacy
    && after.tally.prunedThrough == before.tally.prunedThrough
    && after.tally.prunedLegacy == before.tally.prunedLegacy
    && after.tally.cuts == before.tally.cuts
    && (s.removedLegacy > 0 <==> s.legacyTail.Some?)
    && (s.removedLegacy > 0 ==> !b.begun)
    && a.legacyTail == (if s.legacyTail.Some? then s.legacyTail else b.legacyTail)
    && (s.removedChained == 0 <==> s.removedFrom.None?)
    && (s.removedChained == 0 <==> s.removedTo.None?)
    && (if s.removedChained == 0 then a == b.(legacyTail := a.legacyTail)
        else && Accepts(b.(legacyTail := a.legacyTail), s.removedFrom.value)
             && a == Advance(b.(legacyTail := a.legacyTail), s.removedFrom.value, s.removedTo.value))
  }

  lemma SummaryStep(rigour: Rigour, probe: Option<Digest>, before: Walk, after: Walk, s: Summary, line: Line)
    requires before.Walking? && after.Walking? && PendingIsTorn(after) && Summarises(before, after, s)
    requires !line.Cut? && Step(rigour, probe, after, line).Walking?
    ensures Summarises(before, Step(rigour, probe, after, line), Add(s, line))
  {
  }

  lemma {:induction false} SummaryTells(rigour: Rigour, probe: Option<Digest>, w: Walk, removed: seq<Line>)
    requires PendingIsTorn(w) && w.Walking? && NoCuts(removed)
    requires Fold(rigour, probe, w, removed).Walking?
    ensures Summarises(w, Fold(rigour, probe, w, removed), Summarise(EMPTY, removed))
    decreases |removed|
  {
    if |removed| > 0 {
      var last := |removed| - 1;
      assert removed[..last] + [removed[last]] == removed;
      WalkingBefore(rigour, probe, w, removed[..last], [removed[last]]);
      SummaryTells(rigour, probe, w, removed[..last]);
      SummaryStep(rigour, probe, w, Fold(rigour, probe, w, removed[..last]), Summarise(EMPTY, removed[..last]),
                  removed[last]);
    }
  }

  /** The cut file gains this: a line holding the record, when one is owed. */
  function CutLines(record: Option<CutRecord>): seq<Line> {
    if record.Some? then [Cut(record.value)] else []
  }

  /** The pruned walk stands where the whole one does.  A damaged line may have been removed from before
      the row that diagnoses it, so the pruned walk may have nothing pending. */
  ghost predicate StandsLike(whole: Walk, pruned: Walk) {
    && whole.Walking?
    && pruned.Walking?
    && pruned.standing == whole.standing
    && Tail(pruned.tally) == Tail(whole.tally)
    && pruned.tally.prunedLegacy + pruned.tally.unchainedPrefix
       == whole.tally.prunedLegacy + whole.tally.unchainedPrefix
    && (pruned.pending.None?
        || (whole.pending.Some? && pruned.pending.value.line == whole.pending.value.line))
  }

  /** The record made from a summary does to the walk what the summarised lines did. */
  lemma RecordStandsFor(probe: Option<Digest>, w: Walk, whole: Walk, s: Summary, cutAtMs: int)
    requires w.Walking? && w.pending.None? && whole.Walking? && Summarises(w, whole, s)
    requires Finalize(s, cutAtMs).Some?
    ensures var pruned := StepParsed(probe, w, Cut(Finalize(s, cutAtMs).value));
            && StandsLike(whole, pruned)
            && pruned.pending.None?
            && pruned.passedOver == w.passedOver
            && pruned.tally.entries == w.tally.entries
            && pruned.tally.prunedThrough == w.tally.prunedThrough + s.removedChained
  {
    var cut := Finalize(s, cutAtMs).value;
    assert PastLegacy(w.standing, cut) == w.standing.(legacyTail := whole.standing.legacyTail);
    assert LegacyOnly(cut) <==> s.removedChained == 0;
  }

  /** The cut record does to the walk what the removed lines did. */
  lemma CutStandsFor(rigour: Rigour, probe: Option<Digest>, w: Walk, removed: seq<Line>, cutAtMs: int)
    requires w.Walking? && w.pending.None? && NoCuts(removed)
    requires Fold(rigour, probe, w, removed).Walking?
    ensures var s := Summarise(EMPTY, removed);
            var whole := Fold(rigour, probe, w, removed);
            var pruned := Fold(rigour, probe, w, CutLines(Finalize(s, cutAtMs)));
            && StandsLike(whole, pruned)
            && pruned.pending.None?
            && pruned.passedOver == w.passedOver
            && pruned.tally.entries == w.tally.entries
            && whole.tally.entries == w.tally.entries + s.removedChained
            && pruned.tally.prunedThrough == w.tally.prunedThrough + s.removedChained
  {
    SummaryTells(rigour, probe, w, removed);
    var s, whole := Summarise(EMPTY, removed), Fold(rigour, probe, w, removed);
    var record := Finalize(s, cutAtMs);
    if record.Some? {
      FoldOne(rigour, probe, w, Cut(record.value));
      RecordStandsFor(probe, w, whole, s, cutAtMs);
    } else {
      assert Fold(rigour, probe, w, CutLines(record)) == w;
    }
  }

  lemma StandsLikeStep(probe: Option<Digest>, q: Option<Digest>, whole: Walk, pruned: Walk, line: Line)
    requires PendingIsTorn(whole) && PendingIsTorn(pruned) && StandsLike(whole, pruned) && !line.Cut?
    requires Step(Tolerant, probe, whole, line).Walking?
    ensures StandsLike(Step(Tolerant, probe, whole, line), Step(Tolerant, q, pruned, line))
    ensures var whole', pruned' := Step(Tolerant, probe, whole, line), Step(Tolerant, q, pruned, line);
            && |pruned'.passedOver| - |pruned.passedOver| <= |whole'.passedOver| - |whole.passedOver|
            && whole'.tally.entries - whole.tally.entries == pruned'.tally.entries - pruned.tally.entries
  {
  }

  /** What follows a prune walks as it did before it. */
  lemma {:induction false} RestWalksAlike(
    probe: Option<Digest>, q: Option<Digest>, whole: Walk, pruned: Walk, rest: seq<Line>)
    requires PendingIsTorn(whole) && PendingIsTorn(pruned) && StandsLike(whole, pruned) && NoCuts(rest)
    requires Fold(Tolerant, probe, whole, rest).Walking?
    ensures StandsLike(Fold(Tolerant, probe, whole, rest), Fold(Tolerant, q, pruned, rest))
    ensures var whole', pruned' := Fold(Tolerant, probe, whole, rest), Fold(Tolerant, q, pruned, rest);
            && |pruned'.passedOver| - |pruned.passedOver| <= |whole'.passedOver| - |whole.passedOver|
            && whole'.tally.entries - whole.tally.entries == pruned'.tally.entries - pruned.tally.entries
    decreases |rest|
  {
    if |rest| > 0 {
      var last := |rest| - 1;
      assert rest[..last] + [rest[last]] == rest;
      WalkingBefore(Tolerant, probe, whole, rest[..last], [rest[last]]);
      RestWalksAlike(probe, q, whole, pruned, rest[..last]);
      StandsLikeStep(probe, q, Fold(Tolerant, probe, whole, rest[..last]), Fold(Tolerant, q, pruned, rest[..last]),
                     rest[last]);
    }
  }

  /** Pruning, for the tolerant walk: `kept` comes before what is removed (the cut file), `rest` after it. */
  lemma PruneWalk(probe: Option<Digest>, kept: seq<Line>, removed: seq<Line>, rest: seq<Line>, cutAtMs: int)
    requires NoCuts(removed) && NoCuts(rest)
    requires Fold(Tolerant, probe, START, kept).Walking? && Fold(Tolerant, probe, START, kept).pending.None?
    requires Fold(Tolerant, probe, START, kept + removed + rest).Walking?
    ensures var s := Summarise(EMPTY, removed);
            var w := Fold(Tolerant, probe, START, kept);
            var whole := Fold(Tolerant, probe, START, kept + removed + rest);
            var pruned := Fold(Tolerant, probe, START, kept + CutLines(Finalize(s, cutAtMs)) + rest);
            && StandsLike(whole, pruned)
            && |pruned.passedOver| <= |whole.passedOver|
            && pruned.tally.entries + s.removedChained == whole.tally.entries
            && pruned.tally.prunedThrough == w.tally.prunedThrough + s.removedChained
            && whole.tally.prunedThrough == w.tally.prunedThrough
  {
    var s := Summarise(EMPTY, removed);
    var w := Fold(Tolerant, probe, START, kept);
    var cut := CutLines(Finalize(s, cutAtMs));
    WalkingBefore(Tolerant, probe, START, kept + removed, rest);
    FoldConcat(Tolerant, probe, START, kept, removed);
    FoldConcat(Tolerant, probe, START, kept, cut);
    FoldConcat(Tolerant, probe, START, kept + removed, rest);
    FoldConcat(Tolerant, probe, START, kept + cut, rest);
    CutStandsFor(Tolerant, probe, w, removed, cutAtMs);
    var whole, pruned := Fold(Tolerant, probe, w, removed), Fold(Tolerant, probe, w, cut);
    RestWalksAlike(probe, probe, whole, pruned, rest);
    PassedOverGrows(probe, w, removed);
    NoCutsNoPruned(probe, w, removed);
    NoCutsNoPruned(probe, whole, rest);
    NoCutsNoPruned(probe, pruned, rest);
  }

  lemma {:induction false} PassedOverGrows(probe: Option<Digest>, w: Walk, lines: seq<Line>)
    requires PendingIsTorn(w) && w.Walking? && Fold(Tolerant, probe, w, lines).Walking?
    ensures |w.passedOver| <= |Fold(Tolerant, probe, w, lines).passedOver|
    decreases |lines|
  {
    if |lines| > 0 {
      var last := |lines| - 1;
      assert lines[..last] + [lines[last]] == lines;
      WalkingBefore(Tolerant, probe, w, lines[..last], [lines[last]]);
      PassedOverGrows(probe, w, lines[..last]);
    }
  }

  lemma {:induction false} NoCutsNoPruned(probe: Option<Digest>, w: Walk, lines: seq<Line>)
    requires PendingIsTorn(w) && w.Walking? && NoCuts(lines) && Fold(Tolerant, probe, w, lines).Walking?
    ensures Fold(Tolerant, probe, w, lines).tally.prunedThrough == w.tally.prunedThrough
    decreases |lines|
  {
    if |lines| > 0 {
      var last := |lines| - 1;
      assert lines[..last] + [lines[last]] == lines;
      WalkingBefore(Tolerant, probe, w, lines[..last], [lines[last]]);
      NoCutsNoPruned(probe, w, lines[..last]);
      StepCounts(Tolerant, probe, Fold(Tolerant, probe, w, lines[..last]), lines[last]);
    }
  }

  /** Pruning preserves meaning.  On a log `verifyChain` accepts, replacing whole lines after the cut file by
      the record of what they were keeps it accepted, at the same tail position and with the same
      transition; chained rows move from `entries` to `prunedThrough`, legacy rows from `unchainedPrefix`
      to `prunedLegacy`, and the damage reported is that of the lines still there. */
  lemma PrunePreservesMeaning(
    probe: Option<Digest>, kept: seq<Line>, removed: seq<Line>, rest: seq<Line>, cutAtMs: int)
    requires NoCuts(removed) && NoCuts(rest) && !EndsDamaged(kept)
    requires Verify(kept + removed + rest, probe).Intact?
    ensures var s := Summarise(EMPTY, removed);
            var lines := kept + CutLines(Finalize(s, cutAtMs)) + rest;
            var whole, pruned := Verify(kept + removed + rest, probe), Verify(lines, probe);
            && pruned.Intact?
            && pruned.positions.tail == whole.positions.tail
            && pruned.transition == whole.transition
            && pruned.prunedLegacy + pruned.unchainedPrefix == whole.prunedLegacy + whole.unchainedPrefix
            && pruned.entries + s.removedChained == whole.entries
            && pruned.positions.prunedThrough == whole.positions.prunedThrough + s.removedChained
            && pruned.damages == DamagedLines(lines, 0)
  {
    var all := kept + removed + rest;
    var lines := kept + CutLines(Finalize(Summarise(EMPTY, removed), cutAtMs)) + rest;
    StrictOrTolerant(probe, all);
    assert all == kept + (removed + rest);
    WalkingBefore(Tolerant, probe, START, kept, removed + rest);
    PendingAtEnd(probe, kept);
    PruneWalk(probe, kept, removed, rest, cutAtMs);
    StrictOrTolerant(probe, lines);
    AcceptedReportsDamage(probe, lines);
  }
}
