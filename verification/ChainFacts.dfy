/** What an accepted chain says about its lines. */
module ChainFacts {
  import opened Common
  import opened ChainLines
  import opened ChainWalk

  /** Every damaged line of `lines`, numbered from `from`. */
  function DamagedLines(lines: seq<Line>, from: nat): seq<Damage>
    decreases |lines|
  {
    if |lines| == 0 then []
    else
      var last := |lines| - 1;
      DamagedLines(lines[..last], from)
        + if lines[last].Torn? then [DamageOf(Pending(from + last, lines[last]))] else []
  }

  /** A damaged line whose next non-blank line is damaged too. */
  ghost predicate DamagedTwice(lines: seq<Line>, i: nat, j: nat) {
    && i < j < |lines|
    && lines[i].Torn? && lines[j].Torn?
    && forall k :: i < k < j ==> lines[k].Blank?
  }

  ghost predicate NoDamagedPair(lines: seq<Line>) {
    forall i: nat, j: nat :: !DamagedTwice(lines, i, j)
  }

  /** The last non-blank line is damaged. */
  predicate EndsDamaged(lines: seq<Line>)
    decreases |lines|
  {
    && |lines| > 0
    && (lines[|lines| - 1].Torn? || (lines[|lines| - 1].Blank? && EndsDamaged(lines[..|lines| - 1])))
  }

  /** The strict walk stops where the tolerant one passes over a line, and agrees with it until then. */
  lemma {:induction false} StrictOrTolerant(probe: Option<Digest>, lines: seq<Line>)
    ensures var strict, tolerant := Fold(Strict, probe, START, lines), Fold(Tolerant, probe, START, lines);
            if tolerant.Walking? && tolerant.passedOver == [] then strict == tolerant else strict.Broken?
    decreases |lines|
  {
    if |lines| > 0 {
      StrictOrTolerant(probe, lines[..|lines| - 1]);
    }
  }

  /** The tolerant walk ends in a pending line exactly when the lines end damaged. */
  lemma {:induction false} PendingAtEnd(probe: Option<Digest>, lines: seq<Line>)
    requires Fold(Tolerant, probe, START, lines).Walking?
    ensures Fold(Tolerant, probe, START, lines).pending.Some? <==> EndsDamaged(lines)
    decreases |lines|
  {
    if |lines| > 0 {
      PendingAtEnd(probe, lines[..|lines| - 1]);
    }
  }

  /** Where the pending line is: the last non-blank line. */
  lemma {:induction false} PendingPlace(probe: Option<Digest>, lines: seq<Line>)
    requires Fold(Tolerant, probe, START, lines).Walking?
    ensures var w := Fold(Tolerant, probe, START, lines);
            && w.consumed == |lines|
            && (w.pending.Some? ==>
                  var at := w.pending.value.at;
                  at < |lines| && lines[at] == w.pending.value.line && forall k :: at < k < |lines| ==> lines[k].Blank?)
            && (w.pending.None? ==> forall i: nat {:trigger lines[i]} :: i < |lines| && lines[i].Torn? ==>
                  exists k :: i < k < |lines| && !lines[k].Blank?)
    decreases |lines|
  {
    if |lines| > 0 {
      var last := |lines| - 1;
      var init := lines[..last];
      PendingPlace(probe, init);
      var v := Fold(Tolerant, probe, START, init);
      forall i: nat | i < |lines| && lines[i].Torn? && Fold(Tolerant, probe, START, lines).pending.None?
        ensures exists k :: i < k < |lines| && !lines[k].Blank?
      {
        assert i < last;
        assert init[i] == lines[i];
        if lines[last].Blank? {
          var k :| i < k < |init| && !init[k].Blank?;
          assert !lines[k].Blank?;
        }
      }
    }
  }

  /** A pair in the longer list is one in the shorter, or ends at the last line. */
  lemma PairsGrow(init: seq<Line>, line: Line)
    ensures NoDamagedPair(init + [line])
       <==> NoDamagedPair(init) && forall i: nat :: !DamagedTwice(init + [line], i, |init|)
  {
    var lines := init + [line];
    forall i: nat, j: nat | DamagedTwice(init, i, j) ensures DamagedTwice(lines, i, j) {
    }
    forall i: nat, j: nat | DamagedTwice(lines, i, j) && j < |init| ensures DamagedTwice(init, i, j) {
      assert forall k :: i < k < j ==> lines[k] == init[k];
    }
  }

  /** The last line makes a pair exactly when it is damaged and a damaged line is pending. */
  lemma PairAtEnd(probe: Option<Digest>, init: seq<Line>, line: Line)
    requires Fold(Tolerant, probe, START, init).Walking?
    ensures (exists i: nat :: DamagedTwice(init + [line], i, |init|))
       <==> line.Torn? && Fold(Tolerant, probe, START, init).pending.Some?
  {
    PendingPlace(probe, init);
    var v := Fold(Tolerant, probe, START, init);
    var lines := init + [line];
    if line.Torn? && v.pending.Some? {
      assert DamagedTwice(lines, v.pending.value.at, |init|);
    }
    if v.pending.None? {
      forall i: nat ensures !DamagedTwice(lines, i, |init|) {
        if i < |init| && lines[i].Torn? {
          assert init[i].Torn?;
          var k :| i < k < |init| && !init[k].Blank?;
          assert !lines[k].Blank?;
        }
      }
    }
  }

  /** The tolerant walk passes over a line exactly when some damaged line is followed by another. */
  lemma {:induction false} PassedOverIffPair(probe: Option<Digest>, lines: seq<Line>)
    requires Fold(Tolerant, probe, START, lines).Walking?
    ensures Fold(Tolerant, probe, START, lines).passedOver == [] <==> NoDamagedPair(lines)
    decreases |lines|
  {
    if |lines| > 0 {
      var last := |lines| - 1;
      var init := lines[..last];
      assert init + [lines[last]] == lines;
      PassedOverIffPair(probe, init);
      PairsGrow(init, lines[last]);
      PairAtEnd(probe, init, lines[last]);
    }
  }

  /** In the strict walk every damaged line has been diagnosed, in order, or is the pending one. */
  lemma {:induction false} DamagesAreTheDamagedLines(probe: Option<Digest>, lines: seq<Line>)
    requires Fold(Strict, probe, START, lines).Walking?
    ensures var w := Fold(Strict, probe, START, lines);
            && w.consumed == |lines|
            && w.damages + (if w.pending.Some? then [DamageOf(w.pending.value)] else []) == DamagedLines(lines, 0)
    decreases |lines|
  {
    if |lines| > 0 {
      DamagesAreTheDamagedLines(probe, lines[..|lines| - 1]);
    }
  }

  /** An accepted log reports exactly its damaged lines. */
  lemma AcceptedReportsDamage(probe: Option<Digest>, lines: seq<Line>)
    requires Verify(lines, probe).Intact?
    ensures Verify(lines, probe).damages == DamagedLines(lines, 0)
  {
    DamagesAreTheDamagedLines(probe, lines);
  }

  /** `verifyChain` accepts a log exactly when the walk that passes over damaged lines followed by another
      takes every line, each other damaged line being diagnosed by the row after it, no damaged line is
      followed by another, and the last line is not damaged. */
  lemma AcceptedIff(probe: Option<Digest>, lines: seq<Line>)
    ensures Verify(lines, probe).Intact?
       <==> && Fold(Tolerant, probe, START, lines).Walking?
            && NoDamagedPair(lines)
            && !EndsDamaged(lines)
  {
    StrictOrTolerant(probe, lines);
    if Fold(Tolerant, probe, START, lines).Walking? {
      PassedOverIffPair(probe, lines);
      PendingAtEnd(probe, lines);
    }
  }

  // ---------------------------------------------------------------------------
  // The chained rows.
  // ---------------------------------------------------------------------------

  /** The digests of the chained rows, in order. */
  function Chained(lines: seq<Line>): seq<Digest>
    decreases |lines|
  {
    if |lines| == 0 then []
    else
      var last := |lines| - 1;
      Chained(lines[..last]) + if lines[last].Row? then [Of(lines[last])] else []
  }

  lemma {:induction false} ChainedConcat(a: seq<Line>, b: seq<Line>)
    ensures Chained(a + b) == Chained(a) + Chained(b)
    decreases |b|
  {
    if |b| == 0 {
      assert a + b == a;
    } else {
      var last := |b| - 1;
      assert (a + b)[..|a + b| - 1] == a + b[..last];
      ChainedConcat(a, b[..last]);
    }
  }

  predicate NoCuts(lines: seq<Line>) {
    forall k :: 0 <= k < |lines| ==> !lines[k].Cut?
  }

  /** The 1-based place of the first occurrence. */
  function FirstAt(digests: seq<Digest>, d: Digest): (at: Option<int>)
    ensures at.Some? ==> 1 <= at.value <= |digests| && digests[at.value - 1] == d
    ensures at.None? <==> d !in digests
    decreases |digests|
  {
    if |digests| == 0 then None
    else
      var last := |digests| - 1;
      var before := FirstAt(digests[..last], d);
      if before.Some? then before
      else if digests[last] == d then Some(|digests|)
      else None
  }

  /** One line that is no cut moves the counts by one chained row or by nothing. */
  lemma StepCounts(rigour: Rigour, probe: Option<Digest>, w: Walk, line: Line)
    requires PendingIsTorn(w) && w.Walking? && !line.Cut?
    requires Step(rigour, probe, w, line).Walking?
    ensures var w' := Step(rigour, probe, w, line);
            w'.tally == if Parses(line) then Count(probe, w.tally, line) else w.tally
  {
  }

  /** What one more line adds to the rows, and where a digest is first among them. */
  lemma OneRowFurther(lines: seq<Line>, line: Line, d: Digest)
    ensures Chained(lines + [line]) == Chained(lines) + if line.Row? then [Of(line)] else []
    ensures FirstAt(Chained(lines + [line]), d)
         == if FirstAt(Chained(lines), d).Some? then FirstAt(Chained(lines), d)
            else if line.Row? && Of(line) == d then Some(|Chained(lines)| + 1) else None
  {
    assert (lines + [line])[..|lines|] == lines;
    var rows := Chained(lines);
    if line.Row? {
      assert (rows + [Of(line)])[..|rows|] == rows;
    } else {
      assert rows + [] == rows;
    }
  }

  /** What the walk has counted from `t` on, having passed `rows`. */
  predicate Counted(t: Tally, t': Tally, rows: seq<Digest>, probe: Option<Digest>) {
    && t'.entries == |rows|
    && t'.prunedThrough == t.prunedThrough
    && t'.prunedLegacy == t.prunedLegacy
    && (probe.Some? ==>
          var at := FirstAt(rows, probe.value);
          t'.foundAt == if at.Some? then Some(t.prunedThrough + at.value) else None)
  }

  lemma CountedOn(t: Tally, t': Tally, lines: seq<Line>, line: Line, probe: Option<Digest>)
    requires Counted(t, t', Chained(lines), probe) && !line.Cut?
    ensures Counted(t, if Parses(line) then Count(probe, t', line) else t', Chained(lines + [line]), probe)
  {
    hide Chained, FirstAt;
    OneRowFurther(lines, line, probe.GetOr(Genesis));
  }

  /** Over lines without cuts, the walk counts the chained rows and finds the probe's first place. */
  lemma {:induction false} CountsRows(rigour: Rigour, probe: Option<Digest>, w: Walk, lines: seq<Line>)
    requires PendingIsTorn(w) && w.Walking? && w.tally.entries == 0 && w.tally.foundAt.None? && NoCuts(lines)
    requires Fold(rigour, probe, w, lines).Walking?
    ensures var t, t' := w.tally, Fold(rigour, probe, w, lines).tally;
            && t'.entries == |Chained(lines)|
            && t'.prunedThrough == t.prunedThrough
            && t'.prunedLegacy == t.prunedLegacy
            && (probe.Some? ==>
                  var at := FirstAt(Chained(lines), probe.value);
                  t'.foundAt == if at.Some? then Some(t.prunedThrough + at.value) else None)
    decreases |lines|
  {
    hide Fold, Chained, FirstAt;
    AllCounted(rigour, probe, w, lines);
  }

  lemma {:induction false} AllCounted(rigour: Rigour, probe: Option<Digest>, w: Walk, lines: seq<Line>)
    requires PendingIsTorn(w) && w.Walking? && w.tally.entries == 0 && w.tally.foundAt.None? && NoCuts(lines)
    requires Fold(rigour, probe, w, lines).Walking?
    ensures Counted(w.tally, Fold(rigour, probe, w, lines).tally, Chained(lines), probe)
    decreases |lines|
  {
    if |lines| > 0 {
      hide Step, Chained, Counted, Count;
      var last := |lines| - 1;
      var init := lines[..last];
      assert init + [lines[last]] == lines;
      WalkingBefore(rigour, probe, w, init, [lines[last]]);
      AllCounted(rigour, probe, w, init);
      var v := Fold(rigour, probe, w, init);
      FoldSnoc(rigour, probe, w, init, lines[last]);
      hide Fold;
      StepCounts(rigour, probe, v, lines[last]);
      CountedOn(w.tally, v.tally, init, lines[last], probe);
    }
  }

  /** The same walk, but for where the probe was found. */
  predicate SameButProbe(a: Walk, b: Walk) {
    if a.Broken? then a == b
    else b.Walking? && a == b.(tally := b.tally.(foundAt := a.tally.foundAt))
  }

  /** The probe changes nothing but where it was found. */
  lemma {:induction false} ProbeOnlyFinds(rigour: Rigour, p: Option<Digest>, q: Option<Digest>, lines: seq<Line>)
    ensures SameButProbe(Fold(rigour, p, START, lines), Fold(rigour, q, START, lines))
    decreases |lines|
  {
    if |lines| > 0 {
      ProbeOnlyFinds(rigour, p, q, lines[..|lines| - 1]);
    }
  }
}
