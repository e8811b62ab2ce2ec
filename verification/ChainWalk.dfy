/** `verifyChain`: the walk over every line of the chain, oldest first.

    The specification is a left fold with one line of memory: a line that does not parse is kept `pending`
    until the next non-blank line is seen to diagnose it or not.  The method at the end is the source's own
    loop, which looks ahead instead. */
module ChainWalk {
  import opened Common
  import opened ChainLines

  datatype Transition = FromGenesis | FromLegacyTail

  /** A line the log itself diagnoses; `line` is its 1-based index in the walk. */
  datatype Damage = Damage(line: nat, byteLength: nat, digest: Digest)

  datatype Reason = BrokenLink | Malformed

  datatype Detail =
    | NotJson
    | CutVersionUnknown
    | CutFieldsMissing
    | PreFeatureCut
    | CutGap(claimed: Digest, at: Digest)
    | LinkMissing
    | LinkMismatch(link: Digest, expected: Digest)
    | FirstLinkUnproven(link: Digest)

  datatype Probe = Probe(digest: Digest, foundAt: Option<int>)
  datatype Positions = Positions(prunedThrough: int, tail: int, probe: Option<Probe>)

  datatype Verdict =
    | Intact(entries: nat, cuts: nat, unchainedPrefix: nat, prunedLegacy: int,
             transition: Option<Transition>, damages: seq<Damage>, positions: Positions)
    | Failed(reason: Reason, atEntry: nat, detail: Detail)

  datatype Pending = Pending(at: nat, line: Line)

  /** Whether the walk stops at a damaged line followed by another (`verifyChain`), or passes over it. */
  datatype Rigour = Strict | Tolerant

  /** Where the links stand. */
  datatype Standing = Standing(
    expected: Digest,
    begun: bool,
    legacyTail: Option<Digest>,
    transition: Option<Transition>)

  /** What has been counted. */
  datatype Tally = Tally(
    entries: nat,
    cuts: nat,
    unchainedPrefix: nat,
    prunedLegacy: int,
    prunedThrough: int,
    foundAt: Option<int>)

  datatype Walk =
    | Walking(
        standing: Standing,
        tally: Tally,
        damages: seq<Damage>,
        pending: Option<Pending>,
        passedOver: seq<Damage>,
        consumed: nat)
    | Broken(reason: Reason, atEntry: nat, detail: Detail)

  const START: Walk :=
    Walking(Standing(Genesis, false, None, None), Tally(0, 0, 0, 0, 0, None), [], None, [], 0)

  /** The link the next row must carry, for a writer that continues from here. */
  function Link(s: Standing): Digest {
    if s.begun then s.expected else s.legacyTail.GetOr(Genesis)
  }

  /** The position of the last chained row. */
  function Tail(t: Tally): int {
    t.prunedThrough + t.entries
  }

  function DamageOf(p: Pending): Damage
    requires p.line.Torn?
  {
    Damage(p.at + 1, ByteLength(p.line), Of(p.line))
  }

  /** Does `row` diagnose the damaged line, given the link of the last valid row before it? */
  predicate Diagnoses(row: Line, damaged: Line, before: Digest)
    requires damaged.Torn?
  {
    && row.Row?
    && row.body.Integrity?
    && row.body.condition == DamagedTail(CONDITION_VERSION, ByteLength(damaged), Of(damaged))
    && row.prev == before
  }

  /** May `link` be the link of the next item? */
  predicate Accepts(s: Standing, link: Digest) {
    if s.begun then link == s.expected else link == Genesis || Some(link) == s.legacyTail
  }

  /** The chain goes on from `expected`, having begun at the latest with `link`. */
  function Advance(s: Standing, link: Digest, expected: Digest): Standing {
    Standing(expected, true, s.legacyTail,
             if s.begun then s.transition
             else Some(if link == Genesis then FromGenesis else FromLegacyTail))
  }

  /** The legacy rows a cut accounts for. */
  function CutLegacy(c: CutRecord): int {
    if c.version.V2? then c.removedLegacy.GetOr(0) else 0
  }

  /** The chained rows a cut accounts for. */
  function CutChained(c: CutRecord): int {
    if c.version.V2? then c.removedChained.GetOr(0) else c.removedCount
  }

  /** The legacy tail after a cut that removed legacy rows. */
  function PastLegacy(s: Standing, c: CutRecord): Standing {
    if CutLegacy(c) > 0 then s.(legacyTail := c.legacyTail) else s
  }

  /** Why the walk stops at a line that parses, if it does. */
  function Fault(s: Standing, line: Line): Option<(Reason, Detail)>
    requires Parses(line)
  {
    match line
    case Cut(c) =>
      if c.version.UnknownVersion? then Some((Malformed, CutVersionUnknown))
      else if c.version.V2? && !WellFormedVersion2(c) then Some((Malformed, CutFieldsMissing))
      else if LegacyOnly(c) || Accepts(PastLegacy(s, c), c.removedFrom) then None
      else if !s.begun && c.version.V1? then Some((BrokenLink, PreFeatureCut))
      else Some((BrokenLink, CutGap(c.removedFrom, if s.begun then s.expected else Genesis)))
    case Legacy(_) =>
      if s.begun then Some((Malformed, LinkMissing)) else None
    case Row(_, prev) =>
      if Accepts(s, prev) then None
      else if s.begun then Some((BrokenLink, LinkMismatch(prev, s.expected)))
      else Some((BrokenLink, FirstLinkUnproven(prev)))
  }

  /** Where the links stand after a line that parses. */
  function Move(s: Standing, line: Line): Standing
    requires Parses(line)
  {
    match line
    case Cut(c) =>
      if LegacyOnly(c) then PastLegacy(s, c) else Advance(PastLegacy(s, c), c.removedFrom, c.removedTo)
    case Legacy(_) => s.(legacyTail := Some(Of(line)))
    case Row(_, prev) => Advance(s, prev, Of(line))
  }

  /** What is counted after a line that parses. */
  function Count(probe: Option<Digest>, t: Tally, line: Line): Tally
    requires Parses(line)
  {
    match line
    case Cut(c) =>
      t.(cuts := t.cuts + 1,
         prunedThrough := t.prunedThrough + CutChained(c),
         prunedLegacy := t.prunedLegacy + if CutLegacy(c) > 0 then CutLegacy(c) else 0)
    case Legacy(_) => t.(unchainedPrefix := t.unchainedPrefix + 1)
    case Row(_, _) =>
      t.(entries := t.entries + 1,
         foundAt := if t.foundAt.None? && probe == Some(Of(line)) then Some(Tail(t) + 1) else t.foundAt)
  }

  /** The pending damaged line has been diagnosed. */
  function Resolve(w: Walk): Walk
    requires PendingIsTorn(w)
  {
    if w.Broken? || w.pending.None? then w
    else w.(damages := w.damages + [DamageOf(w.pending.value)], pending := None)
  }

  predicate PendingIsTorn(w: Walk) {
    w.Walking? && w.pending.Some? ==> w.pending.value.line.Torn?
  }

  function StepParsed(probe: Option<Digest>, w: Walk, line: Line): Walk
    requires w.Walking? && Parses(line)
  {
    var fault := Fault(w.standing, line);
    if fault.Some? then Broken(fault.value.0, w.consumed + 1, fault.value.1)
    else
      Walking(Move(w.standing, line), Count(probe, w.tally, line), w.damages, w.pending, w.passedOver,
              w.consumed + 1)
  }

  function Step(rigour: Rigour, probe: Option<Digest>, w: Walk, line: Line): (w': Walk)
    requires PendingIsTorn(w)
    ensures PendingIsTorn(w')
  {
    if w.Broken? then w
    else if line.Blank? then w.(consumed := w.consumed + 1)
    else if line.Torn? then
      var waiting := w.(pending := Some(Pending(w.consumed, line)), consumed := w.consumed + 1);
      if w.pending.None? then waiting
      else if rigour.Strict? then Broken(Malformed, w.pending.value.at + 1, NotJson)
      else waiting.(passedOver := w.passedOver + [DamageOf(w.pending.value)])
    else if w.pending.Some? && !Diagnoses(line, w.pending.value.line, Link(w.standing)) then
      Broken(Malformed, w.pending.value.at + 1, NotJson)
    else
      StepParsed(probe, Resolve(w), line)
  }

  /** The walk over `lines`, from `w`. */
  function Fold(rigour: Rigour, probe: Option<Digest>, w: Walk, lines: seq<Line>): (w': Walk)
    requires PendingIsTorn(w)
    ensures PendingIsTorn(w')
    decreases |lines|
  {
    if |lines| == 0 then w
    else Step(rigour, probe, Fold(rigour, probe, w, lines[..|lines| - 1]), lines[|lines| - 1])
  }

  function Finish(probe: Option<Digest>, w: Walk): Verdict {
    if w.Broken? then Failed(w.reason, w.atEntry, w.detail)
    else if w.pending.Some? then Failed(Malformed, w.pending.value.at + 1, NotJson)
    else
      var t := w.tally;
      Intact(t.entries, t.cuts, t.unchainedPrefix, t.prunedLegacy, w.standing.transition, w.damages,
             Positions(t.prunedThrough, Tail(t),
                       if probe.None? then None else Some(Probe(probe.value, t.foundAt))))
  }

  /** What `verifyChain` answers. */
  function Verify(lines: seq<Line>, probe: Option<Digest>): Verdict {
    Finish(probe, Fold(Strict, probe, START, lines))
  }

  // ---------------------------------------------------------------------------
  // The fold composes.
  // ---------------------------------------------------------------------------

  lemma {:induction false} FoldConcat(rigour: Rigour, probe: Option<Digest>, w: Walk, a: seq<Line>, b: seq<Line>)
    requires PendingIsTorn(w)
    ensures Fold(rigour, probe, w, a + b) == Fold(rigour, probe, Fold(rigour, probe, w, a), b)
    decreases |b|
  {
    if |b| == 0 {
      assert a + b == a;
    } else {
      var last := |b| - 1;
      assert (a + b)[..|a + b| - 1] == a + b[..last];
      FoldConcat(rigour, probe, w, a, b[..last]);
    }
  }

  lemma FoldOne(rigour: Rigour, probe: Option<Digest>, w: Walk, line: Line)
    requires PendingIsTorn(w)
    ensures Fold(rigour, probe, w, [line]) == Step(rigour, probe, w, line)
  {
    assert [line][..0] == [];
    assert Fold(rigour, probe, w, [line][..0]) == w;
  }

  lemma FoldSnoc(rigour: Rigour, probe: Option<Digest>, w: Walk, lines: seq<Line>, line: Line)
    requires PendingIsTorn(w)
    ensures Fold(rigour, probe, w, lines + [line]) == Step(rigour, probe, Fold(rigour, probe, w, lines), line)
  {
    assert (lines + [line])[..|lines|] == lines;
  }

  lemma FoldCons(rigour: Rigour, probe: Option<Digest>, w: Walk, lines: seq<Line>)
    requires PendingIsTorn(w) && |lines| > 0
    ensures Fold(rigour, probe, w, lines) == Fold(rigour, probe, Step(rigour, probe, w, lines[0]), lines[1..])
  {
    FoldConcat(rigour, probe, w, [lines[0]], lines[1..]);
    FoldOne(rigour, probe, w, lines[0]);
    assert [lines[0]] + lines[1..] == lines;
  }

  lemma {:induction false} BrokenStays(rigour: Rigour, probe: Option<Digest>, w: Walk, lines: seq<Line>)
    requires w.Broken?
    ensures Fold(rigour, probe, w, lines) == w
    decreases |lines|
  {
    if |lines| > 0 {
      BrokenStays(rigour, probe, w, lines[..|lines| - 1]);
    }
  }

  /** A walk that is still going was going at every earlier line. */
  lemma WalkingBefore(rigour: Rigour, probe: Option<Digest>, w: Walk, a: seq<Line>, b: seq<Line>)
    requires PendingIsTorn(w) && Fold(rigour, probe, w, a + b).Walking?
    ensures Fold(rigour, probe, w, a).Walking?
  {
    FoldConcat(rigour, probe, w, a, b);
    if Fold(rigour, probe, w, a).Broken? {
      BrokenStays(rigour, probe, Fold(rigour, probe, w, a), b);
    }
  }

  lemma {:induction false} Consumed(rigour: Rigour, probe: Option<Digest>, w: Walk, lines: seq<Line>)
    requires PendingIsTorn(w) && w.Walking? && Fold(rigour, probe, w, lines).Walking?
    ensures Fold(rigour, probe, w, lines).consumed == w.consumed + |lines|
    decreases |lines|
  {
    if |lines| > 0 {
      var init := lines[..|lines| - 1];
      assert init + [lines[|lines| - 1]] == lines;
      WalkingBefore(rigour, probe, w, init, [lines[|lines| - 1]]);
      Consumed(rigour, probe, w, init);
    }
  }

  // ---------------------------------------------------------------------------
  // The source's loop.
  // ---------------------------------------------------------------------------

  /** The next non-blank line at or after `index`. */
  function NextNonBlank(lines: seq<Line>, index: nat): (next: nat)
    requires index <= |lines|
    ensures index <= next <= |lines|
    decreases |lines| - index
  {
    if index < |lines| && lines[index].Blank? then NextNonBlank(lines, index + 1) else index
  }

  lemma {:induction false} SkippedAreBlank(lines: seq<Line>, index: nat)
    requires index <= |lines|
    ensures var next := NextNonBlank(lines, index);
            && (forall k :: index <= k < next ==> lines[k].Blank?)
            && (next < |lines| ==> !lines[next].Blank?)
    decreases |lines| - index
  {
    if index < |lines| && lines[index].Blank? {
      SkippedAreBlank(lines, index + 1);
    }
  }

  /** Is the damaged line at `index` diagnosed by the line after it? */
  predicate DiagnosedAhead(lines: seq<Line>, index: nat, before: Digest)
    requires index < |lines| && lines[index].Torn?
  {
    var next := NextNonBlank(lines, index + 1);
    next < |lines| && Diagnoses(lines[next], lines[index], before)
  }

  method DiagnoseDamage(lines: seq<Line>, index: nat, before: Option<Digest>) returns (damage: Option<Damage>)
    requires index < |lines| && lines[index].Torn?
    ensures damage == if DiagnosedAhead(lines, index, before.GetOr(Genesis))
                      then Some(DamageOf(Pending(index, lines[index]))) else None
  {
    var next := index + 1;
    while next < |lines| && lines[next].Blank?
      invariant index + 1 <= next <= |lines|
      invariant NextNonBlank(lines, index + 1) == NextNonBlank(lines, next)
    {
      next := next + 1;
    }
    if next >= |lines| {
      return None;
    }
    var row := lines[next];
    if !row.Row? || !row.body.Integrity? || !row.body.condition.DamagedTail?
       || row.body.condition.conditionVersion != CONDITION_VERSION
    {
      return None;
    }
    var condition := row.body.condition;
    if condition.byteLength != ByteLength(lines[index]) || condition.digest != Of(lines[index]) {
      return None;
    }
    if row.prev != before.GetOr(Genesis) {
      return None;
    }
    return Some(DamageOf(Pending(index, lines[index])));
  }

  /** Blank lines change only the count of lines. */
  lemma {:induction false} FoldBlanks(rigour: Rigour, probe: Option<Digest>, w: Walk, blanks: seq<Line>)
    requires PendingIsTorn(w) && w.Walking?
    requires forall k :: 0 <= k < |blanks| ==> blanks[k].Blank?
    ensures Fold(rigour, probe, w, blanks) == w.(consumed := w.consumed + |blanks|)
    decreases |blanks|
  {
    if |blanks| > 0 {
      FoldBlanks(rigour, probe, w, blanks[..|blanks| - 1]);
    }
  }

  /** A walk stopped part way gives the verdict. */
  lemma StoppedIsVerdict(probe: Option<Digest>, lines: seq<Line>, index: nat)
    requires index <= |lines|
    requires Fold(Strict, probe, START, lines[..index]).Broken?
    ensures Verify(lines, probe) == Finish(probe, Fold(Strict, probe, START, lines[..index]))
  {
    FoldConcat(Strict, probe, START, lines[..index], lines[index..]);
    assert lines[..index] + lines[index..] == lines;
    BrokenStays(Strict, probe, Fold(Strict, probe, START, lines[..index]), lines[index..]);
  }

  /** One more line of a prefix is one more step. */
  lemma FoldNext(rigour: Rigour, probe: Option<Digest>, lines: seq<Line>, index: nat)
    requires index < |lines|
    ensures Fold(rigour, probe, START, lines[..index + 1])
         == Step(rigour, probe, Fold(rigour, probe, START, lines[..index]), lines[index])
  {
    assert lines[..index + 1][..index] == lines[..index];
  }

  /** Skipping blank lines changes only the count of lines. */
  lemma FoldToNext(rigour: Rigour, probe: Option<Digest>, lines: seq<Line>, index: nat)
    requires index <= |lines|
    requires Fold(rigour, probe, START, lines[..index]).Walking?
    ensures var w, next := Fold(rigour, probe, START, lines[..index]), NextNonBlank(lines, index);
            Fold(rigour, probe, START, lines[..next]) == w.(consumed := w.consumed + (next - index))
  {
    var next := NextNonBlank(lines, index);
    var before, blanks := lines[..index], lines[index..next];
    assert before + blanks == lines[..next];
    SkippedAreBlank(lines, index);
    FoldConcat(rigour, probe, START, before, blanks);
    FoldBlanks(rigour, probe, Fold(rigour, probe, START, before), blanks);
  }

  /** An undiagnosed damaged line ends the strict walk, at that line. */
  lemma UndiagnosedFails(probe: Option<Digest>, lines: seq<Line>, index: nat, w: Walk)
    requires index < |lines| && lines[index].Torn?
    requires w == Fold(Strict, probe, START, lines[..index])
    requires w.Walking? && w.pending.None? && w.consumed == index
    requires !DiagnosedAhead(lines, index, Link(w.standing))
    ensures Verify(lines, probe) == Failed(Malformed, index + 1, NotJson)
  {
    hide Fold, StepParsed, Resolve;
    var next := NextNonBlank(lines, index + 1);
    SkippedAreBlank(lines, index + 1);
    FoldNext(Strict, probe, lines, index);
    FoldToNext(Strict, probe, lines, index + 1);
    if next < |lines| {
      FoldNext(Strict, probe, lines, next);
      assert Fold(Strict, probe, START, lines[..next + 1]) == Broken(Malformed, index + 1, NotJson);
      StoppedIsVerdict(probe, lines, next + 1);
    } else {
      assert lines[..next] == lines;
    }
  }

  /** The walk at line `index` as the source's loop holds it: a diagnosed line is already in `damages`. */
  ghost predicate LoopHolds(probe: Option<Digest>, lines: seq<Line>, index: nat, held: Walk)
    requires index <= |lines|
  {
    var w := Fold(Strict, probe, START, lines[..index]);
    && w.Walking?
    && held == Resolve(w)
    && held.consumed == index
    && (w.pending.Some? ==>
          var next := NextNonBlank(lines, index);
          next < |lines| && Diagnoses(lines[next], w.pending.value.line, Link(w.standing)))
  }

  /** What the loop does with a line that parses is one step of the walk. */
  lemma LoopParsed(probe: Option<Digest>, lines: seq<Line>, index: nat, held: Walk)
    requires index < |lines| && LoopHolds(probe, lines, index, held) && Parses(lines[index])
    ensures held.Walking? && held.pending.None?
    ensures var next := StepParsed(probe, held, lines[index]);
            if next.Broken? then Verify(lines, probe) == Finish(probe, next)
            else LoopHolds(probe, lines, index + 1, next)
  {
    FoldNext(Strict, probe, lines, index);
    if StepParsed(probe, held, lines[index]).Broken? {
      StoppedIsVerdict(probe, lines, index + 1);
    }
  }

  lemma LoopBlank(probe: Option<Digest>, lines: seq<Line>, index: nat, held: Walk)
    requires index < |lines| && LoopHolds(probe, lines, index, held) && lines[index].Blank?
    ensures held.Walking? && LoopHolds(probe, lines, index + 1, held.(consumed := index + 1))
  {
    FoldNext(Strict, probe, lines, index);
  }

  lemma LoopDamaged(probe: Option<Digest>, lines: seq<Line>, index: nat, held: Walk)
    requires index < |lines| && LoopHolds(probe, lines, index, held) && lines[index].Torn?
    ensures held.Walking?
    ensures if DiagnosedAhead(lines, index, Link(held.standing))
            then LoopHolds(probe, lines, index + 1,
                           held.(damages := held.damages + [DamageOf(Pending(index, lines[index]))],
                                 consumed := index + 1))
            else Verify(lines, probe) == Failed(Malformed, index + 1, NotJson)
  {
    var w := Fold(Strict, probe, START, lines[..index]);
    FoldNext(Strict, probe, lines, index);
    if !DiagnosedAhead(lines, index, Link(held.standing)) {
      UndiagnosedFails(probe, lines, index, w);
    }
  }

  /** `verifyChain`: one loop, looking ahead from a damaged line instead of remembering it.  `walk` groups
      the source's local variables. */
  method VerifyChain(lines: seq<Line>, probe: Option<Digest>) returns (verdict: Verdict)
    ensures verdict == Verify(lines, probe)
  {
    assert lines[..0] == [];
    var walk := START;
    for index := 0 to |lines|
      invariant LoopHolds(probe, lines, index, walk)
    {
      match lines[index]
      case Blank =>
        LoopBlank(probe, lines, index, walk);
        walk := walk.(consumed := index + 1);
      case Torn(_, _) =>
        LoopDamaged(probe, lines, index, walk);
        var damage := DiagnoseDamage(lines, index,
            if walk.standing.begun then Some(walk.standing.expected) else walk.standing.legacyTail);
        if damage.None? {
          return Failed(Malformed, index + 1, NotJson);
        }
        walk := walk.(damages := walk.damages + [damage.value], consumed := index + 1);
      case _ =>
        LoopParsed(probe, lines, index, walk);
        walk := StepParsed(probe, walk, lines[index]);
        if walk.Broken? {
          return Failed(walk.reason, walk.atEntry, walk.detail);
        }
    }
    assert lines[..|lines|] == lines;
    var tally := walk.tally;
    verdict := Intact(tally.entries, tally.cuts, tally.unchainedPrefix, tally.prunedLegacy,
      walk.standing.transition, walk.damages,
      Positions(tally.prunedThrough, Tail(tally),
                if probe.None? then None else Some(Probe(probe.value, tally.foundAt))));
  }
}
