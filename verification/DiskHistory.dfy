/** The history behind the files: every chained row ever landed, of which the files hold the end.  Each
    elementary change of the files keeps it. */
module DiskHistory {
  import opened Common
  import opened ChainLines
  import opened ChainWalk
  import opened ChainFacts
  import opened ChainCuts
  import opened ChainPrune
  import opened ChainEvidence
  import opened AuditDisk
  import opened Retention
  import opened WriterSteps

  // ---------------------------------------------------------------------------
  // Where the tolerant walk stands, without line numbers.
  // ---------------------------------------------------------------------------

  /** `paired` is whether a damaged line was followed by another. */
  datatype Brief = Brief(standing: Standing, tally: Tally, pending: Option<Line>, paired: bool)

  function BriefOf(w: Walk): Option<Brief> {
    if w.Broken? then None
    else Some(Brief(w.standing, w.tally,
                    if w.pending.Some? then Some(w.pending.value.line) else None, w.passedOver != []))
  }

  function View(lines: seq<Line>): Option<Brief> {
    BriefOf(Fold(Tolerant, None, START, lines))
  }

  predicate PendingTorn(b: Brief) {
    b.pending.Some? ==> b.pending.value.Torn?
  }

  function StepBrief(b: Brief, line: Line): Option<Brief>
    requires PendingTorn(b)
  {
    if line.Blank? then Some(b)
    else if line.Torn? then Some(b.(pending := Some(line), paired := b.paired || b.pending.Some?))
    else if b.pending.Some? && !Diagnoses(line, b.pending.value, Link(b.standing)) then None
    else if Fault(b.standing, line).Some? then None
    else Some(Brief(Move(b.standing, line), Count(None, b.tally, line), None, b.paired))
  }

  lemma ViewStep(w: Walk, line: Line)
    requires w.Walking? && PendingIsTorn(w)
    ensures BriefOf(Step(Tolerant, None, w, line)) == StepBrief(BriefOf(w).value, line)
  {
  }

  lemma ViewSnoc(lines: seq<Line>, line: Line)
    ensures View(lines).Some? ==> PendingTorn(View(lines).value)
    ensures View(lines + [line]) == if View(lines).None? then None else StepBrief(View(lines).value, line)
  {
    FoldSnoc(Tolerant, None, START, lines, line);
    var w := Fold(Tolerant, None, START, lines);
    if w.Walking? {
      ViewStep(w, line);
    }
  }

  /** What `verifyChain` answers, read off the view. */
  lemma VerifyFromView(lines: seq<Line>, probe: Option<Digest>)
    ensures var v, b := Verify(lines, probe), View(lines);
            && (v.Intact? <==> b.Some? && !b.value.paired && b.value.pending.None?)
            && (v.Intact? ==>
                  && v.positions.tail == Tail(b.value.tally)
                  && v.positions.prunedThrough == b.value.tally.prunedThrough
                  && v.entries == b.value.tally.entries)
  {
    StrictOrTolerant(probe, lines);
    ProbeOnlyFinds(Tolerant, probe, None, lines);
  }

  // ---------------------------------------------------------------------------
  // The files and their history.
  // ---------------------------------------------------------------------------

  predicate IsRow(d: Digest) {
    d.Of? && d.line.Row?
  }

  /** How the files are laid out: cut records apart, whole and honest, archives in chronological order, each
      with something a cut record could account for. */
  ghost predicate WellKept(d: Disk) {
    && CutsApart(d)
    && CutsEnded(d)
    && Chronological(d.archives)
    && (forall i :: 0 <= i < |d.archives| ==> LastParsed(d.archives[i].lines).Some?)
    && CutsHonest(CutFile(d))
  }

  /** The cut records begin the chain only when they removed rows, and name no row as the last legacy row. */
  ghost predicate CutsHonest(cutLines: seq<Line>) {
    View(cutLines).Some? ==>
      var b := View(cutLines).value;
      && b.tally.prunedThrough >= 0
      && (b.standing.begun ==> b.tally.prunedThrough > 0)
      && (b.standing.legacyTail.Some? ==> !IsRow(b.standing.legacyTail.value))
  }

  /** The walk of the files stands at the end of `history`, and the files hold its rows past the pruned. */
  ghost predicate StandsAt(b: Brief, rows: seq<Digest>, history: seq<Digest>) {
    && PendingTorn(b)
    && 0 <= b.tally.prunedThrough <= |history|
    && rows == history[b.tally.prunedThrough..]
    && Tail(b.tally) == |history|
    && (b.standing.begun <==> |history| > 0)
    && (b.standing.begun ==> b.standing.expected == history[|history| - 1])
    && (b.standing.legacyTail.Some? ==> !IsRow(b.standing.legacyTail.value))
  }

  ghost predicate DiskAt(d: Disk, history: seq<Digest>) {
    && WellKept(d)
    && View(AllLines(d)).Some?
    && StandsAt(View(AllLines(d)).value, Chained(Entries(d)), history)
  }

  /** The link the walk of the files expects next. */
  function DiskLink(d: Disk): Digest
    requires View(AllLines(d)).Some?
  {
    Link(View(AllLines(d)).value.standing)
  }

  /** The link is the last row of the history, or before any row no row at all. */
  lemma LinkIsHead(d: Disk, history: seq<Digest>)
    requires DiskAt(d, history)
    ensures if |history| > 0 then DiskLink(d) == history[|history| - 1] else !IsRow(DiskLink(d))
    ensures ChosenLink(d) == DiskLink(d)
  {
    LinkChoiceAgrees(d);
  }

  /** A damaged line is pending exactly when it is the last item of the files. */
  lemma PendingIsLast(d: Disk)
    requires CutsApart(d) && View(AllLines(d)).Some?
    ensures var b, last := View(AllLines(d)).value, LastItem(Entries(d));
            if last.Some? && last.value.Torn? then b.pending == last else b.pending.None?
    ensures LastItem(Entries(d)).Some? && !LastItem(Entries(d)).value.Torn? ==> IsEntry(LastItem(Entries(d)).value)
  {
    PendingIsLastItem(Tolerant, None, AllLines(d));
    LastItemConcat(CutFile(d), Entries(d));
    LastItemIsIn(CutFile(d));
    LastItemIsIn(Entries(d));
  }

  lemma {:induction false} LastItemIsIn(lines: seq<Line>)
    ensures LastItem(lines).Some? ==> exists k :: 0 <= k < |lines| && lines[k] == LastItem(lines).value
    decreases |lines|
  {
    if |lines| > 0 {
      var n := |lines| - 1;
      LastItemIsIn(lines[..n]);
      if lines[n].Blank? && LastItem(lines).Some? {
        var k :| 0 <= k < n && lines[..n][k] == LastItem(lines[..n]).value;
        assert lines[k] == LastItem(lines).value;
      }
    }
  }

  // ---------------------------------------------------------------------------
  // Appending.
  // ---------------------------------------------------------------------------

  /** The line an append leaves in the log. */
  function Landed(line: Line, landing: Landing): Option<Line> {
    match landing
    case TornAt(first, rest) => Some(Torn(first, rest))
    case NoNewline => Some(line)
    case Whole => Some(line)
    case _ => None
  }

  lemma BlankEndView(lines: seq<Line>)
    ensures View(lines + [Blank]) == View(lines)
    ensures Chained(lines + [Blank]) == Chained(lines)
    ensures LastItem(lines + [Blank]) == LastItem(lines)
  {
    ViewSnoc(lines, Blank);
    assert (lines + [Blank])[..|lines|] == lines;
  }

  lemma ItemEndView(lines: seq<Line>, item: Line)
    requires !item.Blank?
    ensures View(lines).Some? ==> PendingTorn(View(lines).value)
    ensures View(lines + [item]) == if View(lines).None? then None else StepBrief(View(lines).value, item)
    ensures Chained(lines + [item]) == Chained(lines) + if item.Row? then [Of(item)] else []
    ensures LastItem(lines + [item]) == Some(item)
  {
    ViewSnoc(lines, item);
    assert (lines + [item])[..|lines|] == lines;
  }

  /** The live log without the empty line after its last newline. */
  function Start(d: Disk): seq<Line> {
    if d.live.Some? then d.live.value[..|d.live.value| - 1] else []
  }

  /** Every line but that one. */
  function Bare(d: Disk): seq<Line> {
    LinesOf(d.archives) + Start(d)
  }

  lemma BareView(d: Disk)
    requires !Unended(d)
    ensures View(AllLines(d)) == View(CutFile(d) + Bare(d))
    ensures Chained(Entries(d)) == Chained(Bare(d))
    ensures LastItem(Entries(d)) == LastItem(Bare(d))
  {
    hide Fold, View, LastItem, Chained;
    BlankEndView(CutFile(d) + Bare(d));
    BlankEndView(Bare(d));
    if d.live.Some? {
      assert d.live.value == Start(d) + [Blank];
      assert Entries(d) == Bare(d) + [Blank];
      assert AllLines(d) == CutFile(d) + Bare(d) + [Blank];
    } else {
      assert Entries(d) == Bare(d);
    }
  }

  /** The live log with one more line, terminated or not. */
  function WithItem(d: Disk, item: Line, ended: bool): Disk {
    d.(live := Some(Start(d) + [item] + if ended then [Blank] else []))
  }

  lemma WithItemView(d: Disk, item: Line, ended: bool)
    requires !Unended(d) && !item.Blank?
    ensures var d' := WithItem(d, item, ended);
            && View(AllLines(d')) == View(CutFile(d) + Bare(d) + [item])
            && Chained(Entries(d')) == Chained(Bare(d) + [item])
            && LastItem(Entries(d')) == Some(item)
  {
    hide View, LastItem, Chained, LinesOf;
    var d' := WithItem(d, item, ended);
    ItemEndView(Bare(d), item);
    if ended {
      BlankEndView(CutFile(d) + Bare(d) + [item]);
      BlankEndView(Bare(d) + [item]);
      assert Entries(d') == Bare(d) + [item] + [Blank];
      assert AllLines(d') == CutFile(d) + Bare(d) + [item] + [Blank];
    } else {
      assert Entries(d') == Bare(d) + [item];
      assert AllLines(d') == CutFile(d) + Bare(d) + [item];
    }
  }

  /** A live log without cuts leaves the files well kept. */
  lemma LiveKeepsLayout(d: Disk, live: File)
    requires WellKept(d) && NoCuts(live)
    ensures WellKept(d.(live := Some(live)))
  {
    var d' := d.(live := Some(live));
    var n := |LinesOf(d.archives)|;
    assert CutFile(d') == CutFile(d);
    forall k | 0 <= k < |Entries(d')| ensures !Entries(d')[k].Cut? {
      if k < n {
        assert Entries(d)[k] == Entries(d')[k];
      } else {
        assert Entries(d')[k] == live[k - n];
      }
    }
  }

  lemma LiveHasNoCuts(d: Disk)
    requires WellKept(d)
    ensures NoCuts(LiveLines(d)) && NoCuts(Start(d))
  {
    var n := |LinesOf(d.archives)|;
    forall k | 0 <= k < |LiveLines(d)| ensures !LiveLines(d)[k].Cut? {
      assert Entries(d)[n + k] == LiveLines(d)[k];
    }
  }

  /** The lines and the layout after an append. */
  lemma AppendIsItem(d: Disk, line: Line, landing: Landing)
    requires !Unended(d) && line.Row? && WellKept(d)
    ensures var d', item := AppendLine(d, line, landing), Landed(line, landing);
            && WellKept(d')
            && (item.Some? ==> d' == WithItem(d, item.value, landing.Whole?))
            && (item.None? ==> d' == d || (d.live.None? && d' == d.(live := Some([Blank]))))
  {
    LiveHasNoCuts(d);
    var d' := AppendLine(d, line, landing);
    var item := Landed(line, landing);
    if item.Some? {
      assert d'.live.value == Start(d) + [item.value] + if landing.Whole? then [Blank] else [];
    }
    if d'.live.Some? {
      LiveKeepsLayout(d, d'.live.value);
    }
  }

  lemma EmptyLiveView(d: Disk)
    requires d.live.None?
    ensures var d' := d.(live := Some([Blank]));
            View(AllLines(d')) == View(AllLines(d)) && Chained(Entries(d')) == Chained(Entries(d))
  {
    hide Fold, View, Chained;
    var d' := d.(live := Some([Blank]));
    assert AllLines(d') == AllLines(d) + [Blank];
    assert Entries(d') == Entries(d) + [Blank];
    BlankEndView(AllLines(d));
    BlankEndView(Entries(d));
  }

  /** An append adds its line to the walk. */
  lemma AppendView(d: Disk, line: Line, landing: Landing)
    requires !Unended(d) && line.Row? && WellKept(d) && View(AllLines(d)).Some?
    ensures var d', item, b := AppendLine(d, line, landing), Landed(line, landing), View(AllLines(d)).value;
            && WellKept(d')
            && PendingTorn(b)
            && View(AllLines(d')) == (if item.None? then Some(b) else StepBrief(b, item.value))
            && Chained(Entries(d')) == Chained(Entries(d)) + (if item.Some? && item.value.Row? then [Of(line)] else [])
            && (item.Some? ==> FilesPresent(d'))
  {
    hide Fold, View, Chained, StepBrief, WellKept;
    var item := Landed(line, landing);
    AppendIsItem(d, line, landing);
    BareView(d);
    ItemEndView(CutFile(d) + Bare(d), line);
    if item.Some? {
      WithItemView(d, item.value, landing.Whole?);
      ItemEndView(CutFile(d) + Bare(d), item.value);
      ItemEndView(Bare(d), item.value);
    } else if d.live.None? {
      EmptyLiveView(d);
    }
  }

  /** The history after an append. */
  function Grown(history: seq<Digest>, line: Line, landing: Landing): seq<Digest> {
    if landing.Whole? || landing.NoNewline? then history + [Of(line)] else history
  }

  /** A row with the right link, diagnosing what is pending, extends the history. */
  lemma RowExtends(b: Brief, rows: seq<Digest>, history: seq<Digest>, row: Line)
    requires StandsAt(b, rows, history) && row.Row? && row.prev == Link(b.standing)
    requires b.pending.Some? ==> Diagnoses(row, b.pending.value, row.prev)
    ensures var b' := StepBrief(b, row);
            && b'.Some?
            && StandsAt(b'.value, rows + [Of(row)], history + [Of(row)])
            && b'.value.pending.None?
            && b'.value.standing.begun && b'.value.standing.expected == Of(row)
            && b'.value.paired == b.paired
            && b'.value.tally.prunedThrough == b.tally.prunedThrough
  {
    assert Accepts(b.standing, row.prev);
    assert (history + [Of(row)])[b.tally.prunedThrough..] == history[b.tally.prunedThrough..] + [Of(row)];
  }

  lemma AppendKeepsHistory(d: Disk, history: seq<Digest>, row: Line, landing: Landing)
    requires DiskAt(d, history) && !Unended(d) && row.Row? && row.prev == DiskLink(d)
    requires var b := View(AllLines(d)).value;
             b.pending.Some? ==> Diagnoses(row, b.pending.value, row.prev)
    ensures var d', b := AppendLine(d, row, landing), View(AllLines(d)).value;
            && DiskAt(d', Grown(history, row, landing))
            && var b' := View(AllLines(d')).value;
               && (landing.Whole? || landing.NoNewline?
                  ==> b'.pending.None? && DiskLink(d') == Of(row) && FilesPresent(d'))
               && (landing.TornAt? ==> DiskLink(d') == DiskLink(d) && FilesPresent(d'))
               && (landing.Nothing? || landing.Refused? ==> b' == b)
               && (b'.paired <==> b.paired || (landing.TornAt? && b.pending.Some?))
               && b'.tally.prunedThrough == b.tally.prunedThrough
  {
    hide View, Chained, WellKept, StandsAt, StepBrief, AppendLine, FilesPresent, Entries, AllLines;
    AppendView(d, row, landing);
    RowExtends(View(AllLines(d)).value, Chained(Entries(d)), history, row);
    if landing.TornAt? {
      TornStands(View(AllLines(d)).value, Chained(Entries(d)), history, Torn(landing.first, landing.rest));
    }
    assert Chained(Entries(d)) + [] == Chained(Entries(d));
  }

  /** A damaged line moves neither history nor link. */
  lemma TornStands(b: Brief, rows: seq<Digest>, history: seq<Digest>, torn: Line)
    requires StandsAt(b, rows, history) && torn.Torn?
    ensures var b' := StepBrief(b, torn);
            && b'.Some?
            && StandsAt(b'.value, rows, history)
            && b'.value.standing == b.standing
            && (b'.value.paired <==> b.paired || b.pending.Some?)
            && b'.value.tally.prunedThrough == b.tally.prunedThrough
  {
  }

  lemma NewlineKeepsHistory(d: Disk, history: seq<Digest>, landing: Landing)
    requires DiskAt(d, history) && Unended(d)
    ensures var d' := AppendNewline(d, landing);
            && DiskAt(d', history)
            && View(AllLines(d')) == View(AllLines(d))
            && LastItem(Entries(d')) == LastItem(Entries(d))
            && FilesPresent(d')
  {
    hide Fold, View, LastItem, Chained;
    if landing.Whole? {
      var d' := AppendNewline(d, landing);
      assert Entries(d') == Entries(d) + [Blank];
      assert AllLines(d') == AllLines(d) + [Blank];
      BlankEndView(AllLines(d));
      BlankEndView(Entries(d));
      LiveHasNoCuts(d);
      LiveKeepsLayout(d, d'.live.value);
    }
  }

  // ---------------------------------------------------------------------------
  // Rotating.
  // ---------------------------------------------------------------------------

  /** The archive a rotation makes is the newest, and the cut record of a prune gets written. */
  predicate OrderlyRetention(d: Disk, io: Io) {
    io.prune.cutWritten && (io.rotation.Some? && |d.archives| > 0 ==>
      var newest := d.archives[|d.archives| - 1];
      newest.stamp < io.rotation.value.stamp && newest.mtimeMs <= io.rotation.value.mtimeMs)
  }

  lemma LinesOfConcat(a: seq<Archive>, b: seq<Archive>)
    ensures LinesOf(a + b) == LinesOf(a) + LinesOf(b)
    decreases |b|
  {
    if |b| == 0 {
      assert a + b == a;
    } else {
      assert (a + b)[..|a + b| - 1] == a + b[..|b| - 1];
      LinesOfConcat(a, b[..|b| - 1]);
    }
  }

  /** Renaming the live log moves no line. */
  lemma RotateKeepsHistory(d: Disk, history: seq<Digest>, io: Io)
    requires DiskAt(d, history) && OrderlyRetention(d, io) && io.rotation.Some? && LastItem(LiveLines(d)).Some?
    requires View(AllLines(d)).value.pending.None?
    ensures var archive := Archive(io.rotation.value.stamp, io.rotation.value.mtimeMs, d.live.value);
            var d' := Disk(d.cuts, d.archives + [archive], None);
            && DiskAt(d', history)
            && AllLines(d') == AllLines(d)
  {
    hide View, WellKept, StandsAt, Entries, AllLines, Chained, OrderlyRetention;
    var archive := Archive(io.rotation.value.stamp, io.rotation.value.mtimeMs, d.live.value);
    var d' := Disk(d.cuts, d.archives + [archive], None);
    RotateLines(d, archive);
    RotateParses(d, archive);
    RotateLayout(d, archive, io);
  }

  lemma RotateLines(d: Disk, archive: Archive)
    requires d.live.Some? && archive.lines == d.live.value
    ensures var d' := Disk(d.cuts, d.archives + [archive], None);
            Entries(d') == Entries(d) && AllLines(d') == AllLines(d)
  {
    LinesOfConcat(d.archives, [archive]);
    assert [archive][..0] == [];
    assert LinesOf([archive]) == archive.lines;
  }

  /** A live log that does not end damaged makes an archive a cut record can account for. */
  lemma RotateParses(d: Disk, archive: Archive)
    requires WellKept(d) && View(AllLines(d)).Some? && View(AllLines(d)).value.pending.None?
    requires d.live.Some? && archive.lines == d.live.value && LastItem(d.live.value).Some?
    ensures LastParsed(archive.lines).Some?
  {
    hide View, CutsHonest;
    PendingIsLast(d);
    LastItemConcat(LinesOf(d.archives), d.live.value);
    ItemParses(d.live.value);
  }

  lemma RotateLayout(d: Disk, archive: Archive, io: Io)
    requires WellKept(d) && OrderlyRetention(d, io) && io.rotation.Some? && d.live.Some?
    requires archive == Archive(io.rotation.value.stamp, io.rotation.value.mtimeMs, d.live.value)
    requires LastParsed(archive.lines).Some?
    ensures WellKept(Disk(d.cuts, d.archives + [archive], None))
  {
    hide CutsHonest, Entries, AllLines;
    RotateLines(d, archive);
    var d' := Disk(d.cuts, d.archives + [archive], None);
    assert CutFile(d') == CutFile(d);
    forall i | 0 <= i < |d'.archives| ensures LastParsed(d'.archives[i].lines).Some? {
      if i < |d.archives| {
        assert d'.archives[i] == d.archives[i];
      }
    }
  }

  /** A last item that is not damaged parses. */
  lemma {:induction false} ItemParses(lines: seq<Line>)
    requires LastItem(lines).Some? && !LastItem(lines).value.Torn?
    ensures LastParsed(lines).Some?
    decreases |lines|
  {
    if lines[|lines| - 1].Blank? {
      ItemParses(lines[..|lines| - 1]);
    }
  }

  // ---------------------------------------------------------------------------
  // Pruning.
  // ---------------------------------------------------------------------------

  lemma {:induction false} FlattenIsLinesOf(archives: seq<Archive>)
    ensures Flatten(Bodies(archives)) == LinesOf(archives)
    decreases |archives|
  {
    if |archives| > 0 {
      var n := |archives| - 1;
      assert Bodies(archives)[..n] == Bodies(archives[..n]);
      FlattenIsLinesOf(archives[..n]);
    }
  }

  lemma {:induction false} DropPrefix(archives: seq<Archive>, n: nat)
    requires Chronological(archives) && n <= |archives|
    ensures Drop(archives, Stamps(archives[..n])) == archives[n..]
  {
    DropGone(archives, n, Stamps(archives[..n]));
  }

  lemma {:induction false} DropGone(xs: seq<Archive>, n: nat, gone: set<int>)
    requires n <= |xs| && forall i :: 0 <= i < |xs| ==> (xs[i].stamp in gone <==> i < n)
    ensures Drop(xs, gone) == xs[n..]
  {
    if |xs| > 0 {
      DropGone(xs[1..], if n == 0 then 0 else n - 1, gone);
    }
  }

  /** What is read, and what is unlinked, is a prefix of the archives. */
  lemma GonePrefix(d: Disk, budget: Budget, io: PruneIo, nowMs: int) returns (m: nat, n: nat)
    requires Chronological(d.archives)
    ensures n <= m <= |d.archives|
    ensures Verified(d, budget, io, nowMs) == d.archives[..m]
    ensures Upto(Verified(d, budget, io, nowMs), io.unlinked) == d.archives[..n]
  {
    hide Candidates, KeptCount;
    PrunesOldestFirst(d.archives, d.archives, budget, nowMs);
    var verified := Verified(d, budget, io, nowMs);
    m := |verified|;
    n := |Upto(verified, io.unlinked)|;
  }

  /** A summary counts the chained rows it was made from, and is owed a cut when anything parsed. */
  lemma {:induction false} SummaryCounts(lines: seq<Line>)
    requires NoCuts(lines)
    ensures var s := Summarise(EMPTY, lines);
            && s.removedChained == |Chained(lines)|
            && (s.removedFrom.Some? <==> s.removedChained > 0)
            && (s.removedTo.Some? <==> s.removedChained > 0)
            && (s.legacyTail.Some? <==> s.removedLegacy > 0)
            && (LastParsed(lines).Some? <==> s.removedFrom.Some? || s.removedLegacy > 0)
    decreases |lines|
  {
    if |lines| > 0 {
      SummaryCounts(lines[..|lines| - 1]);
    }
  }

  lemma NoCutsPart(d: Disk, n: nat)
    requires CutsApart(d) && n <= |d.archives|
    ensures LinesOf(d.archives) == LinesOf(d.archives[..n]) + LinesOf(d.archives[n..])
    ensures NoCuts(LinesOf(d.archives[..n]))
    ensures NoCuts(LinesOf(d.archives[n..]) + LiveLines(d))
  {
    assert d.archives == d.archives[..n] + d.archives[n..];
    LinesOfConcat(d.archives[..n], d.archives[n..]);
    var gone, rest := LinesOf(d.archives[..n]), LinesOf(d.archives[n..]) + LiveLines(d);
    assert Entries(d) == gone + rest;
    forall k | 0 <= k < |gone| ensures !gone[k].Cut? {
      assert Entries(d)[k] == gone[k];
    }
    forall k | 0 <= k < |rest| ensures !rest[k].Cut? {
      assert Entries(d)[|gone| + k] == rest[k];
    }
  }

  /** The two walks stand alike and neither has a damaged line pending or passed over since `w`. */
  ghost predicate CutStands(w: Walk, whole: Walk, pruned: Walk, chained: nat)
    requires w.Walking?
  {
    && StandsLike(whole, pruned)
    && pruned.pending.None?
    && pruned.passedOver == w.passedOver
    && pruned.tally.entries == w.tally.entries
    && whole.tally.entries == w.tally.entries + chained
    && pruned.tally.prunedThrough == w.tally.prunedThrough + chained
  }

  /** The cut file as the walk sees it, without the empty line at its end. */
  lemma AfterCut(base: seq<Line>, ending: seq<Line>, w: Walk, removed: seq<Line>, record: CutRecord, nowMs: int)
    requires NoCuts(removed) && (ending == [] || ending == [Blank])
    requires w.Walking? && w.pending.None? && w == Fold(Tolerant, None, START, base + ending)
    requires Fold(Tolerant, None, w, removed).Walking?
    requires Finalize(Summarise(EMPTY, removed), nowMs) == Some(record)
    ensures CutStands(w, Fold(Tolerant, None, w, removed),
                      Fold(Tolerant, None, START, base + [Cut(record), Blank]),
                      Summarise(EMPTY, removed).removedChained)
  {
    hide Fold, Finalize, Summarise, Fault, Move, Count;
    var v := Fold(Tolerant, None, START, base);
    if ending == [] {
      assert base + ending == base;
    } else {
      FoldSnoc(Tolerant, None, START, base, Blank);
    }
    CutStandsFor(Tolerant, None, w, removed, nowMs);
    FoldOne(Tolerant, None, w, Cut(record));
    FoldSnoc(Tolerant, None, START, base, Cut(record));
    FoldSnoc(Tolerant, None, START, base + [Cut(record)], Blank);
    assert base + [Cut(record)] + [Blank] == base + [Cut(record), Blank];
  }

  lemma WithoutCut(kept: seq<Line>, cuts': seq<Line>, removed: seq<Line>, nowMs: int)
    requires NoCuts(removed) && (cuts' == kept || cuts' == kept + [Blank])
    requires var w := Fold(Tolerant, None, START, kept);
             w.Walking? && w.pending.None? && Fold(Tolerant, None, w, removed).Walking?
    requires Finalize(Summarise(EMPTY, removed), nowMs).None?
    ensures var w := Fold(Tolerant, None, START, kept);
            CutStands(w, Fold(Tolerant, None, w, removed), Fold(Tolerant, None, START, cuts'),
                      Summarise(EMPTY, removed).removedChained)
  {
    hide Finalize, Summarise;
    var w := Fold(Tolerant, None, START, kept);
    CutStandsFor(Tolerant, None, w, removed, nowMs);
    assert Fold(Tolerant, None, w, []) == w;
    FoldSnoc(Tolerant, None, START, kept, Blank);
  }

  /** How the cut file changes when `record` is owed for what was unlinked. */
  predicate CutFileChange(cuts: Option<File>, record: Option<CutRecord>, cuts': Option<File>) {
    if record.None? then cuts' == cuts || (cuts.None? && cuts' == Some([Blank]))
    else cuts' == Some(AppendCut(cuts.GetOr([Blank]), record.value))
  }

  lemma CutFileStandsFor(d: Disk, cuts': Option<File>, removed: seq<Line>, nowMs: int)
    requires NoCuts(removed) && CutsEnded(d)
    requires CutFileChange(d.cuts, Finalize(Summarise(EMPTY, removed), nowMs), cuts')
    requires var w := Fold(Tolerant, None, START, CutFile(d));
             w.Walking? && w.pending.None? && Fold(Tolerant, None, w, removed).Walking?
    ensures var w := Fold(Tolerant, None, START, CutFile(d));
            CutStands(w, Fold(Tolerant, None, w, removed), Fold(Tolerant, None, START, CutFile(d.(cuts := cuts'))),
                      Summarise(EMPTY, removed).removedChained)
  {
    hide Fold, Finalize, Summarise, CutStands;
    var record := Finalize(Summarise(EMPTY, removed), nowMs);
    if record.None? {
      WithoutCut(CutFile(d), CutFile(d.(cuts := cuts')), removed, nowMs);
    } else {
      var w := Fold(Tolerant, None, START, CutFile(d));
      var file := d.cuts.GetOr([Blank]);
      var base := file[..|file| - 1];
      if d.cuts.Some? {
        assert CutFile(d) == base + [Blank];
        AfterCut(base, [Blank], w, removed, record.value, nowMs);
      } else {
        assert CutFile(d) == base + [];
        AfterCut(base, [], w, removed, record.value, nowMs);
      }
    }
  }

  /** Where the walks stand at the end of what a prune leaves. */
  lemma PruneViews(d: Disk, cuts': Option<File>, removed: seq<Line>, rest: seq<Line>, nowMs: int)
    requires NoCuts(removed) && NoCuts(rest) && CutsEnded(d) && CutsApart(d)
    requires CutFileChange(d.cuts, Finalize(Summarise(EMPTY, removed), nowMs), cuts')
    requires View(CutFile(d) + (removed + rest)).Some?
    ensures var chained := Summarise(EMPTY, removed).removedChained;
            var b, pruned := View(CutFile(d) + (removed + rest)).value, View(CutFile(d.(cuts := cuts')) + rest);
            && pruned.Some?
            && var b' := pruned.value;
               && b'.standing == b.standing
               && Tail(b'.tally) == Tail(b.tally)
               && (b'.pending.None? || b'.pending == b.pending)
               && (b'.paired ==> b.paired)
               && b'.tally.prunedThrough == b.tally.prunedThrough + chained
  {
    hide Finalize, Summarise, Step;
    var kept, cutLines := CutFile(d), CutFile(d.(cuts := cuts'));
    var w := Fold(Tolerant, None, START, kept);
    FoldConcat(Tolerant, None, START, kept, removed + rest);
    WalkingBefore(Tolerant, None, START, kept, removed + rest);
    FoldConcat(Tolerant, None, w, removed, rest);
    WalkingBefore(Tolerant, None, w, removed, rest);
    CutLinkIsLink(Tolerant, None, kept);
    CutFileStandsFor(d, cuts', removed, nowMs);
    var whole, pruned := Fold(Tolerant, None, w, removed), Fold(Tolerant, None, START, cutLines);
    FoldConcat(Tolerant, None, START, cutLines, rest);
    RestWalksAlike(None, None, whole, pruned, rest);
    PassedOverGrows(None, w, removed);
    NoCutsNoPruned(None, w, removed);
    NoCutsNoPruned(None, whole, rest);
    NoCutsNoPruned(None, pruned, rest);
  }

  lemma PruneKeepsView(d: Disk, cuts': Option<File>, n: nat, history: seq<Digest>, nowMs: int)
    requires DiskAt(d, history) && n <= |d.archives|
    requires CutFileChange(d.cuts, Finalize(Summarise(EMPTY, LinesOf(d.archives[..n])), nowMs), cuts')
    ensures var d' := Disk(cuts', d.archives[n..], d.live);
            && DiskAt(d', history)
            && DiskLink(d') == DiskLink(d)
            && var b, b' := View(AllLines(d)).value, View(AllLines(d')).value;
               && (b'.pending.None? || b'.pending == b.pending)
               && (b'.paired ==> b.paired)
               && b'.tally.prunedThrough >= b.tally.prunedThrough
  {
    hide View, Finalize, Summarise, Chained, WellKept, StandsAt, LinesOf;
    var d' := Disk(cuts', d.archives[n..], d.live);
    var removed := LinesOf(d.archives[..n]);
    var rest := LinesOf(d.archives[n..]) + LiveLines(d);
    assert d.archives == d.archives[..n] + d.archives[n..];
    LinesOfConcat(d.archives[..n], d.archives[n..]);
    RemovedWalks(d, removed, rest);
    PruneLayout(d, cuts', n, nowMs);
    assert Entries(d) == removed + rest;
    assert Entries(d') == rest;
    PruneViews(d, cuts', removed, rest, nowMs);
    SummaryCounts(removed);
    ChainedConcat(removed, rest);
    PrunedStands(View(AllLines(d)).value, View(AllLines(d')).value, Chained(removed), Chained(rest), history);
  }

  lemma PrunedStands(b: Brief, b': Brief, gone: seq<Digest>, rows: seq<Digest>, history: seq<Digest>)
    requires StandsAt(b, gone + rows, history)
    requires b'.standing == b.standing && Tail(b'.tally) == Tail(b.tally)
             && (b'.pending.None? || b'.pending == b.pending)
    requires b'.tally.prunedThrough == b.tally.prunedThrough + |gone|
    ensures StandsAt(b', rows, history)
  {
    var pruned := b.tally.prunedThrough;
    assert |gone| + |rows| == |history| - pruned;
    assert history[pruned..][|gone|..] == rows;
    assert history[pruned + |gone|..] == rows;
  }

  lemma RemovedWalks(d: Disk, removed: seq<Line>, rest: seq<Line>)
    requires View(AllLines(d)).Some? && Entries(d) == removed + rest
    ensures View(CutFile(d) + removed).Some?
  {
    assert AllLines(d) == CutFile(d) + removed + rest;
    WalkingBefore(Tolerant, None, START, CutFile(d) + removed, rest);
  }

  /** Over lines without cuts the legacy tail stays, or becomes a legacy row. */
  lemma {:induction false} LegacyTailFrom(w: Walk, lines: seq<Line>)
    requires PendingIsTorn(w) && w.Walking? && NoCuts(lines) && Fold(Tolerant, None, w, lines).Walking?
    ensures var tail := Fold(Tolerant, None, w, lines).standing.legacyTail;
            tail == w.standing.legacyTail || (tail.Some? && !IsRow(tail.value))
    decreases |lines|
  {
    if |lines| > 0 {
      var n := |lines| - 1;
      assert lines[..n] + [lines[n]] == lines;
      WalkingBefore(Tolerant, None, w, lines[..n], [lines[n]]);
      LegacyTailFrom(w, lines[..n]);
    }
  }

  /** A prune's record keeps the cut file honest. */
  lemma CutsStayHonest(d: Disk, cuts': Option<File>, removed: seq<Line>, nowMs: int)
    requires NoCuts(removed) && CutsApart(d) && CutsEnded(d) && CutsHonest(CutFile(d))
    requires CutFileChange(d.cuts, Finalize(Summarise(EMPTY, removed), nowMs), cuts')
    requires View(CutFile(d) + removed).Some?
    ensures CutsHonest(CutFile(d.(cuts := cuts')))
  {
    hide Finalize, Summarise, Fold, Chained, IsRow;
    var w := Fold(Tolerant, None, START, CutFile(d));
    FoldConcat(Tolerant, None, START, CutFile(d), removed);
    WalkingBefore(Tolerant, None, START, CutFile(d), removed);
    CutLinkIsLink(Tolerant, None, CutFile(d));
    CutFileStandsFor(d, cuts', removed, nowMs);
    SummaryCounts(removed);
    RowsAreLinked(Tolerant, None, w, removed);
    LegacyTailFrom(w, removed);
  }

  lemma PruneLayout(d: Disk, cuts': Option<File>, n: nat, nowMs: int)
    requires WellKept(d) && n <= |d.archives| && View(CutFile(d) + LinesOf(d.archives[..n])).Some?
    requires CutFileChange(d.cuts, Finalize(Summarise(EMPTY, LinesOf(d.archives[..n])), nowMs), cuts')
    ensures WellKept(Disk(cuts', d.archives[n..], d.live)) && CutsApart(d) && CutsEnded(d)
    ensures LinesOf(d.archives) == LinesOf(d.archives[..n]) + LinesOf(d.archives[n..])
    ensures NoCuts(LinesOf(d.archives[..n]))
    ensures NoCuts(LinesOf(d.archives[n..]) + LiveLines(d))
  {
    hide Finalize, Summarise, View, CutsHonest;
    NoCutsPart(d, n);
    var record := Finalize(Summarise(EMPTY, LinesOf(d.archives[..n])), nowMs);
    if record.Some? {
      CutFileStaysCuts(d, record.value);
    }
    CutsStayHonest(d, cuts', LinesOf(d.archives[..n]), nowMs);
    assert d.cuts.Some? ==> d.cuts.value == CutFile(d);
    PrunedLayout(d, cuts', n);
  }

  /** A new cut file holds cut records only. */
  lemma CutFileStaysCuts(d: Disk, c: CutRecord)
    requires CutsApart(d)
    ensures var file := AppendCut(d.cuts.GetOr([Blank]), c);
            forall k :: 0 <= k < |file| ==> file[k].Cut? || file[k].Blank?
  {
    var file := AppendCut(d.cuts.GetOr([Blank]), c);
    forall k | 0 <= k < |file| ensures file[k].Cut? || file[k].Blank? {
      if k < |file| - 2 {
        assert file[k] == CutFile(d)[k];
      }
    }
  }

  lemma PrunedLayout(d: Disk, cuts': Option<File>, n: nat)
    requires WellKept(d) && n <= |d.archives|
    requires cuts'.Some? ==> cuts'.value[|cuts'.value| - 1].Blank?
    requires cuts'.Some? ==> forall k :: 0 <= k < |cuts'.value| ==> cuts'.value[k].Cut? || cuts'.value[k].Blank?
    requires CutsHonest(CutFile(d.(cuts := cuts')))
    ensures WellKept(Disk(cuts', d.archives[n..], d.live))
  {
    hide CutsHonest;
    NoCutsPart(d, n);
    assert CutFile(Disk(cuts', d.archives[n..], d.live)) == CutFile(d.(cuts := cuts'));
    var d' := Disk(cuts', d.archives[n..], d.live);
    assert forall i :: 0 <= i < |d'.archives| ==> d'.archives[i] == d.archives[n + i];
    assert CutFile(d') == if cuts'.Some? then cuts'.value else [];
  }

  /** A prune keeps the history, the link, and some file. */
  lemma PruneKeepsHistory(d: Disk, history: seq<Digest>, budget: Budget, io: PruneIo, nowMs: int)
    requires DiskAt(d, history) && io.cutWritten
    ensures var d' := PruneArchives(d, budget, io, nowMs);
            && DiskAt(d', history)
            && DiskLink(d') == DiskLink(d)
            && (FilesPresent(d) ==> FilesPresent(d'))
            && var b, b' := View(AllLines(d)).value, View(AllLines(d')).value;
               && (b'.pending.None? || b'.pending == b.pending)
               && (b'.paired ==> b.paired)
               && b'.tally.prunedThrough >= b.tally.prunedThrough
  {
    hide View, WellKept, StandsAt, PruneArchives, Finalize, Summarise, LinesOf, AllLines;
    var verified := Verified(d, budget, io, nowMs);
    if |verified| > 0 && (!AnyNeedsCut(verified) || io.cutsOpen) {
      var n, cuts' := PruneFiles(d, budget, io, nowMs);
      PruneKeepsView(d, cuts', n, history, nowMs);
    } else {
      PruneStops(d, budget, io, nowMs);
    }
  }

  lemma PruneStops(d: Disk, budget: Budget, io: PruneIo, nowMs: int)
    requires CutsEnded(d) || WellKept(d)
    requires var verified := Verified(d, budget, io, nowMs); |verified| == 0 || (AnyNeedsCut(verified) && !io.cutsOpen)
    ensures CutsEnded(d) && PruneArchives(d, budget, io, nowMs) == d
  {
    hide Verified, AnyNeedsCut, CutsHonest;
  }

  /** What a prune that unlinks leaves: a suffix of the archives, and the record of what came before. */
  lemma PruneFiles(d: Disk, budget: Budget, io: PruneIo, nowMs: int) returns (n: nat, cuts': Option<File>)
    requires WellKept(d) && io.cutWritten
    requires var verified := Verified(d, budget, io, nowMs); |verified| > 0 && (!AnyNeedsCut(verified) || io.cutsOpen)
    ensures n <= |d.archives| && CutsEnded(d)
    ensures PruneArchives(d, budget, io, nowMs) == Disk(cuts', d.archives[n..], d.live)
    ensures CutFileChange(d.cuts, Finalize(Summarise(EMPTY, LinesOf(d.archives[..n])), nowMs), cuts')
    ensures FilesPresent(d) ==> FilesPresent(Disk(cuts', d.archives[n..], d.live))
  {
    hide View, CutsHonest, Verified, NeedsCut, LastParsed;
    var verified := Verified(d, budget, io, nowMs);
    var m;
    m, n := GonePrefix(d, budget, io, nowMs);
    var gone := d.archives[..n];
    FlattenIsLinesOf(gone);
    MergedArchives(Bodies(gone));
    DropPrefix(d.archives, n);
    ArchiveNeedsCut(d, verified);
    NoCutsPart(d, n);
    SummaryCounts(LinesOf(gone));
    if n > 0 {
      RemovedParses(d, n);
    }
    cuts' := CutsAfter(d.cuts, true, gone, nowMs, true);
  }

  /** Every archive is owed a cut record. */
  lemma ArchiveNeedsCut(d: Disk, verified: seq<Archive>)
    requires WellKept(d) && |verified| > 0 && |d.archives| > 0 && verified[0] == d.archives[0]
    ensures AnyNeedsCut(verified)
  {
    NoCutsPart(d, 1);
    var first := d.archives[..1];
    assert first[..0] == [];
    assert LinesOf(first) == d.archives[0].lines;
    SummaryCounts(d.archives[0].lines);
    assert NeedsCut(verified[0]);
  }

  lemma RemovedParses(d: Disk, n: nat)
    requires WellKept(d) && 0 < n <= |d.archives|
    ensures LastParsed(LinesOf(d.archives[..n])).Some?
  {
    assert d.archives[..n][..n - 1] == d.archives[..n - 1];
    LastParsedConcat(LinesOf(d.archives[..n - 1]), d.archives[n - 1].lines);
  }
}
