/** How a loss ends: in a chain broken by a row that was not checked, or in a new checkpoint, by a re-anchoring or
    a retirement, from which runs are again without false report. */
module LossEnds {
  import opened Common
  import opened ChainLines
  import opened ChainWalk
  import opened ChainFacts
  import opened ChainEvidence
  import opened AuditDisk
  import opened Checkpoint
  import opened WriterSteps
  import opened DiskHistory
  import opened WriterRuns
  import opened WindowRuns
  import opened LossRuns

  // ---------------------------------------------------------------------------
  // Without a tail check.
  // ---------------------------------------------------------------------------

  /** Lines the walk does not take stay refused, whatever follows them and whatever it looks for. */
  lemma BrokenForGood(lines: seq<Line>, more: seq<Line>, probe: Option<Digest>)
    requires View(lines).None?
    ensures Verify(lines + more, probe).Failed?
  {
    StrictOrTolerant(probe, lines);
    ProbeOnlyFinds(Tolerant, probe, None, lines);
    FoldConcat(Strict, probe, START, lines, more);
    BrokenStays(Strict, probe, Fold(Strict, probe, START, lines), more);
  }

  /** An entry that links to a row of a longer history is not taken where a shorter one ends. */
  lemma EntryDoesNotLink(b: Brief, rows: seq<Digest>, left: seq<Digest>, history: seq<Digest>, row: Line)
    requires StandsAt(b, rows, left) && left < history && Linked(history)
    requires row.Row? && row.body.Event? && row.prev == history[|history| - 1]
    ensures StepBrief(b, row).None?
  {
    if |left| > 0 && left[|left| - 1] == row.prev {
      LinkedAreDistinct(history, |left| - 1, |history| - 1);
    }
  }

  /** The lines of the files, but for the empty one at their end, once `row` was appended. */
  lemma AppendedLines(d: Disk, row: Line) returns (before: seq<Line>)
    requires !Unended(d) && row.Row?
    ensures AllLines(AppendLine(d, row, Whole)) == before + [row] + [Blank]
    ensures View(before) == View(AllLines(d))
  {
    hide View, Chained, LastItem, LinesOf;
    BareView(d);
    before := CutFile(d) + Bare(d);
    AppendedLive(d, row);
    assert LinesOf(d.archives) + (Start(d) + [row, Blank]) == Bare(d) + [row] + [Blank];
    assert CutFile(d) + (Bare(d) + [row] + [Blank]) == before + [row] + [Blank];
  }

  lemma AppendedLive(d: Disk, row: Line)
    requires !Unended(d) && row.Row?
    ensures AppendLine(d, row, Whole) == d.(live := Some(Start(d) + [row, Blank]))
  {
  }

  /** An entry with the link of a longer history makes the files unacceptable for good. */
  lemma EntryBreaks(d: Disk, left: seq<Digest>, history: seq<Digest>, row: Line) returns (lines: seq<Line>)
    requires DiskAt(d, left) && left < history && Linked(history) && !Unended(d)
    requires row.Row? && row.body.Event? && row.prev == history[|history| - 1]
    ensures AllLines(AppendLine(d, row, Whole)) == lines + [Blank] && View(lines).None?
  {
    hide AllLines, Linked, WellKept, StandsAt, Chained;
    var before := AppendedLines(d, row);
    lines := before + [row];
    ViewSnoc(before, row);
    EntryDoesNotLink(View(AllLines(d)).value, Chained(Entries(d)), left, history, row);
  }

  /** The newest rows are removed while the owner owes no tail check: its next entry carries the link of a removed
      row, and no verification passes as long as that entry and the lines before it stay. */
  lemma UncheckedEntryBreaks(w: World, history: seq<Digest>, i: nat, d: Disk, left: seq<Digest>, io: Io)
      returns (lines: seq<Line>)
    requires Inv(w, history) && i < |w.windows| && w.owner == Some(i) && !Owes(w.windows[i].writer, w.fence)
    requires DiskAt(d, left) && left < history
    requires Can(w.(disk := d), Append(i, io)) && io.row.Whole? && (Seen(d).pending.Some? ==> io.rotation.None?)
    ensures var w' := Next(w.(disk := d), Append(i, io));
            && AllLines(w'.disk) == lines + [Blank]
            && (forall more, probe :: Verify(lines + more, probe).Failed?)
            && (w'.stored.Unreadable?
                || ClassifyLoss(w'.stored, VerifyAt(w'.disk, HeadOf(w'.stored))) == NotPerformed(ChainNotIntact))
  {
    hide DiskAt, View, AllLines, MaybeRotate, Linked, OrderlyRetention, CutsEnded, Verify;
    StepFinds(w, i, history);
    LinkIsHead(w.disk, history);
    DiskIsReady(d, left);
    var v := w.(disk := d);
    var row := Row(Event(io.ids + 2), history[|history| - 1]);
    RotateIsReady(d, io);
    var rotated := MaybeRotate(d, io);
    if Seen(d).pending.None? {
      RotateKeeps(d, left, io);
    } else {
      NoRotation(d, io);
    }
    lines := EntryBreaks(rotated, left, history, row);
    forall more, probe ensures Verify(lines + more, probe).Failed? {
      BrokenForGood(lines, more, probe);
    }
    UncheckedEntry(StateOf(v, i), w.fence, io, row);
    EntryMakesFile(rotated, row);
  }

  /** The same from any run without loss, over a removal of the newest lines. */
  lemma RemovalThenEntryBreaks(w: World, steps: seq<WindowRuns.Step>, i: nat, d: Disk, kept: seq<Line>,
      removed: seq<Line>, io: Io) returns (lines: seq<Line>)
    requires Initial(w) && Goes(w, steps) && i < |After(w, steps).windows|
    requires var v := After(w, steps);
             && v.owner == Some(i) && !Owes(v.windows[i].writer, v.fence)
             && EndRemoved(v.disk, d, kept, removed) && |Chained(removed)| > 0
             && Can(v.(disk := d), Append(i, io))
    requires io.row.Whole? && (EndsDamaged(kept) ==> io.rotation.None?)
    ensures var v' := Next(After(w, steps).(disk := d), Append(i, io));
            && AllLines(v'.disk) == lines + [Blank]
            && (forall more, probe :: Verify(lines + more, probe).Failed?)
            && (v'.stored.Unreadable?
                || ClassifyLoss(v'.stored, VerifyAt(v'.disk, HeadOf(v'.stored))) == NotPerformed(ChainNotIntact))
  {
    hide View, DiskAt, Chained, Linked, WellKept, Next, Can, WindowSound, Verify, VerifyAt, Owes, ClassifyLoss, Initial;
    var history := RunStays(w, steps);
    var v := After(w, steps);
    var left := Left(history, removed);
    RemovalShortens(v.disk, d, kept, removed, history);
    RemovedFits(v.disk, kept, removed, history);
    DiskIsReady(d, left);
    PendingMeansDamaged(v.disk, d, kept, removed);
    lines := UncheckedEntryBreaks(v, history, i, d, left, io);
  }

  /** A damaged line is pending after the removal only when the kept lines end damaged. */
  lemma PendingMeansDamaged(d: Disk, d': Disk, kept: seq<Line>, removed: seq<Line>)
    requires EndRemoved(d, d', kept, removed) && View(AllLines(d')).Some?
    ensures Seen(d').pending.Some? ==> EndsDamaged(kept)
  {
    hide View, CutsHonest, Chained;
    PendingIsLast(d');
    BlankEndView(kept);
    LastDamaged(kept);
  }

  lemma {:induction false} LastDamaged(lines: seq<Line>)
    ensures LastItem(lines).Some? && LastItem(lines).value.Torn? ==> EndsDamaged(lines)
    decreases |lines|
  {
    if |lines| > 0 {
      LastDamaged(lines[..|lines| - 1]);
    }
  }

  lemma NoRotation(d: Disk, io: Io)
    requires CutsEnded(d) && io.rotation.None?
    ensures MaybeRotate(d, io) == d
  {
  }

  lemma EntryMakesFile(d: Disk, row: Line)
    requires !Unended(d) && row.Row?
    ensures FilesPresent(AppendLine(d, row, Whole))
  {
  }

  lemma UncheckedEntry(st: State, fence: nat, io: Io, row: Line)
    requires Ready(st, fence) && !Owes(st.writer, fence) && io.row.Whole?
    requires row == Row(Event(io.ids + 2), st.writer.landedDigest.GetOr(Genesis))
    ensures WriteStep(st, Some(fence), io).state.disk == AppendLine(MaybeRotate(st.disk, io), row, Whole)
    ensures WriteStep(st, Some(fence), io).state.stored == st.stored
  {
    hide MaybeRotate, CutsEnded, Unended;
  }

  // ---------------------------------------------------------------------------
  // A new checkpoint.
  // ---------------------------------------------------------------------------

  /** No other window holds a lost row to store. */
  ghost predicate OthersSound(w: World, i: nat, history: seq<Digest>) {
    forall k :: 0 <= k < |w.windows| && k != i ==> WriterSound(w.windows[k].writer, history)
  }

  /** One window sound, and the rest holding nothing lost, the world is sound again. */
  lemma SoundAgain(w: World, history: seq<Digest>, still: bool, i: nat, w': World, history': seq<Digest>)
    requires LossInv(w, history, still) && OthersSound(w, i, history) && w.owner == Some(i) && i < |w.windows|
    requires history <= history' && DiskAt(w'.disk, history') && Linked(history')
    requires StoredSound(w'.stored, w'.disk, history') && FilesPresent(w'.disk)
    requires w' == w.(disk := w'.disk, stored := w'.stored, windows := w'.windows) && |w'.windows| == |w.windows|
    requires forall k :: 0 <= k < |w.windows| && k != i ==> w'.windows[k] == w.windows[k]
    requires WriterSound(w'.windows[i].writer, history') && View(AllLines(w'.disk)).Some?
    requires w'.windows[i].writer.writtenUnderFence == Some(w.fence) && UpToDate(StateOf(w', i), history')
    ensures Inv(w', history')
  {
    hide DiskAt, View, Linked, StoredSound, FilesPresent, Quiet, Known, LostRow, UpToDate, HeadSound;
    DiskIsReady(w.disk, history);
    forall k | 0 <= k < |w'.windows| ensures WindowSound(w', k, history') {
      if k != i {
        assert LossWindow(w, k, history, still);
        SoundLonger(w.windows[k].writer, history, history');
      }
    }
  }

  lemma SoundLonger(w: Writer, history: seq<Digest>, history': seq<Digest>)
    requires WriterSound(w, history) && history <= history'
    ensures WriterSound(w, history')
  {
  }

  /** What a re-anchoring that succeeds leaves. */
  lemma ReanchoredKeeps(st: State, history: seq<Digest>, fence: nat, force: bool, io: Io)
      returns (history': seq<Digest>)
    requires DiskAt(st.disk, history) && Linked(history) && OrderlyRetention(st.disk, io)
    ensures CutsEnded(st.disk)
    ensures var done := ReanchorCheckpoint(st, Some(fence), force, io);
            done.result.Reanchored? ==>
              && DiskAt(done.state.disk, history') && Linked(history') && history <= history'
              && StoredSound(done.state.stored, done.state.disk, history') && FilesPresent(done.state.disk)
              && WriterSound(done.state.writer, history') && done.state.writer.writtenUnderFence == Some(fence)
              && View(AllLines(done.state.disk)).Some? && UpToDate(done.state, history')
  {
    hide DiskAt, DiskLink, View, AllLines, Unended, FilesPresent, Verify, OrderlyRetention, CutsEnded, ReanchorRow,
         ReanchorEnd, Linked, Onward;
    history' := history;
    DiskIsReady(st.disk, history);
    var walk := VerifyAt(st.disk, None);
    if ReanchorCheckpoint(st, Some(fence), force, io).result.Reanchored? {
      IntactWalk(st.disk, history);
      var (read, known) := ReadPort(st, io.checkpointReachable);
      var row := ReanchorRowKeeps(known, history, fence, |history| + 1, io);
      LinkedGrows(history, row, io.row);
      history' := Grown(history, row, io.row);
      DiskIsReady(ReanchorRow(known, fence, |history| + 1, io).state.disk, history');
    }
  }

  /** A re-anchoring ends the loss: while no other window holds a lost row to store, the world is sound again, and
      no later verification reports a loss. */
  lemma ReanchoringEndsLoss(
      w: World, history: seq<Digest>, still: bool, i: nat, force: bool, io: Io, later: seq<WindowRuns.Step>)
      returns (history': seq<Digest>)
    requires Can(w, Reanchor(i, force, io))
    requires ReanchorCheckpoint(StateOf(w, i), FenceOf(w, i), force, io).result.Reanchored?
    requires Goes(Next(w, Reanchor(i, force, io)), later)
    requires LossInv(w, history, still) && OthersSound(w, i, history)
    ensures Inv(Next(w, Reanchor(i, force, io)), history')
    ensures var w' := After(Next(w, Reanchor(i, force, io)), later);
            !ReportsLoss(ClassifyLoss(w'.stored, VerifyAt(w'.disk, HeadOf(w'.stored))))
  {
    hide DiskAt, View, AllLines, Linked, ReanchorCheckpoint, OrderlyRetention, StoredSound, FilesPresent, WriterSound,
         UpToDate, LossWindow, Goes, After, ClassifyLoss, VerifyAt, Inv, LostOrPruned;
    LossIsAt(w, history, still);
    OwnerReanchors(w, i, force, io);
    history' := ReanchoredKeeps(StateOf(w, i), history, w.fence, force, io);
    var w' := Next(w, Reanchor(i, force, io));
    SoundAgain(w, history, still, i, w', history');
    SoundRunAlarmsNot(w', history', later);
  }

  lemma LossIsAt(w: World, history: seq<Digest>, still: bool)
    requires LossInv(w, history, still)
    ensures DiskAt(w.disk, history) && Linked(history)
  {
  }

  lemma OwnerReanchors(w: World, i: nat, force: bool, io: Io)
    requires Can(w, Reanchor(i, force, io))
    requires ReanchorCheckpoint(StateOf(w, i), FenceOf(w, i), force, io).result.Reanchored?
    ensures w.owner == Some(i)
  {
  }

  /** A tail check that succeeds sets the checkpoint fields anew. */
  lemma CheckTailForgets(st: State, io: Io)
    requires CheckTail(st, io).ok
    ensures CheckTail(st.(writer := st.writer.(cp := None)), io) == CheckTail(st, io)
  {
    hide RepairTail, SettleMode, SettleWalk, Unended;
  }

  lemma CheckedRowForgets(st: State, fence: nat, body: Body, io: Io)
    requires Ready(st, fence) && Owes(st.writer, fence) && WriteRow(st, fence, body, io).ok
    ensures var bare := st.(writer := st.writer.(cp := None));
            Ready(bare, fence) && WriteRow(bare, fence, body, io) == WriteRow(st, fence, body, io)
  {
    hide CheckTail, LandRow, CutsEnded, Unended;
    CheckTailForgets(OweTailCheck(st), io);
  }

  /** Window `i` retires the checkpoint of `w`, and its next row lands. */
  predicate RetiresAndLands(w: World, i: nat, io: Io, v: World, first: Io, w': World) {
    && Can(w, Retire(i, io)) && v == Next(w, Retire(i, io))
    && RetireCheckpoint(StateOf(w, i), FenceOf(w, i), io).result.RetiredNow?
    && Can(v, Append(i, first)) && LandsRow(v, Append(i, first)) && w' == Next(v, Append(i, first))
  }

  /** A retirement ends the loss with the next row that lands: the first of a new history. */
  lemma RetirementEndsLoss(
      w: World, history: seq<Digest>, still: bool, i: nat, io: Io, v: World, first: Io, w': World,
      later: seq<WindowRuns.Step>) returns (history': seq<Digest>)
    requires RetiresAndLands(w, i, io, v, first, w')
    requires Goes(w', later)
    requires LossInv(w, history, still) && OthersSound(w, i, history)
    ensures Inv(w', history')
    ensures var end := After(w', later);
            !ReportsLoss(ClassifyLoss(end.stored, VerifyAt(end.disk, HeadOf(end.stored))))
  {
    hide DiskAt, View, AllLines, Linked, OrderlyRetention, FilesPresent, UpToDate, LossWindow, Goes, After,
         ClassifyLoss, VerifyAt, Inv, LostOrPruned, WriteRow, Ready;
    LossIsAt(w, history, still);
    var st := StateOf(v, i);
    var body := Event(first.ids + 2);
    CheckedRowForgets(st, w.fence, body, first);
    history' := WriteRowKeeps(st.(writer := st.writer.(cp := None)), history, w.fence, body, first);
    DiskIsReady(w'.disk, history');
    SoundAgain(w, history, still, i, w', history');
    SoundRunAlarmsNot(w', history', later);
  }
}
