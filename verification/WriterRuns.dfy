/** Runs of several windows over one audit directory: what every step keeps. */
module WriterRuns {
  import opened Common
  import opened ChainLines
  import opened ChainWalk
  import opened ChainFacts
  import opened ChainEvidence
  import opened AuditDisk
  import opened Checkpoint
  import opened WriterSteps
  import opened DiskHistory

  // ---------------------------------------------------------------------------
  // The files, step by step.
  // ---------------------------------------------------------------------------

  /** The walk of the files. */
  function Seen(d: Disk): Brief
    requires View(AllLines(d)).Some?
  {
    View(AllLines(d)).value
  }

  /** From one state of the files to a later one: nothing vanishes whole, and no damaged line becomes
      followed by another unless `torn`. */
  ghost predicate Onward(d: Disk, d': Disk, torn: bool) {
    && View(AllLines(d)).Some? && View(AllLines(d')).Some?
    && (FilesPresent(d) ==> FilesPresent(d'))
    && (Seen(d').paired ==> Seen(d).paired || torn)
    && Seen(d).tally.prunedThrough <= Seen(d').tally.prunedThrough
  }

  lemma RotateKeeps(d: Disk, history: seq<Digest>, io: Io)
    requires DiskAt(d, history) && OrderlyRetention(d, io) && Seen(d).pending.None?
    ensures var d' := MaybeRotate(d, io);
            && DiskAt(d', history)
            && DiskLink(d') == DiskLink(d)
            && Seen(d').pending.None?
            && Onward(d, d', false)
  {
    hide Fold, View, PruneArchives, WellKept, StandsAt;
    if io.rotation.Some? && LastItem(LiveLines(d)).Some? {
      RotateKeepsHistory(d, history, io);
      var archive := Archive(io.rotation.value.stamp, io.rotation.value.mtimeMs, d.live.value);
      PruneKeepsHistory(Disk(d.cuts, d.archives + [archive], None), history, io.budget, io.prune, io.nowMs);
    }
  }

  lemma WriteKeeps(d: Disk, history: seq<Digest>, row: Line, io: Io)
    requires DiskAt(d, history) && OrderlyRetention(d, io) && Seen(d).pending.None? && !Unended(d)
    requires row.Row? && row.prev == DiskLink(d)
    ensures CutsEnded(d)
    ensures var d' := DoWrite(d, row, io);
            && DiskAt(d', Grown(history, row, io.row))
            && (io.row.Whole? ==> Seen(d').pending.None? && DiskLink(d') == Of(row) && FilesPresent(d') && !Unended(d'))
            && Onward(d, d', false)
  {
    hide DiskAt, View, DiskLink, AllLines, PruneArchives, MaybeRotate, AppendLine, CutsEnded, FilesPresent,
         OrderlyRetention;
    DiskIsReady(d, history);
    RotateKeeps(d, history, io);
    RotateIsReady(d, io);
    var d' := MaybeRotate(d, io);
    DiskIsReady(d', history);
    AppendKeepsHistory(d', history, row, io.row);
    DiskIsReady(AppendLine(d', row, io.row), Grown(history, row, io.row));
    AppendEnds(d', row, io.row);
  }

  lemma RotateIsReady(d: Disk, io: Io)
    requires CutsEnded(d)
    ensures !Unended(d) ==> !Unended(MaybeRotate(d, io))
  {
  }

  lemma AppendEnds(d: Disk, row: Line, landing: Landing)
    requires !Unended(d) && row.Row?
    ensures landing.Whole? ==> !Unended(AppendLine(d, row, landing))
    ensures FilesPresent(d) ==> FilesPresent(AppendLine(d, row, landing))
  {
  }

  /** What the end of the files says about where their walk stands. */
  lemma EndOfFiles(d: Disk, history: seq<Digest>)
    requires DiskAt(d, history)
    ensures if |history| > 0 then DiskLink(d) == history[|history| - 1] else !IsRow(DiskLink(d))
    ensures ChosenLink(d) == DiskLink(d)
    ensures var b, last := Seen(d), LastItem(Entries(d));
            && (if last.Some? && last.value.Torn? then b.pending == last else b.pending.None?)
            && (last.Some? && !last.value.Torn? ==> IsEntry(last.value) && Of(last.value) == DiskLink(d))
  {
    LinkIsHead(d, history);
    PendingIsLast(d);
    ItemIsParsed(Entries(d));
  }

  /** A last item that is not damaged is the last line that parses. */
  lemma {:induction false} ItemIsParsed(lines: seq<Line>)
    ensures LastItem(lines).Some? && !LastItem(lines).value.Torn? ==> LastParsed(lines) == LastItem(lines)
    decreases |lines|
  {
    if |lines| > 0 && lines[|lines| - 1].Blank? {
      ItemIsParsed(lines[..|lines| - 1]);
    }
  }

  /** The history after the repair of the tail: it grows by the damage row when one lands. */
  function RepairedHistory(d: Disk, history: seq<Digest>, io: Io): seq<Digest> {
    var last := LastItem(Entries(d));
    if io.tailReadable && last.Some? && last.value.Torn? && (Unended(d) ==> io.newline.Whole?)
    then Grown(history, DamageRow(io.ids, last.value, ChosenLink(d)), io.damage)
    else history
  }

  /** The damage row of a damaged end. */
  lemma DamageKeeps(d: Disk, history: seq<Digest>, damaged: Line, io: Io)
    requires DiskAt(d, history) && !Unended(d) && Seen(d).pending == Some(damaged) && damaged.Torn?
    ensures var row := DamageRow(io.ids, damaged, DiskLink(d));
            var d' := AppendLine(d, row, io.damage);
            && DiskAt(d', Grown(history, row, io.damage))
            && (io.damage.Whole? ==> DiskLink(d') == Of(row) && Seen(d').pending.None? && !Unended(d'))
            && Onward(d, d', io.damage.TornAt?)
            && Seen(d').tally.prunedThrough == Seen(d).tally.prunedThrough
            && (!FilesPresent(d') ==> !FilesPresent(d))
  {
    hide Fold, View, StandsAt, WellKept;
    AppendKeepsHistory(d, history, DamageRow(io.ids, damaged, DiskLink(d)), io.damage);
  }

  lemma RepairKeeps(d: Disk, history: seq<Digest>, io: Io)
    requires DiskAt(d, history)
    ensures var r := RepairTail(d, io);
            && DiskAt(r.disk, RepairedHistory(d, history, io))
            && (r.ok ==> r.landed == Some(DiskLink(r.disk)) && Seen(r.disk).pending.None? && !Unended(r.disk))
            && Onward(d, r.disk, io.damage.TornAt?)
            && Seen(r.disk).tally.prunedThrough == Seen(d).tally.prunedThrough
            && (!FilesPresent(r.disk) <==> !FilesPresent(d))
            && (!FilesPresent(d) ==> RepairedHistory(d, history, io) == history)
  {
    EndOfFiles(d, history);
    hide Fold, View, StandsAt, WellKept, LastItem, Entries;
    LastUnendedIsItem(d);
    var last := LastItem(Entries(d));
    if io.tailReadable && last.Some? {
      EntryMeansFiles(d);
      var ended := if Unended(d) then AppendNewline(d, io.newline) else d;
      if Unended(d) {
        NewlineKeepsHistory(d, history, io.newline);
      }
      if !Unended(ended) && last.value.Torn? {
        DamageKeeps(ended, history, last.value, io);
      }
    }
  }

  lemma EntryMeansFiles(d: Disk)
    ensures LastItem(Entries(d)).Some? ==> FilesPresent(d)
  {
  }

  // ---------------------------------------------------------------------------
  // The checkpoint.
  // ---------------------------------------------------------------------------

  /** `d` is the row at position `p` of the history, or at 0 no row at all. */
  ghost predicate HeadSound(d: Digest, p: int, history: seq<Digest>) {
    if p == 0 then !IsRow(d) else 1 <= p <= |history| && history[p - 1] == d
  }

  /** A stored checkpoint is never ahead of the log. */
  ghost predicate StoredSound(stored: CheckpointRead, d: Disk, history: seq<Digest>) {
    stored.Active? ==>
      && FilesPresent(d)
      && HeadSound(stored.checkpoint.headDigest, stored.checkpoint.position, history)
  }

  /** Nor is what a writer would store next. */
  ghost predicate WriterSound(w: Writer, history: seq<Digest>) {
    w.cp.Some? ==>
      && w.landedDigest.Some?
      && (Advances(w.cp.value.mode) ==> HeadSound(w.landedDigest.value, w.cp.value.position, history))
  }

  /** The writer has settled for loss. */
  predicate InLoss(w: Writer) {
    w.cp.Some? && w.cp.value.mode.Loss?
  }

  /** The writer's link and position are those of the files. */
  ghost predicate UpToDate(st: State, history: seq<Digest>)
    requires View(AllLines(st.disk)).Some?
  {
    && st.writer.landedDigest == Some(DiskLink(st.disk))
    && Seen(st.disk).pending.None?
    && !Unended(st.disk)
    && (st.writer.cp.Some? && Advances(st.writer.cp.value.mode) ==> st.writer.cp.value.position == |history|)
  }

  /** What a walk with a probe reports. */
  lemma WalkProbes(d: Disk, history: seq<Digest>, head: Digest)
    requires DiskAt(d, history) && Verify(AllLines(d), Some(head)).Intact?
    ensures var found, pruned := Verify(AllLines(d), Some(head)).positions, Seen(d).tally.prunedThrough;
            var at := FirstAt(Chained(Entries(d)), head);
            && found.tail == |history|
            && found.prunedThrough == pruned
            && found.probe == Some(Probe(head, if at.Some? then Some(pruned + at.value) else None))
  {
    VerifyFromView(AllLines(d), Some(head));
    hide View;
    var p := Some(head);
    FoldConcat(Strict, p, START, CutFile(d), Entries(d));
    WalkingBefore(Strict, p, START, CutFile(d), Entries(d));
    CutLinkIsLink(Strict, p, CutFile(d));
    CountsRows(Strict, p, Fold(Strict, p, START, CutFile(d)), Entries(d));
  }

  /** The files hold the rows of the history past the pruned ones. */
  lemma RowsPastPruned(d: Disk, history: seq<Digest>)
    requires DiskAt(d, history)
    ensures View(AllLines(d)).Some?
    ensures var pruned := Seen(d).tally.prunedThrough;
            0 <= pruned <= |history| && Chained(Entries(d)) == history[pruned..] && Tail(Seen(d).tally) == |history|
  {
    hide Fold, View, WellKept, Chained, Entries, AllLines;
  }

  /** The walk of any intact log finds a sound head where the checkpoint says. */
  lemma HeadIsReached(d: Disk, history: seq<Digest>, head: Digest, p: int)
    requires DiskAt(d, history) && Linked(history) && HeadSound(head, p, history)
    requires Verify(AllLines(d), Some(head)).Intact?
    ensures Reaches(Verify(AllLines(d), Some(head)).positions, p)
    ensures Verify(AllLines(d), Some(head)).positions.tail == |history|
  {
    hide DiskAt, View, Verify, Chained, Entries, AllLines, Linked, FirstAt, IsRow;
    WalkProbes(d, history, head);
    RowsPastPruned(d, history);
    if p > Seen(d).tally.prunedThrough {
      RowIsFound(history, Seen(d).tally.prunedThrough, p);
    }
  }

  /** The first place of a row past the pruned ones is its position. */
  lemma RowIsFound(history: seq<Digest>, pruned: nat, p: nat)
    requires Linked(history) && pruned < p <= |history|
    ensures FirstAt(history[pruned..], history[p - 1]) == Some(p - pruned)
  {
    var rows := history[pruned..];
    assert rows[p - 1 - pruned] == history[p - 1];
    var at := FirstAt(rows, history[p - 1]);
    assert rows[at.value - 1] == history[pruned + at.value - 1];
    LinkedAreDistinct(history, p - 1, pruned + at.value - 1);
  }

  lemma NoFilesNoHistory(d: Disk, history: seq<Digest>)
    requires DiskAt(d, history) && !FilesPresent(d)
    ensures |history| == 0 && AllLines(d) == []
  {
    RowsPastPruned(d, history);
    NoFilesNoLines(d);
    EmptyView();
  }

  lemma NoFilesLink(d: Disk)
    requires !FilesPresent(d)
    ensures View(AllLines(d)).Some? && DiskLink(d) == Genesis && Seen(d).pending.None?
  {
    NoFilesNoLines(d);
    EmptyView();
  }

  lemma EmptyView()
    ensures View([]) == Some(Brief(START.standing, START.tally, None, false))
  {
  }

  lemma NoFilesNoLines(d: Disk)
    requires !FilesPresent(d)
    ensures AllLines(d) == []
  {
  }

  /** No verification of a sound state reports a loss. */
  lemma NoFalseAlarm(st: State, history: seq<Digest>)
    requires DiskAt(st.disk, history) && Linked(history) && StoredSound(st.stored, st.disk, history)
    ensures !ReportsLoss(ClassifyLoss(st.stored, VerifyAt(st.disk, HeadOf(st.stored))))
  {
    hide DiskAt, View, Verify, Linked, HeadSound, Reaches, AllLines;
    if st.stored.Active? && Verify(AllLines(st.disk), HeadOf(st.stored)).Intact? {
      HeadIsReached(st.disk, history, st.stored.checkpoint.headDigest, st.stored.checkpoint.position);
    }
  }

  // ---------------------------------------------------------------------------
  // What every step keeps.
  // ---------------------------------------------------------------------------

  ghost predicate Sound(st: State, history: seq<Digest>) {
    && DiskAt(st.disk, history)
    && Linked(history)
    && StoredSound(st.stored, st.disk, history)
    && WriterSound(st.writer, history)
  }

  /** The link a row after `history` carries. */
  predicate LinksTo(history: seq<Digest>, link: Digest) {
    if |history| > 0 then link == history[|history| - 1] else !IsRow(link)
  }

  /** The rows stay linked when one with the right link lands. */
  lemma LinkedGrows(history: seq<Digest>, row: Line, landing: Landing)
    requires Linked(history) && row.Row? && LinksTo(history, row.prev)
    ensures Linked(Grown(history, row, landing)) && history <= Grown(history, row, landing)
  {
  }

  lemma SoundGrows(stored: CheckpointRead, w: Writer, d: Disk, d': Disk, history: seq<Digest>, history': seq<Digest>)
    requires history <= history' && (FilesPresent(d) ==> FilesPresent(d'))
    ensures StoredSound(stored, d, history) ==> StoredSound(stored, d', history')
    ensures WriterSound(w, history) ==> WriterSound(w, history')
  {
  }

  /** What a tail check finds out is true of the files. */
  ghost predicate FactsHold(history: seq<Digest>, read: CheckpointRead, facts: SettleFacts) {
    && facts.tailDigest.Some? && LinksTo(history, facts.tailDigest.value)
    && (!facts.filesPresent ==> |history| == 0)
    && (read.Active? ==> facts.filesPresent && HeadSound(read.checkpoint.headDigest, read.checkpoint.position, history))
    && (facts.walk.Some? && facts.walk.value.Intact? ==>
          && facts.walk.value.positions.tail == |history|
          && (read.Active? ==> Reaches(facts.walk.value.positions, read.checkpoint.position)))
  }

  /** The settled mode is no loss, and in a mode that advances the position is the last row's: the answer
      that the head is the tail, made without a walk, is the one the walk gives. */
  lemma SettledIsSound(history: seq<Digest>, read: CheckpointRead, facts: SettleFacts)
    requires Linked(history) && FactsHold(history, read, facts)
    ensures var settled := SettleMode(read, facts);
            && !settled.mode.Loss?
            && (settled.mode.Reset? ==> !facts.filesPresent && read.Retired?)
            && (Advances(settled.mode) ==> settled.position == |history|)
  {
    if read.Active? && read.checkpoint.position > 0 && |history| > 0
         && history[|history| - 1] == read.checkpoint.headDigest {
      LinkedAreDistinct(history, read.checkpoint.position - 1, |history| - 1);
    }
  }

  /** The facts `settleCheckpoint` gathers. */
  function FactsOf(d: Disk, read: CheckpointRead, landed: Option<Digest>, walkable: bool): SettleFacts {
    SettleFacts(FilesPresent(d), landed, SettleWalk(d, read, landed, walkable))
  }

  lemma FactsGathered(d: Disk, history: seq<Digest>, read: CheckpointRead, walkable: bool)
    requires DiskAt(d, history) && Linked(history) && StoredSound(read, d, history)
    ensures FactsHold(history, read, FactsOf(d, read, Some(DiskLink(d)), walkable))
  {
    hide DiskAt, DiskLink, View, Verify, AllLines, FilesPresent, Reaches, Linked, HeadSound;
    DiskIsReady(d, history);
    LinkIsHead(d, history);
    var walk := SettleWalk(d, read, Some(DiskLink(d)), walkable);
    if !FilesPresent(d) {
      NoFilesNoHistory(d, history);
    }
    if walk.Some? && walk.value.Intact? {
      WalkIsRight(d, history, read);
    }
  }

  lemma WalkIsRight(d: Disk, history: seq<Digest>, read: CheckpointRead)
    requires DiskAt(d, history) && Linked(history) && StoredSound(read, d, history)
    requires Verify(AllLines(d), HeadOf(read)).Intact?
    ensures Verify(AllLines(d), HeadOf(read)).positions.tail == |history|
    ensures read.Active? ==> Reaches(Verify(AllLines(d), HeadOf(read)).positions, read.checkpoint.position)
  {
    if read.Active? {
      HeadIsReached(d, history, read.checkpoint.headDigest, read.checkpoint.position);
    } else {
      VerifyFromView(AllLines(d), None);
      RowsPastPruned(d, history);
    }
  }

  /** The reset row, the first of a new history. */
  lemma ResetKeeps(d: Disk, row: Line, landing: Landing)
    requires DiskAt(d, []) && !FilesPresent(d) && row.Row? && row.prev == Genesis
    ensures var d' := AppendLine(d, row, landing);
            && DiskAt(d', Grown([], row, landing))
            && Linked(Grown([], row, landing))
            && Onward(d, d', false)
            && (landing.Whole? ==>
                  DiskLink(d') == Of(row) && Seen(d').pending.None? && !Unended(d') && FilesPresent(d'))
  {
    NoFilesLink(d);
    AppendKeepsHistory(d, [], row, landing);
    LinkedGrows([], row, landing);
  }

  /** What the settled checkpoint changes of the writer. */
  predicate SameButCheckpoint(w: Writer, w': Writer) {
    w' == w.(landedDigest := w'.landedDigest, cp := w'.cp, portBlocked := w'.portBlocked)
  }

  lemma SettleKeeps(st: State, history: seq<Digest>, io: Io) returns (history': seq<Digest>)
    requires DiskAt(st.disk, history) && Linked(history) && StoredSound(st.stored, st.disk, history)
    requires UpToDate(st.(writer := st.writer.(cp := None)), history)
    requires !FilesPresent(st.disk) ==> WriterSound(st.writer, history)
    ensures var done := SettleCheckpoint(st, io);
            && DiskAt(done.state.disk, history') && Linked(history') && history <= history'
            && Onward(st.disk, done.state.disk, false)
            && WriterSound(done.state.writer, history')
            && SameButCheckpoint(st.writer, done.state.writer)
            && (InLoss(done.state.writer) ==> InLoss(st.writer))
            && (done.ok ==> UpToDate(done.state, history'))
  {
    hide DiskAt, DiskLink, View, Verify, AllLines, FilesPresent, Linked, Onward, SettleMode, SettleWalk, AppendLine,
         Unended;
    history' := history;
    OnwardRefl(st.disk, history);
    if st.writer.hasPort {
      var (read, known) := ReadPort(st, io.checkpointReachable);
      var facts := FactsOf(st.disk, read, st.writer.landedDigest, io.walkable);
      FactsGathered(st.disk, history, read, io.walkable);
      SettledIsSound(history, read, facts);
      var settled := SettleMode(read, facts);
      if settled.mode.Reset? {
        NoFilesNoHistory(st.disk, history);
        var row := Row(Integrity(io.ids + 1, HistoryReset(read.checkpoint.retiredPosition)), Genesis);
        assert history == [];
        ResetKeeps(st.disk, row, io.reset);
        history' := Grown(history, row, io.reset);
      }
    }
  }

  lemma OnwardRefl(d: Disk, history: seq<Digest>)
    requires DiskAt(d, history)
    ensures View(AllLines(d)).Some? && Onward(d, d, false)
  {
  }

  lemma OnwardTrans(d: Disk, d1: Disk, d2: Disk, torn: bool)
    requires Onward(d, d1, torn) && Onward(d1, d2, false)
    ensures Onward(d, d2, torn)
  {
  }

  lemma RepairLinks(d: Disk, history: seq<Digest>, io: Io)
    requires DiskAt(d, history) && Linked(history)
    ensures Linked(RepairedHistory(d, history, io)) && history <= RepairedHistory(d, history, io)
  {
    hide DiskAt, DiskLink, View, LastItem, Entries, AllLines, Linked, Unended, IsRow;
    EndOfFiles(d, history);
    var last := LastItem(Entries(d));
    if last.Some? && last.value.Torn? {
      LinkedGrows(history, DamageRow(io.ids, last.value, ChosenLink(d)), io.damage);
    }
  }

  /** Before any row, a sound writer counts none. */
  lemma SoundBeforeRows(w: Writer, landed: Digest)
    requires WriterSound(w, []) && !IsRow(landed)
    ensures WriterSound(w.(landedDigest := Some(landed)), [])
  {
  }

  lemma CheckTailKeeps(st: State, history: seq<Digest>, io: Io) returns (history': seq<Digest>)
    requires Sound(st, history)
    ensures var done := CheckTail(st, io);
            && Sound(done.state, history') && history <= history'
            && Onward(st.disk, done.state.disk, io.damage.TornAt?)
            && SameButCheckpoint(st.writer.(tailCheckOwed := done.state.writer.tailCheckOwed), done.state.writer)
            && (InLoss(done.state.writer) ==> InLoss(st.writer))
            && (if done.ok then UpToDate(done.state, history') && !done.state.writer.tailCheckOwed
                else done.state.writer.tailCheckOwed == st.writer.tailCheckOwed)
  {
    hide DiskAt, DiskLink, View, AllLines, Linked, SettleCheckpoint, RepairTail, Unended, FilesPresent, LastItem;
    var d := st.disk;
    var r := RepairTail(d, io);
    var h := RepairedHistory(d, history, io);
    RepairKeeps(d, history, io);
    RepairLinks(d, history, io);
    SoundGrows(st.stored, st.writer, d, r.disk, history, h);
    history' := h;
    if r.ok {
      var checked := st.(disk := r.disk, writer := st.writer.(landedDigest := r.landed));
      if !FilesPresent(r.disk) {
        NoFilesLink(r.disk);
        NoFilesNoHistory(r.disk, h);
        SoundBeforeRows(st.writer, r.landed.value);
      }
      history' := SettleKeeps(checked, h, io);
      var settled := SettleCheckpoint(checked, io);
      SoundGrows(st.stored, settled.state.writer, r.disk, settled.state.disk, h, history');
      OnwardTrans(d, r.disk, settled.state.disk, io.damage.TornAt?);
    }
  }

  lemma FilesAreReady(st: State, history: seq<Digest>, fence: nat)
    requires DiskAt(st.disk, history)
    requires !Owes(st.writer, fence) ==> UpToDate(st, history)
    ensures Ready(st, fence)
  {
  }

  /** The row of an up-to-date writer. */
  lemma LandingKeeps(st: State, history: seq<Digest>, row: Line, io: Io)
    requires Sound(st, history) && UpToDate(st, history) && OrderlyRetention(st.disk, io)
    requires row.Row? && Some(row.prev) == st.writer.landedDigest
    ensures CutsEnded(st.disk)
    ensures var d', history' := DoWrite(st.disk, row, io), Grown(history, row, io.row);
            && DiskAt(d', history') && Linked(history') && history <= history'
            && StoredSound(st.stored, d', history')
            && Onward(st.disk, d', false)
            && (io.row.Whole? ==> Seen(d').pending.None? && DiskLink(d') == Of(row) && FilesPresent(d') && !Unended(d'))
  {
    WriteKeeps(st.disk, history, row, io);
    LinkIsHead(st.disk, history);
    LinkedGrows(history, row, io.row);
    SoundGrows(st.stored, st.writer, st.disk, DoWrite(st.disk, row, io), history, Grown(history, row, io.row));
    hide DiskAt, View, DoWrite, Linked;
  }

  /** A prune whose cut record is written notes no break. */
  lemma NoBreakNoted(d: Disk, io: Io)
    requires OrderlyRetention(d, io)
    ensures !RotateBreaks(d, io) && io.prune.cutWritten
  {
  }

  /** What a row step promises: with `ok` the writer is up to date under `fence`, else a tail check is owed. */
  ghost predicate RowDone(st: State, done: Done, fence: nat, history': seq<Digest>) {
    && Sound(done.state, history')
    && (InLoss(done.state.writer) ==> InLoss(st.writer))
    && if done.ok
       then UpToDate(done.state, history') && FilesPresent(done.state.disk) && |history'| > 0
            && !Owes(done.state.writer, fence) && done.state.writer.writtenUnderFence == Some(fence)
       else done.state.writer.tailCheckOwed && done.state.writer.writtenUnderFence == st.writer.writtenUnderFence
  }

  lemma LandRowKeeps(st: State, history: seq<Digest>, fence: nat, body: Body, io: Io) returns (history': seq<Digest>)
    requires Sound(st, history) && UpToDate(st, history) && OrderlyRetention(st.disk, io)
    requires !st.writer.tailCheckOwed
    ensures CutsEnded(st.disk)
    ensures var done := LandRow(st, fence, body, io);
            RowDone(st, done, fence, history') && history <= history' && Onward(st.disk, done.state.disk, false)
  {
    hide DiskAt, DiskLink, View, AllLines, Linked, Unended, FilesPresent, DoWrite, OrderlyRetention, CutsEnded;
    var row := Row(body, st.writer.landedDigest.GetOr(Genesis));
    LandingKeeps(st, history, row, io);
    RowIsCounted(st.writer, history, row, io.row);
    history' := Grown(history, row, io.row);
  }

  lemma WriteRowKeeps(st: State, history: seq<Digest>, fence: nat, body: Body, io: Io) returns (history': seq<Digest>)
    requires Sound(st, history) && OrderlyRetention(st.disk, io)
    requires !Owes(st.writer, fence) ==> UpToDate(st, history)
    ensures Ready(st, fence)
    ensures var done := WriteRow(st, fence, body, io);
            && RowDone(st, done, fence, history')
            && history <= history'
            && Onward(st.disk, done.state.disk, io.damage.TornAt?)
  {
    hide DiskAt, DiskLink, View, AllLines, Linked, CheckTail, Unended, FilesPresent, LandRow, OrderlyRetention,
         CutsEnded;
    FilesAreReady(st, history, fence);
    if Owes(st.writer, fence) {
      history' := CheckTailKeeps(OweTailCheck(st), history, io);
      SameArchives(st, io);
      var checked := CheckTail(OweTailCheck(st), io);
      if checked.ok {
        history' := LandRowKeeps(checked.state, history', fence, body, io);
        OnwardTrans(st.disk, checked.state.disk, LandRow(checked.state, fence, body, io).state.disk, io.damage.TornAt?);
      }
    } else {
      OnwardRefl(st.disk, history);
      history' := LandRowKeeps(st, history, fence, body, io);
    }
  }

  lemma SameArchives(st: State, io: Io)
    requires OrderlyRetention(st.disk, io)
    ensures OrderlyRetention(CheckTail(OweTailCheck(st), io).state.disk, io)
  {
    hide RepairTail, SettleCheckpoint, CheckTail;
  }

  /** A landed row moves the count with the history. */
  lemma RowIsCounted(w: Writer, history: seq<Digest>, row: Line, landing: Landing)
    requires WriterSound(w, history)
    requires w.cp.Some? && Advances(w.cp.value.mode) ==> w.cp.value.position == |history|
    ensures WriterSound(w, Grown(history, row, landing))
    ensures landing.Whole? && w.cp.Some? ==>
              WriterSound(w.(landedDigest := Some(Of(row)),
                             cp := Some(w.cp.value.(position := w.cp.value.position + 1))),
                          Grown(history, row, landing))
  {
  }

  lemma AdvanceKeeps(st: State, history: seq<Digest>, writable: bool, nowMs: int)
    requires Sound(st, history) && (FilesPresent(st.disk) || st.writer.portBlocked)
    ensures var st' := AdvanceCheckpoint(st, writable, nowMs);
            && Sound(st', history) && st'.disk == st.disk
            && (UpToDate(st, history) ==> UpToDate(st', history))
            && SameButCheckpoint(st.writer, st'.writer) && st'.writer.landedDigest == st.writer.landedDigest
  {
    hide DiskAt, DiskLink, View, AllLines, Linked, Unended, FilesPresent;
  }

  lemma NoteKeeps(st: State, history: seq<Digest>, fence: nat, brokenKnown: bool, io: Io)
      returns (history': seq<Digest>)
    requires Sound(st, history) && OrderlyRetention(st.disk, io)
    requires !Owes(st.writer, fence) ==> UpToDate(st, history)
    ensures Ready(st, fence)
    ensures var done := NoteVerified(st, Some(fence), brokenKnown, io);
            && Sound(done.state, history') && history <= history'
            && Onward(st.disk, done.state.disk, io.damage.TornAt?)
            && (!Owes(done.state.writer, fence) ==> UpToDate(done.state, history'))
            && (InLoss(done.state.writer) ==> InLoss(st.writer))
            && (done.state.writer.writtenUnderFence == st.writer.writtenUnderFence
                || done.state.writer.writtenUnderFence == Some(fence))
            && (done.result.Recovered? ==> FilesPresent(done.state.disk) && UpToDate(done.state, history'))
  {
    hide DiskAt, DiskLink, View, AllLines, Linked, Unended, FilesPresent, WriteRow, OrderlyRetention, Verify,
         VerifyAt, ClassifyLoss;
    FilesAreReady(st, history, fence);
    OnwardRefl(st.disk, history);
    history' := history;
    if brokenKnown {
      var (read, known) := ReadPort(st, io.checkpointReachable);
      var walk := if io.walkable then VerifyAt(st.disk, HeadOf(read)) else None;
      if walk.Some? && walk.value.Intact? && !ReportsLoss(ClassifyLoss(read, walk)) {
        var body := Integrity(io.ids + 2, ChainVerified(walk.value.entries, walk.value.cuts));
        history' := WriteRowKeeps(known, history, fence, body, io);
      }
    }
  }

  /** In a sound state there is nothing to retire: without files there is no active checkpoint. */
  lemma RetireKeeps(st: State, history: seq<Digest>, fence: Option<nat>, io: Io)
    requires Sound(st, history)
    ensures var done := RetireCheckpoint(st, fence, io);
            && !done.result.RetiredNow?
            && Sound(done.state, history)
            && done.state == st.(writer := st.writer.(portBlocked := done.state.writer.portBlocked))
            && (UpToDate(st, history) ==> UpToDate(done.state, history))
  {
    hide DiskAt, DiskLink, View, AllLines, Linked, Unended, FilesPresent;
  }

  lemma MaintenanceKeeps(st: State, history: seq<Digest>, fence: Option<nat>, io: Io)
    requires Sound(st, history) && io.prune.cutWritten
    ensures CutsEnded(st.disk)
    ensures var st' := RunMaintenance(st, fence, io);
            && Sound(st', history)
            && Onward(st.disk, st'.disk, false)
            && (UpToDate(st, history) ==> UpToDate(st', history))
            && st' == st.(disk := st'.disk, writer := st.writer.(maintenanceRan := st'.writer.maintenanceRan))
  {
    hide DiskAt, DiskLink, View, AllLines, Linked, Unended, FilesPresent, PruneArchives, CutsEnded;
    PruneOnward(st.disk, history, io);
    OnwardRefl(st.disk, history);
    SoundGrows(st.stored, st.writer, st.disk, PruneArchives(st.disk, io.budget, io.prune, io.nowMs), history, history);
  }

  lemma PruneOnward(d: Disk, history: seq<Digest>, io: Io)
    requires DiskAt(d, history) && io.prune.cutWritten
    ensures CutsEnded(d)
    ensures var d' := PruneArchives(d, io.budget, io.prune, io.nowMs);
            && DiskAt(d', history) && Onward(d, d', false) && DiskLink(d') == DiskLink(d)
            && (Seen(d).pending.None? ==> Seen(d').pending.None?)
            && (Unended(d') <==> Unended(d))
  {
    PruneKeepsHistory(d, history, io.budget, io.prune, io.nowMs);
    hide View, Fold, AllLines, StandsAt;
  }

  /** Where `reanchorCheckpoint` writes its row: after an intact walk, past the newline it may add. */
  lemma ReanchorEndKeeps(d: Disk, history: seq<Digest>, io: Io)
    requires DiskAt(d, history) && Seen(d).pending.None?
    ensures var end := ReanchorEnd(d, io);
            && DiskAt(end.disk, history) && Onward(d, end.disk, false)
            && Seen(end.disk).pending.None?
            && (end.ok ==> end.landed == Some(DiskLink(end.disk)) && LinksTo(history, end.landed.value))
            && (OrderlyRetention(d, io) ==> OrderlyRetention(end.disk, io))
  {
    hide DiskAt, DiskLink, View, AllLines, FilesPresent, Entries, LastItem, IsRow;
    DiskIsReady(d, history);
    EndOfFiles(d, history);
    if Unended(d) {
      NewlineKeepsHistory(d, history, io.newline);
      var ended := AppendNewline(d, io.newline);
      DiskIsReady(ended, history);
      SameViewSameLink(d, ended);
    }
  }

  lemma SameViewSameLink(d: Disk, d': Disk)
    requires View(AllLines(d)).Some? && View(AllLines(d')) == View(AllLines(d))
    ensures DiskLink(d') == DiskLink(d) && Seen(d') == Seen(d)
  {
  }

  /** The row of a re-anchoring extends the history like any other. */
  lemma ReanchorRowKeeps(st: State, history: seq<Digest>, fence: nat, newPosition: int, io: Io) returns (row: Line)
    requires DiskAt(st.disk, history) && OrderlyRetention(st.disk, io) && Seen(st.disk).pending.None?
    ensures CutsEnded(st.disk)
    ensures row.Row? && row.body.id == io.ids
    ensures var done, end := ReanchorRow(st, fence, newPosition, io), ReanchorEnd(st.disk, io);
            var history' := if end.ok then Grown(history, row, io.row) else history;
            && (end.ok ==> LinksTo(history, row.prev))
            && DiskAt(done.state.disk, history') && Onward(st.disk, done.state.disk, false)
            && done.state.stored == st.stored
            && (if done.ok
                then && done.state.writer
                    == st.writer.(landedDigest := Some(Of(row)), writtenUnderFence := Some(fence),
                                  tailCheckOwed := false)
                     && end.ok && io.row.Whole?
                     && Seen(done.state.disk).pending.None? && DiskLink(done.state.disk) == Of(row)
                     && FilesPresent(done.state.disk) && !Unended(done.state.disk)
                else done.state.writer == st.writer.(tailCheckOwed := true))
  {
    hide DiskAt, DiskLink, View, AllLines, FilesPresent, ReanchorEnd, DoWrite, OrderlyRetention, CutsEnded, Unended;
    DiskIsReady(st.disk, history);
    ReanchorEndKeeps(st.disk, history, io);
    var end := ReanchorEnd(st.disk, io);
    row := Row(Integrity(io.ids, CheckpointReanchored(newPosition)), end.landed.GetOr(Genesis));
    if end.ok {
      WriteKeeps(end.disk, history, row, io);
      NoBreakNoted(end.disk, io);
      OnwardTrans(st.disk, end.disk, DoWrite(end.disk, row, io), false);
    }
  }

  lemma ReanchorOntoKeeps(st: State, history: seq<Digest>, fence: nat, force: bool, io: Io)
      returns (history': seq<Digest>)
    requires Sound(st, history) && OrderlyRetention(st.disk, io) && Seen(st.disk).pending.None?
    ensures CutsEnded(st.disk)
    ensures var done := ReanchorOnto(st, fence, |history| + 1, force, io);
            && Sound(done.state, history') && history <= history'
            && Onward(st.disk, done.state.disk, false)
            && (if done.state.writer.tailCheckOwed then !done.result.Reanchored?
                else UpToDate(done.state, history') && done.state.writer.writtenUnderFence == Some(fence))
            && done.state.writer.writtenUnderFence in {st.writer.writtenUnderFence, Some(fence)}
            && (InLoss(done.state.writer) ==> InLoss(st.writer))
  {
    hide DiskAt, DiskLink, View, AllLines, Linked, Unended, FilesPresent, OrderlyRetention, CutsEnded, ReanchorRow,
         ReanchorEnd;
    var row := ReanchorRowKeeps(st, history, fence, |history| + 1, io);
    var done := ReanchorRow(st, fence, |history| + 1, io);
    history' := history;
    if ReanchorEnd(st.disk, io).ok {
      LinkedGrows(history, row, io.row);
      history' := Grown(history, row, io.row);
    }
    SoundGrows(st.stored, st.writer, st.disk, done.state.disk, history, history');
    OnwardMeans(st.disk, done.state.disk, false);
  }

  lemma OnwardMeans(d: Disk, d': Disk, torn: bool)
    requires Onward(d, d', torn)
    ensures FilesPresent(d) ==> FilesPresent(d')
  {
  }

  lemma DiskIsReady(d: Disk, history: seq<Digest>)
    requires DiskAt(d, history)
    ensures CutsEnded(d) && View(AllLines(d)).Some? && Onward(d, d, false)
  {
    hide View, Fold;
  }

  lemma IntactWalk(d: Disk, history: seq<Digest>)
    requires DiskAt(d, history) && Verify(AllLines(d), None).Intact?
    ensures View(AllLines(d)).Some? && Seen(d).pending.None?
    ensures Verify(AllLines(d), None).positions.tail == |history|
  {
    VerifyFromView(AllLines(d), None);
    RowsPastPruned(d, history);
  }

  lemma ReanchorKeeps(st: State, history: seq<Digest>, fence: nat, force: bool, io: Io) returns (history': seq<Digest>)
    requires Sound(st, history) && OrderlyRetention(st.disk, io)
    requires !Owes(st.writer, fence) ==> UpToDate(st, history)
    ensures CutsEnded(st.disk)
    ensures var done := ReanchorCheckpoint(st, Some(fence), force, io);
            && Sound(done.state, history') && history <= history'
            && Onward(st.disk, done.state.disk, false)
            && (!Owes(done.state.writer, fence) ==> UpToDate(done.state, history'))
            && (done.result.Reanchored? || (done.state.disk != st.disk && !done.state.writer.tailCheckOwed) ==>
                  UpToDate(done.state, history'))
            && done.state.writer.writtenUnderFence in {st.writer.writtenUnderFence, Some(fence)}
            && (InLoss(done.state.writer) ==> InLoss(st.writer))
  {
    hide DiskAt, DiskLink, View, AllLines, Linked, Unended, FilesPresent, Verify, ReanchorOnto, OrderlyRetention,
         CutsEnded;
    history' := history;
    DiskIsReady(st.disk, history);
    var walk := VerifyAt(st.disk, None);
    if st.writer.hasPort && io.walkable && walk.Some? && walk.value.Intact? {
      IntactWalk(st.disk, history);
      var (read, known) := ReadPort(st, io.checkpointReachable);
      if !read.Unreadable? || (!read.reason.Unreachable? && force) {
        history' := ReanchorOntoKeeps(known, history, fence, force, io);
      }
    }
  }
}
