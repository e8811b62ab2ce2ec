/** A loss stays found: runs after the checkpointed row was removed from outside. */
module LossRuns {
  import opened Common
  import opened ChainLines
  import opened ChainWalk
  import opened ChainFacts
  import opened ChainPrune
  import opened ChainEvidence
  import opened AuditDisk
  import opened Checkpoint
  import opened WriterSteps
  import opened DiskHistory
  import opened WriterRuns
  import opened WindowRuns

  // ---------------------------------------------------------------------------
  // One writer.
  // ---------------------------------------------------------------------------

  /** The files no longer hold the checkpointed row, and not because it was pruned. */
  ghost predicate Lost(d: Disk, stored: CheckpointRead, history: seq<Digest>) {
    && DiskAt(d, history)
    && Gone(stored, history)
    && Seen(d).tally.prunedThrough < stored.checkpoint.position
  }

  ghost predicate Gone(stored: CheckpointRead, history: seq<Digest>) {
    stored.Active? && LostRow(stored.checkpoint.headDigest, history)
  }

  /** A row that is not in the history any more. */
  ghost predicate LostRow(d: Digest, history: seq<Digest>) {
    IsRow(d) && d !in history
  }

  /** The rows of a step are new ones: `d` is none of them. */
  predicate NewRow(d: Digest, io: Io) {
    IsRow(d) ==> d.line.body.id !in {io.ids, io.ids + 1, io.ids + 2}
  }

  predicate NewRows(stored: CheckpointRead, io: Io) {
    stored.Active? ==> NewRow(stored.checkpoint.headDigest, io)
  }

  /** The history grows by rows of the step. */
  ghost predicate Adds(history: seq<Digest>, history': seq<Digest>, io: Io) {
    && history <= history'
    && Linked(history')
    && forall d :: d in history' && d !in history ==> IsRow(d) && !NewRow(d, io)
  }

  lemma AddsTwice(h0: seq<Digest>, h1: seq<Digest>, h2: seq<Digest>, io: Io)
    requires Adds(h0, h1, io) && Adds(h1, h2, io)
    ensures Adds(h0, h2, io)
  {
  }

  lemma GrownAdds(history: seq<Digest>, row: Line, landing: Landing, io: Io)
    requires Linked(history) && row.Row? && LinksTo(history, row.prev)
    requires row.body.id in {io.ids, io.ids + 1, io.ids + 2}
    ensures Adds(history, Grown(history, row, landing), io)
  {
    LinkedGrows(history, row, landing);
    hide Linked;
  }

  lemma StillLost(d: Digest, history: seq<Digest>, history': seq<Digest>, io: Io)
    requires LostRow(d, history) && NewRow(d, io) && Adds(history, history', io)
    ensures LostRow(d, history')
  {
    hide Linked;
  }

  /** What a writer would store is a row of the history at its position, or a lost one. */
  ghost predicate Known(w: Writer, history: seq<Digest>) {
    Moves(w) ==>
      HeadSound(w.landedDigest.value, w.cp.value.position, history) || LostRow(w.landedDigest.value, history)
  }

  lemma StillKnown(w: Writer, history: seq<Digest>, history': seq<Digest>, io: Io)
    requires Known(w, history) && Adds(history, history', io)
             && (w.landedDigest.Some? ==> NewRow(w.landedDigest.value, io))
    ensures Known(w, history')
  {
    hide Linked;
    if Moves(w) && LostRow(w.landedDigest.value, history) {
      StillLost(w.landedDigest.value, history, history', io);
    }
  }

  /** The writer's link is that of the files, and the files are ready for a row. */
  ghost predicate Links(st: State)
    requires View(AllLines(st.disk)).Some?
  {
    && st.writer.landedDigest == Some(DiskLink(st.disk))
    && Seen(st.disk).pending.None?
    && !Unended(st.disk)
  }

  /** What a verification says of the files: shorter, with what is missing, or missing altogether. */
  predicate Reported(stored: CheckpointRead, check: Option<Verdict>)
    requires stored.Active?
  {
    var loss := ClassifyLoss(stored, check);
    match check
    case None => loss == Missing(stored.checkpoint.position)
    case Some(Failed(_, _, _)) => loss == NotPerformed(ChainNotIntact)
    case Some(verdict) =>
      loss.Shorter? && loss.expected == stored.checkpoint.position && loss.found == verdict.positions.tail
  }

  /** Every verification reports the loss, or a broken chain. */
  lemma LossIsReported(d: Disk, stored: CheckpointRead, history: seq<Digest>)
    requires Lost(d, stored, history)
    ensures Reported(stored, VerifyAt(d, HeadOf(stored)))
  {
    hide DiskAt, View, Verify, AllLines, Chained, Entries, FilesPresent, FirstAt, IsRow;
    var head := stored.checkpoint.headDigest;
    if FilesPresent(d) && Verify(AllLines(d), Some(head)).Intact? {
      WalkProbes(d, history, head);
      RowsPastPruned(d, history);
    }
  }

  /** The files' link is not the lost row. */
  lemma LinkIsNotLost(d: Disk, stored: CheckpointRead, history: seq<Digest>)
    requires Lost(d, stored, history)
    ensures View(AllLines(d)).Some? && DiskLink(d) != stored.checkpoint.headDigest
  {
    LinkIsHead(d, history);
  }

  /** A tail check settles for a mode that does not advance. */
  lemma SettlesForLoss(d: Disk, stored: CheckpointRead, read: CheckpointRead, history: seq<Digest>, walkable: bool)
    requires Lost(d, stored, history) && (read == stored || read.Unreadable?)
    ensures !Advances(SettleMode(read, FactsOf(d, read, Some(DiskLink(d)), walkable)).mode)
  {
    LinkIsNotLost(d, stored, history);
    LossIsReported(d, stored, history);
    hide DiskAt, DiskLink, View, Verify, AllLines, FilesPresent;
  }

  lemma LossSettle(st: State, history: seq<Digest>, io: Io)
    requires Lost(st.disk, st.stored, history) && Links(st)
    ensures var done := SettleCheckpoint(st, io);
            && done.ok
            && done.state == st.(writer := done.state.writer)
            && SameButCheckpoint(st.writer, done.state.writer)
            && done.state.writer.landedDigest == st.writer.landedDigest
            && !Moves(done.state.writer)
  {
    hide DiskAt, DiskLink, View, Verify, AllLines, FilesPresent, SettleMode, SettleWalk, Unended;
    if st.writer.hasPort {
      var (read, known) := ReadPort(st, io.checkpointReachable);
      SettlesForLoss(st.disk, st.stored, read, history, io.walkable);
    }
  }

  lemma LossRepair(d: Disk, stored: CheckpointRead, history: seq<Digest>, io: Io)
    requires Lost(d, stored, history) && NewRows(stored, io) && Linked(history)
    ensures var r, history' := RepairTail(d, io), RepairedHistory(d, history, io);
            && Lost(r.disk, stored, history') && Adds(history, history', io)
            && Onward(d, r.disk, io.damage.TornAt?)
            && (r.ok ==> r.landed == Some(DiskLink(r.disk)) && Seen(r.disk).pending.None? && !Unended(r.disk))
  {
    hide DiskAt, DiskLink, View, AllLines, FilesPresent, RepairTail, Unended, LastItem, Entries, Onward, Linked, IsRow;
    RepairKeeps(d, history, io);
    EndOfFiles(d, history);
    var last := LastItem(Entries(d));
    if last.Some? && last.value.Torn? {
      GrownAdds(history, DamageRow(io.ids, last.value, ChosenLink(d)), io.damage, io);
    }
    StillLost(stored.checkpoint.headDigest, history, RepairedHistory(d, history, io), io);
  }

  /** After a tail check the writer links to the files' last row and will not advance the checkpoint. */
  lemma LossCheckTail(st: State, history: seq<Digest>, io: Io) returns (history': seq<Digest>)
    requires Lost(st.disk, st.stored, history) && NewRows(st.stored, io) && Linked(history)
    ensures var done := CheckTail(st, io);
            && Lost(done.state.disk, st.stored, history') && done.state.stored == st.stored
            && Adds(history, history', io)
            && Onward(st.disk, done.state.disk, io.damage.TornAt?)
            && SameButCheckpoint(st.writer.(tailCheckOwed := done.state.writer.tailCheckOwed), done.state.writer)
            && (if done.ok then Links(done.state) && !Moves(done.state.writer) && !done.state.writer.tailCheckOwed
                else done.state.writer == st.writer)
  {
    hide Lost, DiskLink, View, AllLines, SettleCheckpoint, RepairTail, Unended, FilesPresent, Onward, Adds;
    LossRepair(st.disk, st.stored, history, io);
    history' := RepairedHistory(st.disk, history, io);
    var r := RepairTail(st.disk, io);
    if r.ok {
      LossSettle(st.(disk := r.disk, writer := st.writer.(landedDigest := r.landed)), history', io);
    }
  }

  /** As `Lost`, but retention may have caught up with the lost row. */
  ghost predicate LostOrPruned(d: Disk, stored: CheckpointRead, history: seq<Digest>) {
    DiskAt(d, history) && Gone(stored, history)
  }

  lemma LossLandRow(st: State, history: seq<Digest>, fence: nat, body: Body, io: Io) returns (history': seq<Digest>)
    requires LostOrPruned(st.disk, st.stored, history) && NewRows(st.stored, io) && OrderlyRetention(st.disk, io)
    requires body.id in {io.ids, io.ids + 1, io.ids + 2} && Linked(history)
    requires Links(st) && !Moves(st.writer)
    ensures CutsEnded(st.disk)
    ensures var done := LandRow(st, fence, body, io);
            && LostOrPruned(done.state.disk, st.stored, history') && done.state.stored == st.stored
            && Adds(history, history', io)
            && Onward(st.disk, done.state.disk, false)
            && (if done.ok then Links(done.state) && !Moves(done.state.writer)
                                && done.state.writer.writtenUnderFence == Some(fence)
                                && done.state.writer.tailCheckOwed == st.writer.tailCheckOwed
                else done.state.writer == st.writer.(tailCheckOwed := true))
  {
    hide DiskAt, DiskLink, View, AllLines, Unended, FilesPresent, DoWrite, OrderlyRetention, CutsEnded, Onward, Linked,
         IsRow;
    var row := Row(body, st.writer.landedDigest.GetOr(Genesis));
    WriteKeeps(st.disk, history, row, io);
    NoBreakNoted(st.disk, io);
    LinkIsHead(st.disk, history);
    GrownAdds(history, row, io.row, io);
    history' := Grown(history, row, io.row);
    StillLost(st.stored.checkpoint.headDigest, history, history', io);
  }

  /** What a step leaves of a writer: one that owes no tail check links to the files and will not advance. */
  ghost predicate Quiet(st: State, fence: nat)
    requires View(AllLines(st.disk)).Some?
  {
    !Owes(st.writer, fence) ==> Links(st) && !Moves(st.writer)
  }

  /** The writer would store nothing, or what it would have before. */
  predicate HoldsAsBefore(w: Writer, w': Writer) {
    Moves(w') ==> w'.landedDigest == w.landedDigest && w'.cp == w.cp && w'.hasPort == w.hasPort
  }

  lemma KnownAsBefore(w: Writer, w': Writer, history: seq<Digest>)
    requires Known(w, history) && HoldsAsBefore(w, w')
    ensures Known(w', history)
  {
  }

  /** What a step promises of the files, the stored checkpoint and the writer. */
  ghost predicate LossKept(st: State, st': State, history': seq<Digest>, fence: nat, torn: bool) {
    && LostOrPruned(st'.disk, st.stored, history')
    && HoldsAsBefore(st.writer, st'.writer)
    && st'.stored == st.stored
    && Onward(st.disk, st'.disk, torn)
    && Quiet(st', fence)
    && st'.writer.writtenUnderFence in {st.writer.writtenUnderFence, Some(fence)}
  }

  lemma LossWriteRow(st: State, history: seq<Digest>, fence: nat, body: Body, io: Io) returns (history': seq<Digest>)
    requires Lost(st.disk, st.stored, history) && NewRows(st.stored, io) && OrderlyRetention(st.disk, io)
    requires body.id in {io.ids, io.ids + 1, io.ids + 2}
    requires Quiet(st, fence) && Linked(history)
    ensures Ready(st, fence)
    ensures Adds(history, history', io)
    ensures var done := WriteRow(st, fence, body, io);
            && LossKept(st, done.state, history', fence, io.damage.TornAt?)
            && (done.ok ==> !Moves(done.state.writer))
            && (!done.ok ==> done.state.writer.tailCheckOwed)
  {
    hide DiskAt, DiskLink, View, AllLines, CheckTail, Unended, FilesPresent, LandRow, OrderlyRetention, CutsEnded,
         Linked, Adds, LostRow;
    FilesAreLinked(st, history, fence);
    DiskIsReady(st.disk, history);
    if Owes(st.writer, fence) {
      history' := LossCheckTail(OweTailCheck(st), history, io);
      AddsIsLinked(history, history', io);
      SameArchives(st, io);
      var checked := CheckTail(OweTailCheck(st), io);
      if checked.ok {
        var between := history';
        history' := LossLandRow(checked.state, between, fence, body, io);
        AddsTwice(history, between, history', io);
        OnwardTrans(st.disk, checked.state.disk, LandRow(checked.state, fence, body, io).state.disk, io.damage.TornAt?);
      }
    } else {
      history' := LossLandRow(st, history, fence, body, io);
    }
  }

  lemma AddsIsLinked(history: seq<Digest>, history': seq<Digest>, io: Io)
    requires Adds(history, history', io)
    ensures Linked(history')
  {
  }

  lemma AddsNothing(history: seq<Digest>, io: Io)
    requires Linked(history)
    ensures Adds(history, history, io)
  {
  }

  lemma FilesAreLinked(st: State, history: seq<Digest>, fence: nat)
    requires DiskAt(st.disk, history)
    requires !Owes(st.writer, fence) ==> Links(st)
    ensures Ready(st, fence)
  {
  }

  lemma LossNote(st: State, history: seq<Digest>, fence: nat, brokenKnown: bool, io: Io) returns (history': seq<Digest>)
    requires Lost(st.disk, st.stored, history) && NewRows(st.stored, io) && OrderlyRetention(st.disk, io)
    requires Quiet(st, fence) && Linked(history)
    ensures Ready(st, fence)
    ensures Adds(history, history', io)
    ensures LossKept(st, NoteVerified(st, Some(fence), brokenKnown, io).state, history', fence, io.damage.TornAt?)
  {
    hide DiskAt, DiskLink, View, AllLines, Unended, FilesPresent, WriteRow, OrderlyRetention, Verify, VerifyAt,
         ClassifyLoss, Linked, Adds, LostRow;
    AddsNothing(history, io);
    FilesAreLinked(st, history, fence);
    DiskIsReady(st.disk, history);
    history' := history;
    if brokenKnown {
      var (read, known) := ReadPort(st, io.checkpointReachable);
      var walk := if io.walkable then VerifyAt(st.disk, HeadOf(read)) else None;
      if walk.Some? && walk.value.Intact? && !ReportsLoss(ClassifyLoss(read, walk)) {
        var body := Integrity(io.ids + 2, ChainVerified(walk.value.entries, walk.value.cuts));
        history' := LossWriteRow(known, history, fence, body, io);
      }
    }
  }

  /** Whether the advance that follows a note stores something is told before the note. */
  lemma NoteStoresBefore(st: State, history: seq<Digest>, fence: nat, brokenKnown: bool, io: Io)
    requires Lost(st.disk, st.stored, history) && Ready(st, fence) && !NoteStores(st, Some(fence), brokenKnown, io)
    ensures var w := NoteVerified(st, Some(fence), brokenKnown, io).state.writer; !Moves(w) || w.portBlocked
  {
    hide Lost, View, AllLines, FilesPresent, WriteRow, Verify, VerifyAt, ClassifyLoss, ReportsLoss, Ready, Reported;
    if brokenKnown {
      var (read, known) := ReadPort(st, io.checkpointReachable);
      var walk := if io.walkable then VerifyAt(st.disk, HeadOf(read)) else None;
      if walk.Some? && walk.value.Intact? && !ReportsLoss(ClassifyLoss(read, walk)) {
        var body := Integrity(io.ids + 2, ChainVerified(walk.value.entries, walk.value.cuts));
        ReadyKeeps(st, known, fence);
        if st.writer.hasPort {
          IntactMeansUnread(st, read, walk, history);
          BlockStays(known, fence, body, io);
        } else {
          NoPortStays(known, fence, body, io);
        }
      }
    }
  }

  /** A note whose advance will store something has written nothing: the writer holds what it held. */
  lemma StoringNoteWritesNothing(st: State, history: seq<Digest>, fence: Option<nat>, brokenKnown: bool, io: Io)
    requires fence.Some? ==> Lost(st.disk, st.stored, history) && Ready(st, fence.value)
    requires NoteStores(st, fence, brokenKnown, io)
    ensures var st' := NoteVerified(st, fence, brokenKnown, io).state;
            st' == st.(writer := st.writer.(portBlocked := st'.writer.portBlocked))
  {
    hide Lost, View, AllLines, FilesPresent, WriteRow, Verify, VerifyAt, ClassifyLoss, ReportsLoss, Ready, Reported;
    if fence.Some? && brokenKnown {
      var (read, known) := ReadPort(st, io.checkpointReachable);
      var walk := if io.walkable then VerifyAt(st.disk, HeadOf(read)) else None;
      if walk.Some? && walk.value.Intact? && !ReportsLoss(ClassifyLoss(read, walk)) {
        IntactMeansUnread(st, read, walk, history);
      }
    }
  }

  lemma ReadyKeeps(st: State, st': State, fence: nat)
    requires Ready(st, fence) && st'.disk == st.disk && st'.writer == st.writer.(portBlocked := st'.writer.portBlocked)
    ensures Ready(st', fence)
  {
  }

  /** Only a checkpoint that could not be read lets a verification pass. */
  lemma IntactMeansUnread(st: State, read: CheckpointRead, walk: Option<Verdict>, history: seq<Digest>)
    requires Lost(st.disk, st.stored, history)
    requires walk == VerifyAt(st.disk, HeadOf(read)) && walk.Some? && walk.value.Intact?
             && !ReportsLoss(ClassifyLoss(read, walk))
    ensures read != st.stored
  {
    LossIsReported(st.disk, st.stored, history);
    hide Lost, VerifyAt;
  }

  /** An unreachable checkpoint stays remembered as unreadable through a row step. */
  lemma BlockStays(st: State, fence: nat, body: Body, io: Io)
    requires Ready(st, fence) && st.writer.hasPort && st.writer.portBlocked && !io.checkpointReachable
    ensures WriteRow(st, fence, body, io).state.writer.portBlocked
  {
    hide DoWrite, RotateBreaks, RepairTail, SettleMode, SettleWalk, CutsEnded, Unended;
  }

  lemma NoPortStays(st: State, fence: nat, body: Body, io: Io)
    requires Ready(st, fence) && !st.writer.hasPort
    ensures !WriteRow(st, fence, body, io).state.writer.hasPort
  {
    hide DoWrite, RotateBreaks, RepairTail, SettleMode, SettleWalk, CutsEnded, Unended;
  }

  lemma LossReanchorOnto(st: State, history: seq<Digest>, fence: nat, newPosition: int, force: bool, io: Io)
      returns (history': seq<Digest>)
    requires Lost(st.disk, st.stored, history) && NewRows(st.stored, io) && OrderlyRetention(st.disk, io)
    requires Seen(st.disk).pending.None? && Linked(history)
    ensures CutsEnded(st.disk)
    ensures Adds(history, history', io)
    ensures var done := ReanchorOnto(st, fence, newPosition, force, io);
            !done.result.Reanchored? ==> LossKept(st, done.state, history', fence, false)
  {
    hide DiskAt, DiskLink, View, AllLines, Unended, FilesPresent, ReanchorRow, ReanchorEnd, OrderlyRetention,
         CutsEnded, Onward, Linked, IsRow;
    var row := ReanchorRowKeeps(st, history, fence, newPosition, io);
    history' := history;
    AddsNothing(history, io);
    if ReanchorEnd(st.disk, io).ok {
      GrownAdds(history, row, io.row, io);
      history' := Grown(history, row, io.row);
    }
    StillLost(st.stored.checkpoint.headDigest, history, history', io);
  }

  lemma LossReanchor(st: State, history: seq<Digest>, fence: nat, force: bool, io: Io) returns (history': seq<Digest>)
    requires Lost(st.disk, st.stored, history) && NewRows(st.stored, io) && OrderlyRetention(st.disk, io)
    requires Quiet(st, fence) && Linked(history)
    ensures CutsEnded(st.disk)
    ensures Adds(history, history', io)
    ensures var done := ReanchorCheckpoint(st, Some(fence), force, io);
            !done.result.Reanchored? ==> LossKept(st, done.state, history', fence, false)
  {
    hide DiskAt, DiskLink, View, AllLines, Unended, FilesPresent, Verify, ReanchorOnto, OrderlyRetention, CutsEnded,
         Onward, Linked, Adds, LostRow;
    history' := history;
    AddsNothing(history, io);
    DiskIsReady(st.disk, history);
    var walk := VerifyAt(st.disk, None);
    if st.writer.hasPort && io.walkable && walk.Some? && walk.value.Intact? {
      IntactWalk(st.disk, history);
      var (read, known) := ReadPort(st, io.checkpointReachable);
      if !read.Unreadable? || (!read.reason.Unreachable? && force) {
        history' := LossReanchorOnto(known, history, fence, walk.value.positions.tail + 1, force, io);
      }
    }
  }

  lemma LossMaintenance(st: State, history: seq<Digest>, fence: Option<nat>, io: Io)
    requires Lost(st.disk, st.stored, history) && OrderlyRetention(st.disk, io)
    ensures CutsEnded(st.disk)
    ensures var st' := RunMaintenance(st, fence, io);
            && LostOrPruned(st'.disk, st.stored, history)
            && Onward(st.disk, st'.disk, false)
            && (Links(st) ==> Links(st'))
            && st' == st.(disk := st'.disk, writer := st.writer.(maintenanceRan := st'.writer.maintenanceRan))
  {
    hide DiskAt, DiskLink, View, AllLines, Unended, FilesPresent, PruneArchives, CutsEnded, Onward, OrderlyRetention,
         Linked, Gone;
    NoBreakNoted(st.disk, io);
    PruneOnward(st.disk, history, io);
    DiskIsReady(st.disk, history);
  }

  // ---------------------------------------------------------------------------
  // All the windows.
  // ---------------------------------------------------------------------------

  /** With `still` no advance is about to move the checkpoint; without, one may move it to another lost row. */
  ghost predicate LossWindow(w: World, i: nat, history: seq<Digest>, still: bool)
    requires i < |w.windows| && View(AllLines(w.disk)).Some?
  {
    var writer := w.windows[i].writer;
    && Known(writer, history)
    && (writer.writtenUnderFence.Some? ==> writer.writtenUnderFence.value <= w.fence)
    && (w.owner.Some? && w.owner != Some(i) ==> writer.writtenUnderFence != Some(w.fence))
    && (w.owner == Some(i) ==> Quiet(StateOf(w, i), w.fence))
    && (w.windows[i].advancing && Moves(writer) && !writer.portBlocked ==>
          !still && LostRow(writer.landedDigest.value, history))
  }

  /** The loss is still there to be found, and no window is about to write over it. */
  ghost predicate LossInv(w: World, history: seq<Digest>, still: bool) {
    && LostOrPruned(w.disk, w.stored, history)
    && Linked(history)
    && forall i :: 0 <= i < |w.windows| ==> LossWindow(w, i, history, still)
  }

  /** Retention has not reached the lost row. */
  ghost predicate Unpruned(w: World) {
    w.stored.Active? && View(AllLines(w.disk)).Some? ==> Seen(w.disk).tally.prunedThrough < w.stored.checkpoint.position
  }

  /** The files hold `head` at `position`, or have pruned as many rows: a verification would not miss it. */
  ghost predicate Held(d: Disk, head: Digest, position: int) {
    && View(AllLines(d)).Some?
    && var pruned := Seen(d).tally.prunedThrough;
       position <= pruned || FirstAt(Chained(Entries(d)), head) == Some(position - pruned)
  }

  /** The rows of a step are none that the checkpoint or a window holds. */
  predicate NewIds(w: World, io: Io) {
    && NewRows(w.stored, io)
    && forall i :: 0 <= i < |w.windows| && w.windows[i].writer.landedDigest.Some? ==>
                     NewRow(w.windows[i].writer.landedDigest.value, io)
  }

  /** The step is none of those that end a loss: a retirement, a re-anchoring, or a verification noted by a
      writer that would store a row the files hold.  With `still`, by one that would store any.  Its rows
      are new. */
  ghost predicate LeavesLoss(w: World, s: Step, still: bool)
    requires Can(w, s)
  {
    match s
    case Append(i, io) => NewIds(w, io)
    case Note(i, brokenKnown, io) =>
      var writer := w.windows[i].writer;
      && NewIds(w, io)
      && (NoteStores(StateOf(w, i), FenceOf(w, i), brokenKnown, io) ==>
            !still && !Held(w.disk, writer.landedDigest.value, writer.cp.value.position))
    case Retire(i, io) => !RetireCheckpoint(StateOf(w, i), FenceOf(w, i), io).result.RetiredNow?
    case Reanchor(i, force, io) =>
      NewIds(w, io) && !ReanchorCheckpoint(StateOf(w, i), FenceOf(w, i), force, io).result.Reanchored?
    case _ => true
  }

  /** In an intact log, held is what a verification finds. */
  lemma HeldIsReached(d: Disk, history: seq<Digest>, head: Digest, position: int)
    requires DiskAt(d, history) && Verify(AllLines(d), Some(head)).Intact?
    ensures Reaches(Verify(AllLines(d), Some(head)).positions, position) <==> Held(d, head, position)
  {
    WalkProbes(d, history, head);
    hide DiskAt, View, Verify, AllLines, Chained, Entries, FirstAt;
  }

  /** What a writer would store and the files do not hold is lost. */
  lemma NotHeldIsLost(d: Disk, history: seq<Digest>, w: Writer)
    requires DiskAt(d, history) && Linked(history) && Known(w, history) && Moves(w)
    requires !Held(d, w.landedDigest.value, w.cp.value.position)
    ensures LostRow(w.landedDigest.value, history)
  {
    hide DiskAt, View, AllLines, Chained, Entries, FirstAt, Linked, IsRow;
    RowsPastPruned(d, history);
    var pruned, p := Seen(d).tally.prunedThrough, w.cp.value.position;
    if HeadSound(w.landedDigest.value, p, history) && p > pruned {
      RowIsFound(history, pruned, p);
    }
  }

  /** What the windows hold is in the one history what it was in the other. */
  ghost predicate AllCarry(w: World, history: seq<Digest>, history': seq<Digest>) {
    forall i :: 0 <= i < |w.windows| ==>
      var writer := w.windows[i].writer;
      && (Known(writer, history) ==> Known(writer, history'))
      && (Moves(writer) && LostRow(writer.landedDigest.value, history) ==> LostRow(writer.landedDigest.value, history'))
  }

  lemma StepCarries(w: World, history: seq<Digest>, history': seq<Digest>, io: Io)
    requires Adds(history, history', io) && NewIds(w, io)
    ensures AllCarry(w, history, history')
  {
    hide Known, LostRow, Adds, NewRow;
    forall i | 0 <= i < |w.windows| && Known(w.windows[i].writer, history)
      ensures Known(w.windows[i].writer, history')
    {
      StillKnown(w.windows[i].writer, history, history', io);
    }
    forall i | 0 <= i < |w.windows| && Moves(w.windows[i].writer)
        && LostRow(w.windows[i].writer.landedDigest.value, history)
      ensures LostRow(w.windows[i].writer.landedDigest.value, history')
    {
      StillLost(w.windows[i].writer.landedDigest.value, history, history', io);
    }
  }

  lemma LossOthers(w: World, i: nat, st: State, advancing: bool, history: seq<Digest>, history': seq<Digest>,
      still: bool)
    requires i < |w.windows| && View(AllLines(st.disk)).Some?
    requires LossWindow(Put(w, i, st, advancing), i, history', still)
    requires LossInv(w, history, still)
    requires LostOrPruned(st.disk, st.stored, history') && Linked(history')
    requires w.owner == Some(i) || st.disk == w.disk
    requires AllCarry(w, history, history')
    ensures LossInv(Put(w, i, st, advancing), history', still)
  {
    hide DiskAt, View, DiskLink, Unended, Linked, Known, LostRow;
    DiskIsReady(w.disk, history);
    DiskIsReady(st.disk, history');
    var w' := Put(w, i, st, advancing);
    forall k | 0 <= k < |w'.windows| ensures LossWindow(w', k, history', still) {
      assert LossWindow(w, k, history, still);
      if k != i {
        assert w'.windows[k] == w.windows[k];
      }
    }
  }

  lemma LossStepFinds(w: World, i: nat, history: seq<Digest>, still: bool)
    requires LossInv(w, history, still) && i < |w.windows|
    ensures View(AllLines(w.disk)).Some? && LossWindow(w, i, history, still)
    ensures w.stored.Active? && CutsEnded(w.disk) && Linked(history)
    ensures Unpruned(w) ==> Lost(w.disk, w.stored, history)
    ensures w.owner == Some(i) ==> Ready(StateOf(w, i), w.fence)
  {
    hide DiskAt, View, DiskLink, CutsEnded, Unended, Linked, Known;
    DiskIsReady(w.disk, history);
    assert LossWindow(w, i, history, still);
  }

  lemma LossAppendStep(w: World, history: seq<Digest>, i: nat, io: Io, still: bool) returns (history': seq<Digest>)
    requires LossInv(w, history, still) && Unpruned(w) && Can(w, Append(i, io)) && LeavesLoss(w, Append(i, io), still)
    ensures var w' := Next(w, Append(i, io));
            LossInv(w', history', still) && w'.stored == w.stored && Onward(w.disk, w'.disk, io.damage.TornAt?)
  {
    hide DiskAt, View, DiskLink, AllLines, WriteRow, OrderlyRetention, FilesPresent, Linked, Adds, Known, NewRow,
         LostRow;
    LossStepFinds(w, i, history, still);
    DiskIsReady(w.disk, history);
    history' := history;
    AddsNothing(history, io);
    if w.owner == Some(i) {
      history' := LossWriteRow(StateOf(w, i), history, w.fence, Event(io.ids + 2), io);
      AddsIsLinked(history, history', io);
    }
    var done := WriteStep(StateOf(w, i), FenceOf(w, i), io);
    DiskIsReady(done.state.disk, history');
    StepCarries(w, history, history', io);
    KnownAsBefore(w.windows[i].writer, done.state.writer, history');
    LossOthers(w, i, done.state, done.ok, history, history', still);
  }

  lemma LossNoteStep(w: World, history: seq<Digest>, i: nat, brokenKnown: bool, io: Io, still: bool)
      returns (history': seq<Digest>)
    requires LossInv(w, history, still) && Unpruned(w)
    requires Can(w, Note(i, brokenKnown, io)) && LeavesLoss(w, Note(i, brokenKnown, io), still)
    ensures var w' := Next(w, Note(i, brokenKnown, io));
            LossInv(w', history', still) && w'.stored == w.stored && Onward(w.disk, w'.disk, io.damage.TornAt?)
  {
    hide DiskAt, View, DiskLink, AllLines, WriteRow, OrderlyRetention, FilesPresent, Verify, ClassifyLoss, Linked, Adds,
         Known, NewRow, LostRow, Held;
    LossStepFinds(w, i, history, still);
    DiskIsReady(w.disk, history);
    history' := history;
    AddsNothing(history, io);
    if w.owner == Some(i) {
      history' := LossNote(StateOf(w, i), history, w.fence, brokenKnown, io);
      AddsIsLinked(history, history', io);
    }
    var done := NoteVerified(StateOf(w, i), FenceOf(w, i), brokenKnown, io);
    DiskIsReady(done.state.disk, history');
    StepCarries(w, history, history', io);
    KnownAsBefore(w.windows[i].writer, done.state.writer, history');
    NotePending(w, history, i, brokenKnown, io, still, history');
    LossOthers(w, i, done.state, true, history, history', still);
  }

  /** What a noted verification leaves pending stores nothing, or a lost row. */
  lemma NotePending(w: World, history: seq<Digest>, i: nat, brokenKnown: bool, io: Io, still: bool,
      history': seq<Digest>)
    requires LossInv(w, history, still) && Unpruned(w) && Adds(history, history', io)
    requires Can(w, Note(i, brokenKnown, io)) && LeavesLoss(w, Note(i, brokenKnown, io), still)
    ensures var writer := NoteVerified(StateOf(w, i), FenceOf(w, i), brokenKnown, io).state.writer;
            Moves(writer) && !writer.portBlocked ==> !still && LostRow(writer.landedDigest.value, history')
  {
    hide DiskAt, View, AllLines, WriteRow, OrderlyRetention, FilesPresent, Verify, ClassifyLoss, Linked, Adds, Known,
         NewRow, LostRow, Held, NoteVerified, Ready;
    LossStepFinds(w, i, history, still);
    var st := StateOf(w, i);
    if NoteStores(st, FenceOf(w, i), brokenKnown, io) {
      NotHeldIsLost(w.disk, history, st.writer);
      StillLost(st.writer.landedDigest.value, history, history', io);
      StoringNoteWritesNothing(st, history, FenceOf(w, i), brokenKnown, io);
    } else if w.owner == Some(i) {
      NoteStoresBefore(st, history, w.fence, brokenKnown, io);
    } else {
      NoFenceNoNote(st, brokenKnown, io);
    }
  }

  lemma NoFenceNoNote(st: State, brokenKnown: bool, io: Io)
    ensures NoteVerified(st, None, brokenKnown, io).state == st
  {
  }

  lemma LossReanchorStep(w: World, history: seq<Digest>, i: nat, force: bool, io: Io, still: bool)
      returns (history': seq<Digest>)
    requires LossInv(w, history, still) && Unpruned(w)
    requires Can(w, Reanchor(i, force, io)) && LeavesLoss(w, Reanchor(i, force, io), still)
    ensures var w' := Next(w, Reanchor(i, force, io));
            LossInv(w', history', still) && w'.stored == w.stored && Onward(w.disk, w'.disk, false)
  {
    hide DiskAt, View, DiskLink, AllLines, ReanchorCheckpoint, OrderlyRetention, FilesPresent, Linked, Adds, Known,
         NewRow, LostRow;
    LossStepFinds(w, i, history, still);
    DiskIsReady(w.disk, history);
    history' := history;
    AddsNothing(history, io);
    if w.owner == Some(i) {
      history' := LossReanchor(StateOf(w, i), history, w.fence, force, io);
      AddsIsLinked(history, history', io);
    } else {
      NoFenceNoReanchor(StateOf(w, i), force, io);
    }
    var done := ReanchorCheckpoint(StateOf(w, i), FenceOf(w, i), force, io);
    DiskIsReady(done.state.disk, history');
    StepCarries(w, history, history', io);
    KnownAsBefore(w.windows[i].writer, done.state.writer, history');
    LossOthers(w, i, done.state, false, history, history', still);
  }

  /** An advance may move the checkpoint, and then to another lost row. */
  lemma LossAdvanceStep(w: World, history: seq<Digest>, s: Step, still: bool)
    requires LossInv(w, history, still) && Can(w, s) && s.Advance?
    ensures var w' := Next(w, s);
            LossInv(w', history, still) && (still ==> w'.stored == w.stored) && Onward(w.disk, w'.disk, false)
  {
    hide DiskAt, View, DiskLink, AllLines, OrderlyRetention, FilesPresent, Unended, Linked;
    var i := s.window;
    LossStepFinds(w, i, history, still);
    DiskIsReady(w.disk, history);
    var w' := Next(w, s);
    LossOthers(w, i, StateOf(w', i), false, history, history, still);
  }

  lemma LossRetireStep(w: World, history: seq<Digest>, s: Step, still: bool)
    requires LossInv(w, history, still) && Can(w, s) && LeavesLoss(w, s, still) && s.Retire?
    ensures var w' := Next(w, s);
            LossInv(w', history, still) && w'.stored == w.stored && Onward(w.disk, w'.disk, false)
  {
    hide DiskAt, View, DiskLink, AllLines, OrderlyRetention, FilesPresent, Unended, Linked;
    var i := s.window;
    LossStepFinds(w, i, history, still);
    DiskIsReady(w.disk, history);
    var w' := Next(w, s);
    LossOthers(w, i, StateOf(w', i), false, history, history, still);
  }

  lemma LossMaintainStep(w: World, history: seq<Digest>, s: Step, still: bool)
    requires LossInv(w, history, still) && Unpruned(w) && Can(w, s) && s.Maintain?
    ensures var w' := Next(w, s);
            LossInv(w', history, still) && w'.stored == w.stored && Onward(w.disk, w'.disk, false)
  {
    hide DiskAt, View, DiskLink, AllLines, OrderlyRetention, FilesPresent, Unended, PruneArchives, Linked;
    var i := s.window;
    LossStepFinds(w, i, history, still);
    NoBreakNoted(w.disk, s.io);
    LossMaintenance(StateOf(w, i), history, FenceOf(w, i), s.io);
    var w' := Next(w, s);
    DiskIsReady(w'.disk, history);
    LossOthers(w, i, StateOf(w', i), false, history, history, still);
  }

  lemma LossWindowStep(w: World, history: seq<Digest>, s: Step, still: bool)
    requires LossInv(w, history, still) && Can(w, s)
    requires s.Open? || s.Restart? || s.Acquire? || s.Release? || s.NoteBreak?
    ensures var w' := Next(w, s);
            LossInv(w', history, still) && w'.stored == w.stored && Onward(w.disk, w'.disk, false)
  {
    hide DiskAt, DiskLink, View, AllLines, FilesPresent, Unended, Linked;
    DiskIsReady(w.disk, history);
    var w' := Next(w, s);
    forall k | 0 <= k < |w'.windows| ensures LossWindow(w', k, history, still) {
      if k < |w.windows| {
        assert LossWindow(w, k, history, still);
      }
    }
  }

  lemma LossStep(w: World, history: seq<Digest>, s: Step, still: bool) returns (history': seq<Digest>)
    requires LossInv(w, history, still) && Unpruned(w) && Can(w, s) && LeavesLoss(w, s, still)
    ensures LossInv(Next(w, s), history', still) && (still ==> Next(w, s).stored == w.stored)
            && Onward(w.disk, Next(w, s).disk, TearsDamageRow(s))
  {
    hide LossInv, Next, Onward, LeavesLoss, Can, Unpruned;
    history' := history;
    match s {
      case Append(i, io) => history' := LossAppendStep(w, history, i, io, still);
      case Note(i, brokenKnown, io) => history' := LossNoteStep(w, history, i, brokenKnown, io, still);
      case Reanchor(i, force, io) => history' := LossReanchorStep(w, history, i, force, io, still);
      case Advance(_, _, _) => LossAdvanceStep(w, history, s, still);
      case Maintain(_, _) => LossMaintainStep(w, history, s, still);
      case Retire(_, _) => LossRetireStep(w, history, s, still);
      case _ => LossWindowStep(w, history, s, still);
    }
  }

  /** A run that neither ends the loss nor prunes as far as the lost row. */
  ghost predicate LossLasts(w: World, steps: seq<Step>, still: bool)
    decreases |steps|
  {
    Unpruned(w) && (|steps| > 0
        ==> Can(w, steps[0]) && LeavesLoss(w, steps[0], still) && LossLasts(Next(w, steps[0]), steps[1..], still))
  }

  /** A loss stays found: every verification reports the loss, or a chain that is not intact, for as long as
      nobody retires or re-anchors the checkpoint, no noted verification stores a row the files hold, and
      retention has not pruned as many rows.  No append moves the checkpoint: with `still`, when no noted
      verification stores anything, it stays where it was. */
  lemma {:induction false} LossStaysFound(w: World, history: seq<Digest>, steps: seq<Step>, still: bool)
      returns (history': seq<Digest>)
    requires LossInv(w, history, still) && LossLasts(w, steps, still)
    ensures Goes(w, steps)
    ensures var w' := After(w, steps);
            && LossInv(w', history', still)
            && (still ==> w'.stored == w.stored)
            && w'.stored.Active?
            && Reported(w'.stored, VerifyAt(w'.disk, HeadOf(w'.stored)))
    decreases |steps|
  {
    hide DiskAt, View, Next, LossWindow, Can, LeavesLoss, Unpruned, Reported, Verify, VerifyAt, Onward, Linked, LostRow;
    history' := history;
    if |steps| == 0 {
      LossIsThere(w, history, still);
    } else {
      history' := LossStep(w, history, steps[0], still);
      history' := LossStaysFound(Next(w, steps[0]), history', steps[1..], still);
    }
  }

  lemma LossIsThere(w: World, history: seq<Digest>, still: bool)
    requires LossInv(w, history, still) && Unpruned(w)
    ensures w.stored.Active? && Reported(w.stored, VerifyAt(w.disk, HeadOf(w.stored)))
  {
    hide View, Reported, Verify, VerifyAt, WellKept, StandsAt, LossWindow, Linked;
    LossIsReported(w.disk, w.stored, history);
  }

  /** The next row of the owner is preceded by a tail check, and no pending advance will store anything, or
      without `still` anything but one of the rows `gone`. */
  predicate AllOwe(w: World, gone: seq<Digest>, still: bool) {
    forall i :: 0 <= i < |w.windows| ==>
      var writer := w.windows[i].writer;
      && (w.owner == Some(i) ==> Owes(writer, w.fence))
      && (w.windows[i].advancing && Moves(writer) && !writer.portBlocked ==>
            !still && writer.landedDigest.value in gone)
  }

  /** The start of such a run: at any point of a run without loss, the files are replaced by others that
      no longer hold the checkpointed row, before the tail check of the next row. */
  lemma LossBegins(w: World, history: seq<Digest>, d: Disk, left: seq<Digest>, gone: seq<Digest>, still: bool)
    requires Inv(w, history) && AllOwe(w, gone, still) && forall h :: h in gone ==> LostRow(h, left)
    requires DiskAt(d, left) && left <= history && Gone(w.stored, left)
    ensures LossInv(w.(disk := d), left, still)
  {
    hide DiskAt, View, DiskLink, AllLines, Unended, Gone, FilesPresent, Known, LostRow;
    DiskIsReady(w.disk, history);
    DiskIsReady(d, left);
    SoundIsKnown(NewWriter(false), history, left);
    var w' := w.(disk := d);
    forall i | 0 <= i < |w'.windows| ensures LossWindow(w', i, left, still) {
      assert WindowSound(w, i, history);
      SoundIsKnown(w.windows[i].writer, history, left);
    }
  }

  /** What a writer would store was a row at its position: it is still, or it is lost. */
  lemma SoundIsKnown(w: Writer, history: seq<Digest>, left: seq<Digest>)
    requires WriterSound(w, history) && Linked(history) && left <= history
    ensures Known(w, left) && Linked(left)
  {
    if Moves(w) && w.cp.value.position > |left| && w.landedDigest.value in left {
      var k :| 0 <= k < |left| && left[k] == w.landedDigest.value;
      LinkedAreDistinct(history, k, w.cp.value.position - 1);
    }
  }

  // ---------------------------------------------------------------------------
  // What a removal leaves.
  // ---------------------------------------------------------------------------

  lemma AllButLast(history: seq<Digest>, pruned: nat, rows: seq<Digest>, last: Digest)
    requires pruned <= |history| && history[pruned..] == rows + [last]
    ensures |rows| == |history| - 1 - pruned && history[..|history| - 1][pruned..] == rows
  {
    assert |history[pruned..]| == |rows| + 1;
    var n := |history| - 1;
    forall k | 0 <= k < |rows| ensures history[..n][pruned..][k] == rows[k] {
      assert history[pruned..][k] == (rows + [last])[k];
    }
  }

  /** Where the walk stood one line earlier. */
  lemma StandsOneBefore(b: Brief, b': Brief, line: Line, rows: seq<Digest>, history: seq<Digest>)
    requires PendingTorn(b) && !line.Cut? && StepBrief(b, line) == Some(b')
    requires StandsAt(b', rows + (if line.Row? then [Of(line)] else []), history)
    requires Linked(history) && |history| >= (if line.Row? then 2 else 1)
    ensures Linked(if line.Row? then history[..|history| - 1] else history)
    ensures StandsAt(b, rows, if line.Row? then history[..|history| - 1] else history)
  {
    if line.Row? {
      var n, pruned := |history| - 1, b.tally.prunedThrough;
      assert history[n - 1] == line.prev;
      AllButLast(history, pruned, rows, Of(line));
    }
  }

  /** The history without the rows of `removed`. */
  function Left(history: seq<Digest>, removed: seq<Line>): seq<Digest> {
    if |Chained(removed)| <= |history| then history[..|history| - |Chained(removed)|] else []
  }

  /** The walk of `base` and then `kept` stands at the end of `history`. */
  ghost predicate EndsAt(base: seq<Line>, kept: seq<Line>, history: seq<Digest>) {
    View(base + kept).Some? && StandsAt(View(base + kept).value, Chained(kept), history)
  }

  lemma EndedOneBefore(base: seq<Line>, kept: seq<Line>, line: Line, history: seq<Digest>)
    requires !line.Cut? && Linked(history) && |history| >= (if line.Row? then 2 else 1)
    requires EndsAt(base, kept + [line], history)
    ensures Linked(Left(history, [line])) && EndsAt(base, kept, Left(history, [line]))
    ensures Left(history, [line]) == if line.Row? then history[..|history| - 1] else history
  {
    hide View, Chained, Linked, StandsAt, StepBrief;
    assert base + (kept + [line]) == base + kept + [line];
    ViewSnoc(base + kept, line);
    ItemChained(kept, line);
    OneChained(line);
    assert history[..|history|] == history;
    StandsOneBefore(View(base + kept).value, View(base + kept + [line]).value, line, Chained(kept), history);
  }

  /** Where the walk stood before `removed`. */
  lemma {:induction false} EndedBefore(base: seq<Line>, kept: seq<Line>, removed: seq<Line>, history: seq<Digest>)
    requires NoCuts(removed) && Linked(history) && |Chained(removed)| < |history|
    requires EndsAt(base, kept + removed, history)
    ensures EndsAt(base, kept, Left(history, removed))
    decreases |removed|
  {
    hide EndsAt, Linked, Chained;
    if |removed| == 0 {
      assert kept + removed == kept && removed == [];
      NoneChained();
      assert history[..|history|] == history;
    } else {
      var n := |removed| - 1;
      var line, init := removed[n], removed[..n];
      assert removed == init + [line];
      ItemChained(init, line);
      assert kept + removed == kept + init + [line];
      EndedOneBefore(base, kept + init, line, history);
      var shorter := Left(history, [line]);
      EndedBefore(base, kept, init, shorter);
      assert Left(shorter, init) == Left(history, removed);
    }
  }

  lemma OneChained(line: Line)
    ensures Chained([line]) == if line.Row? then [Of(line)] else []
  {
    ItemChained([], line);
    assert [] + [line] == [line];
  }

  lemma NoneChained()
    ensures Chained([]) == []
  {
  }

  lemma ItemChained(lines: seq<Line>, line: Line)
    ensures Chained(lines + [line]) == Chained(lines) + if line.Row? then [Of(line)] else []
  {
    assert (lines + [line])[..|lines|] == lines;
  }

  /** The newest lines removed, the files else as they were. */
  ghost predicate EndRemoved(d: Disk, d': Disk, kept: seq<Line>, removed: seq<Line>) {
    && CutFile(d') == CutFile(d)
    && Entries(d) == kept + removed
    && (Entries(d') == kept || Entries(d') == kept + [Blank])
    && WellKept(d')
  }

  /** The rows of the files are the last of the history. */
  lemma RemovedFits(d: Disk, kept: seq<Line>, removed: seq<Line>, history: seq<Digest>)
    requires DiskAt(d, history) && Entries(d) == kept + removed
    ensures |Chained(removed)| <= |history|
    ensures |Chained(removed)| == |history| ==> Chained(kept) == [] && Seen(d).tally.prunedThrough == 0
  {
    hide DiskAt, View, Chained, AllLines;
    RowsPastPruned(d, history);
    ChainedConcat(kept, removed);
  }

  /** Without cut rows and without chained rows the walk has not begun. */
  lemma NotBegun(w: Walk, kept: seq<Line>)
    requires PendingIsTorn(w) && w.Walking? && !w.standing.begun && w.tally.entries == 0 && w.tally.foundAt.None?
    requires w.tally.prunedThrough == 0 && (w.standing.legacyTail.Some? ==> !IsRow(w.standing.legacyTail.value))
    requires NoCuts(kept) && Chained(kept) == [] && Fold(Tolerant, None, w, kept).Walking?
    ensures StandsAt(BriefOf(Fold(Tolerant, None, w, kept)).value, [], [])
  {
    RowsAreLinked(Tolerant, None, w, kept);
    LegacyTailFrom(w, kept);
    CountsRows(Tolerant, None, w, kept);
    hide Fold, Chained, IsRow;
  }

  /** When every chained row is removed and none was pruned, nothing is left of the history. */
  lemma NothingLeft(d: Disk, kept: seq<Line>, removed: seq<Line>, history: seq<Digest>)
    requires DiskAt(d, history) && Entries(d) == kept + removed && |Chained(removed)| == |history|
    ensures EndsAt(CutFile(d), kept, [])
  {
    hide StandsAt, IsRow, Chained, ChainWalk.Step;
    RemovedFits(d, kept, removed, history);
    var cuts := CutFile(d);
    var w := Fold(Tolerant, None, START, cuts);
    NoCutsOfEnd(d, kept, removed);
    assert AllLines(d) == cuts + (kept + removed) && AllLines(d) == cuts + kept + removed;
    WalkingBefore(Tolerant, None, START, cuts, kept + removed);
    FoldConcat(Tolerant, None, START, cuts, kept + removed);
    NoCutsNoPruned(None, w, kept + removed);
    CutLinkIsLink(Tolerant, None, cuts);
    WalkingBefore(Tolerant, None, START, cuts + kept, removed);
    FoldConcat(Tolerant, None, START, cuts, kept);
    NotBegun(w, kept);
  }

  /** Files whose end was removed hold the history up to there, and the removed rows are gone from it. */
  lemma RemovalShortens(d: Disk, d': Disk, kept: seq<Line>, removed: seq<Line>, history: seq<Digest>)
    requires DiskAt(d, history) && Linked(history) && EndRemoved(d, d', kept, removed)
    ensures DiskAt(d', Left(history, removed))
    ensures forall head :: head in Chained(removed) ==> head !in Left(history, removed)
  {
    hide View, Chained, StandsAt, Linked, CutsHonest, Fold, Seen, AllLines;
    RemovedFits(d, kept, removed, history);
    RemovedAreLast(d, kept, removed, history);
    NoCutsOfEnd(d, kept, removed);
    if |Chained(removed)| == |history| {
      NothingLeft(d, kept, removed, history);
      assert Left(history, removed) == [];
    } else {
      EndsAll(d, kept, removed, history);
      EndedBefore(CutFile(d), kept, removed, history);
    }
    RemovedView(d, d', kept, removed);
  }

  lemma EndsAll(d: Disk, kept: seq<Line>, removed: seq<Line>, history: seq<Digest>)
    requires DiskAt(d, history) && Entries(d) == kept + removed
    ensures EndsAt(CutFile(d), kept + removed, history)
  {
  }

  lemma RemovedView(d: Disk, d': Disk, kept: seq<Line>, removed: seq<Line>)
    requires EndRemoved(d, d', kept, removed)
    ensures View(AllLines(d')) == View(CutFile(d) + kept) && Chained(Entries(d')) == Chained(kept)
  {
    hide View, Chained, WellKept;
    BlankEndView(CutFile(d) + kept);
    BlankEndView(kept);
    assert CutFile(d) + (kept + [Blank]) == CutFile(d) + kept + [Blank];
  }

  lemma NoCutsOfEnd(d: Disk, kept: seq<Line>, removed: seq<Line>)
    requires CutsApart(d) && Entries(d) == kept + removed
    ensures NoCuts(removed) && NoCuts(kept)
  {
    forall k | 0 <= k < |kept| ensures !kept[k].Cut? {
      assert Entries(d)[k] == kept[k];
    }
    forall k | 0 <= k < |removed| ensures !removed[k].Cut? {
      assert Entries(d)[|kept| + k] == removed[k];
    }
  }

  lemma RemovedAreLast(d: Disk, kept: seq<Line>, removed: seq<Line>, history: seq<Digest>)
    requires DiskAt(d, history) && Linked(history) && Entries(d) == kept + removed && |Chained(removed)| <= |history|
    ensures forall head :: head in Chained(removed) ==> head !in Left(history, removed)
  {
    hide DiskAt, View, Chained, Linked, AllLines;
    RowsPastPruned(d, history);
    ChainedConcat(kept, removed);
    var rows, n, pruned := Chained(removed), |history| - |Chained(removed)|, Seen(d).tally.prunedThrough;
    forall i, j | 0 <= i < |rows| && 0 <= j < n ensures rows[i] != history[j] {
      assert rows[i] == history[pruned..][|Chained(kept)| + i];
      assert rows[i] == history[n + i];
      if history[n + i] == history[j] {
        LinkedAreDistinct(history, n + i, j);
      }
    }
  }

  // ---------------------------------------------------------------------------
  // From a run without loss, over a removal, to a run that keeps finding it.
  // ---------------------------------------------------------------------------

  lemma RunStays(w: World, steps: seq<Step>) returns (history: seq<Digest>)
    requires Initial(w) && Goes(w, steps)
    ensures Inv(After(w, steps), history)
  {
    hide Initial, Inv;
    InitialIsSound(w);
    history := RunKeeps(w, [], steps);
  }

  lemma RowsAreRows(lines: seq<Line>)
    ensures forall d :: d in Chained(lines) ==> IsRow(d)
    decreases |lines|
  {
  }

  /** The newest rows, the checkpointed one among them, are removed from outside while the owner owes a
      tail check and no pending advance would store a row that is kept: from then on every verification reports
      the loss, or a broken chain, and the checkpoint does not move unless a noted verification, or an advance
      pending then, moves it to another lost row. */
  lemma RemovedHeadStaysFound(w: World, steps: seq<Step>, d: Disk, kept: seq<Line>, removed: seq<Line>,
      later: seq<Step>, still: bool)
    requires Initial(w) && Goes(w, steps) && AllOwe(After(w, steps), Chained(removed), still)
    requires var v := After(w, steps);
             && EndRemoved(v.disk, d, kept, removed)
             && v.stored.Active? && v.stored.checkpoint.headDigest in Chained(removed)
             && LossLasts(v.(disk := d), later, still)
    ensures var v := After(w, steps).(disk := d);
            && Goes(v, later)
            && var v' := After(v, later);
               && (still ==> v'.stored == v.stored)
               && v'.stored.Active? && Reported(v'.stored, VerifyAt(v'.disk, HeadOf(v'.stored)))
  {
    hide Initial, View, DiskAt, Chained, AllOwe, LossLasts, Linked, EndRemoved, Next, Reported, LossInv, WindowSound,
         Verify, VerifyAt;
    var history := RunStays(w, steps);
    var v := After(w, steps);
    RemovalShortens(v.disk, d, kept, removed, history);
    RowsAreRows(removed);
    LossBegins(v, history, d, Left(history, removed), Chained(removed), still);
    var left := LossStaysFound(v.(disk := d), Left(history, removed), later, still);
  }

  /** The same when the files are replaced by none, or by a log without chained rows: `missing` while there is
      no file, `shorter` from then on. */
  lemma ReplacedFilesStayFound(w: World, steps: seq<Step>, d: Disk, later: seq<Step>, still: bool)
    requires Initial(w) && Goes(w, steps) && LegacyOrEmpty(d)
    requires AllOwe(After(w, steps), Chained(Entries(After(w, steps).disk)), still)
    requires var v := After(w, steps);
             v.stored.Active? && IsRow(v.stored.checkpoint.headDigest) && LossLasts(v.(disk := d), later, still)
    ensures var v := After(w, steps).(disk := d);
            && Goes(v, later)
            && var v' := After(v, later);
               && (still ==> v'.stored == v.stored)
               && v'.stored.Active? && Reported(v'.stored, VerifyAt(v'.disk, HeadOf(v'.stored)))
  {
    hide Initial, View, DiskAt, AllOwe, LossLasts, Linked, LegacyOrEmpty, Next, Reported, LossInv, WindowSound,
         Verify, VerifyAt;
    var history := RunStays(w, steps);
    LegacyDisk(d);
    RowsAreRows(Entries(After(w, steps).disk));
    LossBegins(After(w, steps), history, d, [], Chained(Entries(After(w, steps).disk)), still);
    var left := LossStaysFound(After(w, steps).(disk := d), [], later, still);
  }

  // ---------------------------------------------------------------------------
  // What can erase a loss.
  // ---------------------------------------------------------------------------

  function LossOf(st: State): LossState {
    ClassifyLoss(st.stored, VerifyAt(st.disk, HeadOf(st.stored)))
  }

  /** The state after `noteChainVerified` and the advance that follows it. */
  function AfterNote(st: State, fence: Option<nat>, brokenKnown: bool, io: Io, writable: bool): State
    requires fence.Some? ==> Ready(st, fence.value)
  {
    AdvanceCheckpoint(NoteVerified(st, fence, brokenKnown, io).state, writable, io.nowMs)
  }

  /** The walk finds what the writer would store, at the position it would store, or has it pruned. */
  predicate WalkHolds(d: Disk, w: Writer)
    requires Moves(w)
  {
    var walk := VerifyAt(d, w.landedDigest);
    walk.Some? && walk.value.Intact? && Reaches(walk.value.positions, w.cp.value.position)
  }

  /** `noteChainVerified` advances the checkpoint whatever it answers: while it leaves the files as they are, a
      reported loss is no longer reported exactly when the writer stores what it holds, and the walk finds
      that where the writer counts it. */
  lemma NoteErases(st: State, fence: Option<nat>, brokenKnown: bool, io: Io, writable: bool)
    requires ReportsLoss(LossOf(st))
    requires fence.Some? ==> Ready(st, fence.value)
    requires NoteVerified(st, fence, brokenKnown, io).state.disk == st.disk
    ensures !ReportsLoss(LossOf(AfterNote(st, fence, brokenKnown, io, writable)))
       <==> NoteStores(st, fence, brokenKnown, io) && writable && WalkHolds(st.disk, st.writer)
  {
    hide View, Verify, AllLines, FilesPresent, Reaches, WriteRow, Ready;
    if NoteVerified(st, fence, brokenKnown, io).result in {WriteFailed, Recovered} {
      NoteWritesUnread(st, fence.value, brokenKnown, io);
    } else if NoteStores(st, fence, brokenKnown, io) && writable {
      StillIntact(st.disk, st.stored, st.writer.landedDigest);
    }
  }

  /** Of files with a history: exactly when they hold that row, which is what `LeavesLoss` excludes. */
  lemma NoteErasesHeld(st: State, history: seq<Digest>, fence: Option<nat>, brokenKnown: bool, io: Io, writable: bool)
    requires ReportsLoss(LossOf(st)) && DiskAt(st.disk, history) && FilesPresent(st.disk)
    requires fence.Some? ==> Ready(st, fence.value)
    requires NoteVerified(st, fence, brokenKnown, io).state.disk == st.disk
    ensures !ReportsLoss(LossOf(AfterNote(st, fence, brokenKnown, io, writable)))
       <==> && NoteStores(st, fence, brokenKnown, io) && writable
            && Held(st.disk, st.writer.landedDigest.value, st.writer.cp.value.position)
  {
    hide DiskAt, View, Verify, AllLines, FilesPresent, Reaches, WriteRow, Ready, Held, NoteVerified, AdvanceCheckpoint,
         ClassifyLoss;
    NoteErases(st, fence, brokenKnown, io, writable);
    if Moves(st.writer) {
      StillIntact(st.disk, st.stored, st.writer.landedDigest);
      HeldIsReached(st.disk, history, st.writer.landedDigest.value, st.writer.cp.value.position);
    }
  }

  /** A reported loss is no broken chain, whatever the walk looks for. */
  lemma StillIntact(d: Disk, stored: CheckpointRead, probe: Option<Digest>)
    requires ReportsLoss(ClassifyLoss(stored, VerifyAt(d, HeadOf(stored))))
    ensures VerifyAt(d, probe).Some? ==> VerifyAt(d, probe).value.Intact?
  {
    ProbeOnlyFinds(Strict, HeadOf(stored), probe, AllLines(d));
  }

  /** Over a reported loss a note writes only when it could not read the checkpoint, and then stores nothing. */
  lemma NoteWritesUnread(st: State, fence: nat, brokenKnown: bool, io: Io)
    requires ReportsLoss(LossOf(st)) && Ready(st, fence)
    requires NoteVerified(st, Some(fence), brokenKnown, io).result in {WriteFailed, Recovered}
    ensures !NoteStores(st, Some(fence), brokenKnown, io)
    ensures var noted := NoteVerified(st, Some(fence), brokenKnown, io).state;
            noted.stored == st.stored && (!Moves(noted.writer) || noted.writer.portBlocked)
  {
    hide View, AllLines, FilesPresent, WriteRow, Verify, VerifyAt, Ready, Reaches;
    var (read, known) := ReadPort(st, io.checkpointReachable);
    var walk := VerifyAt(st.disk, HeadOf(read));
    var body := Integrity(io.ids + 2, ChainVerified(walk.value.entries, walk.value.cuts));
    ReadyKeeps(st, known, fence);
    RowStoresNothing(known, fence, body, io);
    if st.writer.hasPort {
      BlockStays(known, fence, body, io);
    } else {
      NoPortStays(known, fence, body, io);
    }
  }

  lemma RowStoresNothing(st: State, fence: nat, body: Body, io: Io)
    requires Ready(st, fence)
    ensures WriteRow(st, fence, body, io).state.stored == st.stored
  {
    hide CutsEnded, Unended, DoWrite, RepairTail, SettleCheckpoint;
  }

  const FIRST := Row(Event(1), Genesis)
  const SECOND := Row(Event(2), Of(FIRST))

  /** Two rows were written and tracked, the second by another window, and the second was removed; the
      first window, which tracks the first row, notes a verified chain. */
  const STALE := State(
    Disk(None, [], Some([FIRST, Blank])),
    Active(HeadCheckpoint(NewHistory, Of(SECOND), 2, 0, 0, 0, 0)),
    Writer(Some(Of(FIRST)), false, Some(1), Some(Tracking(Track, 1, NewHistory, 0)), true, false, true, false))

  lemma FirstRowWalk(probe: Digest)
    ensures VerifyAt(STALE.disk, Some(probe))
         == Some(Intact(1, 0, 0, 0, Some(FromGenesis), [],
                        Positions(0, 1, Some(Probe(probe, if probe == Of(FIRST) then Some(1) else None)))))
  {
    hide Fold, ChainWalk.Step, AllLines;
    var p := Some(probe);
    StaleLines();
    FoldOne(Strict, p, START, FIRST);
    FoldSnoc(Strict, p, START, [FIRST], Blank);
    FirstRowStep(p, FIRST, if probe == Of(FIRST) then Some(1) else None);
  }

  lemma StaleLines()
    ensures AllLines(STALE.disk) == [FIRST] + [Blank]
  {
    assert LinesOf([]) == [];
  }

  lemma FirstRowStep(p: Option<Digest>, row: Line, at: Option<int>)
    requires row.Row? && row.prev == Genesis
    requires at == if p == Some(Of(row)) then Some(1) else None
    ensures var w := Walking(Standing(Of(row), true, None, Some(FromGenesis)), Tally(1, 0, 0, 0, 0, at),
                             [], None, [], 1);
            && ChainWalk.Step(Strict, p, START, row) == w
            && ChainWalk.Step(Strict, p, w, Blank) == w.(consumed := 2)
  {
    hide Fault, Move, Count;
    FirstRowMoves(p, row, at);
  }

  lemma FirstRowMoves(p: Option<Digest>, row: Line, at: Option<int>)
    requires row.Row? && row.prev == Genesis
    requires at == if p == Some(Of(row)) then Some(1) else None
    ensures Fault(START.standing, row).None?
    ensures Move(START.standing, row) == Standing(Of(row), true, None, Some(FromGenesis))
    ensures Count(p, START.tally, row) == Tally(1, 0, 0, 0, 0, at)
  {
  }

  /** So it happens: to a window that is not the owner, to the owner, and when the break is no longer known. */
  lemma NoteErasesHere(fence: Option<nat>, brokenKnown: bool, io: Io)
    requires io.checkpointReachable && io.walkable
    ensures fence.Some? ==> Ready(STALE, fence.value)
    ensures LossOf(STALE) == Shorter(2, 1, TailRemoved)
    ensures LossOf(AfterNote(STALE, fence, brokenKnown, io, true)) == Consistent(1)
  {
    FirstRowWalk(Of(SECOND));
    FirstRowWalk(Of(FIRST));
    hide VerifyAt, WriteRow;
  }
}
