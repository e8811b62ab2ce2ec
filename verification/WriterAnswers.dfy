/** What each step of the writer answers and leaves, told from what was there before it and from how its reads
    and writes end: when it succeeds, which mode it settles for, what the checkpoint then holds. */
module WriterAnswers {
  import opened Common
  import opened ChainLines
  import opened ChainWalk
  import opened ChainFacts
  import opened ChainEvidence
  import opened ChainCounts
  import opened AuditDisk
  import opened Checkpoint
  import opened WriterSteps
  import opened DiskHistory
  import opened WriterRuns
  import opened WindowRuns

  // ---------------------------------------------------------------------------
  // The two tables.
  // ---------------------------------------------------------------------------

  /** The walk accepts the log. */
  predicate Accepted(walk: Option<Verdict>) {
    walk.Some? && walk.value.Intact?
  }

  /** The walk finds the checkpointed row at its position, or as many rows were pruned. */
  predicate Found(walk: Option<Verdict>, position: int) {
    && Accepted(walk)
    && var p := walk.value.positions;
       (p.probe.Some? && p.probe.value.foundAt == Some(position)) || p.prunedThrough >= position
  }

  /** No checkpoint is active: there is none, or the last one was retired. */
  predicate NoneActive(read: CheckpointRead) {
    read.Absent? || read.Retired?
  }

  /** The mode the writer settles for, and the position it counts from, for every answer of the port and every
      walk. */
  lemma ModeTold(read: CheckpointRead, facts: SettleFacts)
    ensures var s, files, walk := SettleMode(read, facts), facts.filesPresent, facts.walk;
            var atTail := read.Active? && facts.tailDigest == Some(read.checkpoint.headDigest);
            && (s.mode.New? <==> read.Absent? && !files)
            && (s.mode.Reset? <==> read.Retired? && !files)
            && (s.mode.Adopt? <==> NoneActive(read) && files && Accepted(walk))
            && (s.mode.Track? <==> read.Active? && files && (atTail || Found(walk, read.checkpoint.position)))
            && (s.mode.Loss? <==>
                  read.Active? && (!files || (!atTail && Accepted(walk) && !Found(walk, read.checkpoint.position))))
            && (s.mode.Off? <==> read.Unreadable? || (files && !atTail && !Accepted(walk)))
            && s.position == (if s.mode.Adopt? then walk.value.positions.tail
                              else if s.mode.Track? && atTail then read.checkpoint.position
                              else if s.mode.Track? then walk.value.positions.tail
                              else 0)
  {
  }

  /** What a verification says of the history, for every answer of the port and every walk. */
  lemma LossTold(read: CheckpointRead, walk: Option<Verdict>)
    ensures var loss := ClassifyLoss(read, walk);
            && (loss.NewWorkspace? <==> NoneActive(read) && walk.None?)
            && (loss.NoCheckpointForLocation? <==> NoneActive(read) && Accepted(walk))
            && (loss.Missing? <==> read.Active? && walk.None?)
            && (loss.Consistent? <==> read.Active? && Found(walk, read.checkpoint.position) && !Adopts(read))
            && (loss.AdoptedSince? <==> read.Active? && Found(walk, read.checkpoint.position) && Adopts(read))
            && (loss.Shorter? <==> read.Active? && Accepted(walk) && !Found(walk, read.checkpoint.position))
            && (loss == NotPerformed(ChainNotIntact) <==> !read.Unreadable? && walk.Some? && !Accepted(walk))
            && (read.Unreadable? <==> loss.NotPerformed? && loss.why.CheckpointUnreadable?)
            && (read.Unreadable? ==> loss == NotPerformed(CheckpointUnreadable(read.reason)))
            && LossFigures(read, walk, loss)
  {
  }

  predicate Adopts(read: CheckpointRead) {
    read.Active? && read.checkpoint.origin.Adopted?
  }

  /** The numbers that a verification reports. */
  predicate LossFigures(read: CheckpointRead, walk: Option<Verdict>, loss: LossState) {
    && (loss.Missing? ==> read.Active? && loss.expected == read.checkpoint.position)
    && (loss.Consistent? ==> read.Active? && loss.position == read.checkpoint.position)
    && (loss.AdoptedSince? ==>
          read.Active? && loss.position == read.checkpoint.position
              && loss.adoptedAtMs == read.checkpoint.establishedAtMs)
    && (loss.Shorter? ==>
          && read.Active? && Accepted(walk)
          && loss.expected == read.checkpoint.position && loss.found == walk.value.positions.tail
          && (loss.detail.TailRemoved? <==> loss.found < loss.expected))
  }

  // ---------------------------------------------------------------------------
  // A tail check.
  // ---------------------------------------------------------------------------

  /** The checkpoint can be read. */
  predicate PortReads(st: State, io: Io) {
    st.writer.hasPort && io.checkpointReachable && !st.stored.Unreadable?
  }

  /** What a tail check can track: nothing behind it, the checkpointed row at the very end, or a log that can be
      walked and is accepted. */
  ghost predicate Trackable(d: Disk, stored: CheckpointRead, io: Io)
    requires View(AllLines(d)).Some?
  {
    || !FilesPresent(d)
    || (stored.Active? && stored.checkpoint.headDigest == DiskLink(d))
    || (io.walkable && Verify(AllLines(d), None).Intact?)
  }

  /** Where the history that is tracked comes from. */
  function OriginOf(d: Disk, stored: CheckpointRead): Origin {
    if stored.Active? then stored.checkpoint.origin
    else if FilesPresent(d) then Adopted
    else if stored.Retired? then AfterReset
    else NewHistory
  }

  function EstablishedOf(stored: CheckpointRead, nowMs: int): int {
    if stored.Active? then stored.checkpoint.establishedAtMs else nowMs
  }

  /** Any probe gives the same verdict as none. */
  lemma ProbeKeepsVerdict(d: Disk, probe: Option<Digest>)
    ensures Verify(AllLines(d), probe).Intact? <==> Verify(AllLines(d), None).Intact?
  {
    ProbeOnlyFinds(Strict, probe, None, AllLines(d));
  }

  /** The first row of the history after a retired one. */
  function ResetRow(c: HeadCheckpoint, io: Io): Line {
    Row(Integrity(io.ids + 1, HistoryReset(c.retiredPosition)), Genesis)
  }

  /** Settling, over repaired files: the writer advances exactly when the checkpoint can be read and what it
      says can be compared, and then from the last row. */
  lemma SettleTracks(st: State, history: seq<Digest>, io: Io)
    requires DiskAt(st.disk, history) && Linked(history) && StoredSound(st.stored, st.disk, history)
    requires UpToDate(st.(writer := st.writer.(cp := None)), history)
    ensures var done := SettleCheckpoint(st, io);
            st.writer.hasPort && done.ok ==>
              && done.state.writer.cp.Some?
              && (done.state.writer.portBlocked <==> !PortReads(st, io))
              && var cp := done.state.writer.cp.value;
                 && (Advances(cp.mode) <==> PortReads(st, io) && Trackable(st.disk, st.stored, io))
                 && (!Advances(cp.mode) ==> cp.mode.Off?)
                 && (cp.mode.Track? <==> st.stored.Active? && Advances(cp.mode))
                 && (Advances(cp.mode) ==>
                       && cp.origin == OriginOf(st.disk, st.stored)
                       && cp.establishedAtMs == EstablishedOf(st.stored, io.nowMs)
                       && (if FilesPresent(st.disk) || !st.stored.Retired?
                           then cp.position == |history| && done.state.disk == st.disk
                           else cp.position == 1
                                && done.state.writer.landedDigest == Some(Of(ResetRow(st.stored.checkpoint, io)))))
  {
    hide DiskAt, DiskLink, View, Verify, AllLines, FilesPresent, Linked, SettleMode, Unended, AppendLine, Reaches,
         HeadSound;
    if st.writer.hasPort {
      var (read, known) := ReadPort(st, io.checkpointReachable);
      var facts := FactsOf(st.disk, read, st.writer.landedDigest, io.walkable);
      FactsGathered(st.disk, history, read, io.walkable);
      SettledIsSound(history, read, facts);
      ModeTold(read, facts);
      ProbeKeepsVerdict(st.disk, HeadOf(read));
      if facts.walk.Some? && facts.walk.value.Intact? && read.Active? {
        FoundIsReaches(facts.walk, read.checkpoint.position);
      }
    }
  }

  lemma FoundIsReaches(walk: Option<Verdict>, position: int)
    requires Accepted(walk)
    ensures Found(walk, position) <==> Reaches(walk.value.positions, position)
  {
  }

  lemma RepairKeepsFiles(d: Disk, io: Io)
    ensures FilesPresent(RepairTail(d, io).disk) <==> FilesPresent(d)
  {
    EntryMeansFiles(d);
    hide Entries, LastItem, ChosenLink;
  }

  /** A tail check that succeeds: the writer advances exactly when the checkpoint can be read and the repaired
      log compared with it, then from its last row, and with the origin of what it tracks; else it is off. */
  lemma CheckTailTracks(st: State, history: seq<Digest>, io: Io) returns (history': seq<Digest>)
    requires Sound(st, history)
    ensures var d, done := RepairTail(st.disk, io).disk, CheckTail(st, io);
            && DiskAt(done.state.disk, history') && View(AllLines(d)).Some? && View(AllLines(done.state.disk)).Some?
            && (done.ok ==> UpToDate(done.state, history') && !done.state.writer.tailCheckOwed)
            && (done.ok && !st.writer.hasPort ==> done.state.writer.cp.None?)
            && (done.ok && st.writer.hasPort ==> Tracks(st, d, io, done.state.writer, |history'|))
  {
    hide DiskAt, DiskLink, View, AllLines, Linked, SettleCheckpoint, RepairTail, Unended, FilesPresent, Trackable;
    history' := CheckTailKeeps(st, history, io);
    var r, h := RepairTail(st.disk, io), RepairedHistory(st.disk, history, io);
    RepairKeeps(st.disk, history, io);
    RepairLinks(st.disk, history, io);
    RepairKeepsFiles(st.disk, io);
    SoundGrows(st.stored, st.writer, st.disk, r.disk, history, h);
    DiskIsReady(CheckTail(st, io).state.disk, history');
    if CheckTail(st, io).ok {
      var checked := st.(disk := r.disk, writer := st.writer.(landedDigest := r.landed));
      SettleTracks(checked, h, io);
      NoPortNoTracking(checked, io);
    }
  }

  lemma NoPortNoTracking(st: State, io: Io)
    requires !Unended(st.disk) && st.writer.landedDigest.Some?
    ensures !st.writer.hasPort ==> SettleCheckpoint(st, io).state.writer.cp.None?
  {
  }

  /** What a writer with a port tracks after a tail check that left the repaired files `d`. */
  ghost predicate Tracks(st: State, d: Disk, io: Io, w: Writer, position: int)
    requires View(AllLines(d)).Some?
  {
    && w.hasPort && w.cp.Some? && w.landedDigest.Some?
    && (w.portBlocked <==> !PortReads(st, io))
    && (Advances(w.cp.value.mode) <==> PortReads(st, io) && Trackable(d, st.stored, io))
    && (!Advances(w.cp.value.mode) ==> w.cp.value.mode.Off?)
    && (w.cp.value.mode.Track? <==> st.stored.Active? && Advances(w.cp.value.mode))
    && (Advances(w.cp.value.mode) ==>
          && w.cp.value.position == position
          && w.cp.value.origin == OriginOf(st.disk, st.stored)
          && w.cp.value.establishedAtMs == EstablishedOf(st.stored, io.nowMs))
  }

  /** The reset row of a retired history. */
  predicate Resets(st: State, io: Io) {
    PortReads(st, io) && st.stored.Retired? && !FilesPresent(st.disk)
  }

  lemma {:induction false} ItemTornIff(lines: seq<Line>)
    ensures EndsDamaged(lines) <==> LastItem(lines).Some? && LastItem(lines).value.Torn?
    decreases |lines|
  {
    if |lines| > 0 {
      ItemTornIff(lines[..|lines| - 1]);
    }
  }

  lemma RepairSucceeds(d: Disk, io: Io)
    requires NoCuts(Entries(d))
    ensures RepairTail(d, io).ok
       <==> && io.tailReadable
            && (Unended(d) ==> io.newline.Whole?)
            && (EndsDamaged(Entries(d)) ==> io.damage.Whole?)
  {
    ItemTornIff(Entries(d));
    LastUnendedIsItem(d);
    LastItemIsIn(Entries(d));
    hide Entries, LastItem, ChosenLink, EndsDamaged;
  }

  /** A tail check succeeds exactly when each of its reads and writes does that the files call for. */
  lemma CheckTailSucceeds(st: State, io: Io)
    requires NoCuts(Entries(st.disk))
    ensures CheckTail(st, io).ok
       <==> && io.tailReadable
            && (Unended(st.disk) ==> io.newline.Whole?)
            && (EndsDamaged(Entries(st.disk)) ==> io.damage.Whole?)
            && (Resets(st, io) ==> io.reset.Whole?)
  {
    hide Entries, EndsDamaged, RepairTail, Unended, FilesPresent, SettleWalk, AppendLine;
    RepairSucceeds(st.disk, io);
    RepairKeepsFiles(st.disk, io);
  }

  /** The lines of the live log, which a file just made has one of, an empty one. */
  function LiveText(d: Disk): seq<Line> {
    if d.live.Some? then d.live.value else [Blank]
  }

  /** One append: refused, it leaves the files as they are; else the live log is there, and the line stands
      after what it held, whole with a newline or without, or in part as a line that does not parse, or not at
      all. */
  lemma AppendTold(d: Disk, line: Line, landing: Landing)
    requires !Unended(d) && !line.Blank?
    ensures var d', before := AppendLine(d, line, landing), LiveText(d);
            && d'.cuts == d.cuts && d'.archives == d.archives
            && before[|before| - 1].Blank?
            && (if landing.Refused? then d' == d
                else
                  && d'.live.Some?
                  && |LiveText(d')| == |before| + (if landing.Whole? then 1 else 0)
                  && (forall k :: 0 <= k < |before| - 1 ==> LiveText(d')[k] == before[k])
                  && var last := LiveText(d')[|before| - 1];
                     && (landing.Nothing? ==> last.Blank?)
                     && (landing.TornAt? ==> last == Torn(landing.first, landing.rest))
                     && (landing.NoNewline? || landing.Whole? ==> last == line)
                     && (Unended(d') <==> landing.TornAt? || landing.NoNewline?))
  {
  }

  // ---------------------------------------------------------------------------
  // A row, and the advance after it.
  // ---------------------------------------------------------------------------

  /** A row step succeeds exactly when its tail check does, if it makes one, and the row lands whole. It makes
      one when one is owed, or when the last row was written under another fence, or none was. */
  lemma RowSucceeds(st: State, fence: nat, body: Body, io: Io)
    requires Ready(st, fence)
    ensures var done := WriteRow(st, fence, body, io);
            && (done.ok <==> io.row.Whole?
                             && (st.writer.tailCheckOwed || st.writer.writtenUnderFence != Some(fence) ==>
                                   CheckTail(OweTailCheck(st), io).ok))
            && (done.ok ==> done.state.writer.landedDigest.Some? && done.state.writer.landedDigest.value.Of?
                            && var row := done.state.writer.landedDigest.value.line; row.Row? && row.body == body)
            && (!Owes(st.writer, fence) || CheckTail(OweTailCheck(st), io).ok ==>
                  done.state.writer.writtenUnderFence == if done.ok then Some(fence) else st.writer.writtenUnderFence)
  {
    hide CheckTail, DoWrite, RotateBreaks, Unended, CutsEnded;
    CheckKeepsFence(OweTailCheck(st), io);
  }

  lemma CheckKeepsFence(st: State, io: Io)
    ensures CheckTail(st, io).state.writer.writtenUnderFence == st.writer.writtenUnderFence
  {
    hide RepairTail, SettleMode, SettleWalk, Unended;
  }

  /** An append that succeeds holds the fence, and lands an entry. */
  lemma AppendLandsEntry(st: State, fence: Option<nat>, io: Io)
    requires fence.Some? ==> Ready(st, fence.value)
    ensures var done := WriteStep(st, fence, io);
            done.ok ==>
              && fence.Some? && done.state.writer.landedDigest.Some? && done.state.writer.landedDigest.value.Of?
              && var row := done.state.writer.landedDigest.value.line; row.Row? && row.body.Event?
  {
    hide WriteRow, Ready;
    if fence.Some? {
      RowSucceeds(st, fence.value, Event(io.ids + 2), io);
    }
  }

  /** Nothing is written without the fence. */
  lemma NoFenceNoRow(st: State, io: Io)
    ensures WriteStep(st, None, io) == Done(st, false)
  {
  }

  /** The checkpoint that an up-to-date writer stores. */
  ghost predicate StoresLast(w: Writer, d: Disk, nowMs: int, stored: CheckpointRead)
    requires View(AllLines(d)).Some?
  {
    && stored.Active?
    && var c := stored.checkpoint;
       && c.headDigest == DiskLink(d)
       && c.position == Tail(Seen(d).tally)
       && w.cp.Some? && c.origin == w.cp.value.origin
       && c.establishedAtMs == (if w.cp.value.mode.Track? then w.cp.value.establishedAtMs else nowMs)
       && c.updatedAtMs == nowMs
  }

  /** The advance of an up-to-date writer: it stores the last row at the verifier's tail position exactly when
      it advances, its port was readable and the write succeeds; it then tracks, and after a write that was
      refused or failed it is off. */
  lemma AdvanceStoresLast(st: State, history: seq<Digest>, writable: bool, nowMs: int)
    requires DiskAt(st.disk, history) && UpToDate(st, history)
    ensures View(AllLines(st.disk)).Some?
    ensures var st', w := AdvanceCheckpoint(st, writable, nowMs), st.writer;
            && st'.disk == st.disk
            && (if !Moves(w) then st' == st
                else if writable && !w.portBlocked then
                  && StoresLast(w, st.disk, nowMs, st'.stored)
                  && st'.writer.cp.Some? && st'.writer.cp.value.mode.Track?
                  && st'.writer.cp.value.position == w.cp.value.position
                  && st'.writer.cp.value.origin == w.cp.value.origin
                  && st'.writer.cp.value.establishedAtMs == st'.stored.checkpoint.establishedAtMs
                else st'.stored == st.stored && st'.writer.cp.Some? && st'.writer.cp.value.mode.Off?)
  {
    hide DiskAt, DiskLink, View, AllLines, Unended;
    RowsPastPruned(st.disk, history);
  }

  /** The first row after a tail check, and its advance: the checkpoint is that row at its position, with the
      origin of what was found, whenever the checkpoint could be read and the log compared with it. */
  lemma RowIsTracked(st: State, history: seq<Digest>, fence: nat, body: Body, io: Io, nowMs: int)
    requires Sound(st, history) && OrderlyRetention(st.disk, io) && Owes(st.writer, fence) && st.writer.hasPort
    ensures Ready(st, fence) && View(AllLines(RepairTail(st.disk, io).disk)).Some?
    ensures var done := WriteRow(st, fence, body, io);
            var after := AdvanceCheckpoint(done.state, true, nowMs);
            && View(AllLines(done.state.disk)).Some?
            && (done.ok ==>
                  if PortReads(st, io) && Trackable(RepairTail(st.disk, io).disk, st.stored, io) then
                    && after.stored.Active?
                    && after.stored.checkpoint.headDigest == DiskLink(after.disk)
                    && after.stored.checkpoint.headDigest.Of? && after.stored.checkpoint.headDigest.line.Row?
                    && after.stored.checkpoint.headDigest.line.body == body
                    && after.stored.checkpoint.position == Tail(Seen(after.disk).tally)
                    && after.stored.checkpoint.origin == OriginOf(st.disk, st.stored)
                    && after.stored.checkpoint.establishedAtMs == EstablishedOf(st.stored, nowMs)
                    && after.writer.cp.Some? && after.writer.cp.value.mode.Track?
                  else after.stored == st.stored)
  {
    hide DiskAt, DiskLink, View, AllLines, Linked, CheckTail, Unended, FilesPresent, OrderlyRetention, CutsEnded,
         DoWrite,
         Trackable, RepairTail, WriteRow, Ready, AdvanceCheckpoint, OriginOf, PortReads;
    var history' := WriteRowKeeps(st, history, fence, body, io);
    var owed := OweTailCheck(st);
    var h := CheckTailTracks(owed, history, io);
    var done := WriteRow(st, fence, body, io);
    DiskIsReady(done.state.disk, history');
    if done.ok {
      RowSucceeds(st, fence, body, io);
      RowKeepsMode(st, fence, body, io);
      AdvanceStoresLast(done.state, history', true, nowMs);
      SameFacts(st, owed, io);
    }
  }

  lemma SameFacts(st: State, owed: State, io: Io)
    requires owed == OweTailCheck(st)
    ensures PortReads(owed, io) == PortReads(st, io) && OriginOf(owed.disk, owed.stored) == OriginOf(st.disk, st.stored)
    ensures RepairTail(owed.disk, io) == RepairTail(st.disk, io) && owed.stored == st.stored
  {
  }

  /** A landed row keeps the mode that the tail check settled for. */
  lemma RowKeepsMode(st: State, fence: nat, body: Body, io: Io)
    requires Ready(st, fence) && Owes(st.writer, fence) && WriteRow(st, fence, body, io).ok
    ensures var w, checked := WriteRow(st, fence, body, io).state.writer, CheckTail(OweTailCheck(st), io).state.writer;
            && w.hasPort == checked.hasPort && w.portBlocked == checked.portBlocked
            && (w.cp.Some? <==> checked.cp.Some?)
            && (w.cp.Some? ==>
                  w.cp.value.(position := 0) == checked.cp.value.(position := 0))
    ensures WriteRow(st, fence, body, io).state.stored == st.stored
  {
    hide CheckTail, DoWrite, RotateBreaks, Unended, CutsEnded;
  }

  // ---------------------------------------------------------------------------
  // Noting, re-anchoring, retiring.
  // ---------------------------------------------------------------------------

  /** What the port answers to this step. */
  function Answered(st: State, io: Io): CheckpointRead {
    if st.writer.hasPort && io.checkpointReachable then st.stored else Unreadable(Unreachable)
  }

  /** What a noted verification answers, and the row it lands: with the numbers of chained rows and of cut
      records in the files. */
  lemma NoteTold(st: State, fence: Option<nat>, brokenKnown: bool, io: Io)
    requires fence.Some? ==> Ready(st, fence.value)
    ensures var done, read := NoteVerified(st, fence, brokenKnown, io), Answered(st, io);
            var passes := io.walkable && FilesPresent(st.disk) && Verify(AllLines(st.disk), HeadOf(read)).Intact?
                          && !ReportsLoss(ClassifyLoss(read, VerifyAt(st.disk, HeadOf(read))));
            && (done.result.NoOp? <==> !brokenKnown)
            && (done.result.NotOwner? <==> brokenKnown && fence.None?)
            && (done.result.NotVerified? <==> brokenKnown && fence.Some? && !passes)
            && (done.result.WriteFailed? ==> done.state.writer.tailCheckOwed)
            && (done.result in {NoOp, NotOwner, NotVerified} ==> done.state.disk == st.disk)
            && (done.result.Recovered? ==>
                  && !done.state.writer.chainBrokenNoted
                  && done.state.writer.landedDigest.Some? && done.state.writer.landedDigest.value.Of?
                  && var row := done.state.writer.landedDigest.value.line;
                     && row.Row?
                     && row.body == Integrity(io.ids + 2, ChainVerified(|Chained(AllLines(st.disk))|,
                                                                        CutLines(AllLines(st.disk)))))
  {
    hide Verify, AllLines, WriteRow, Ready, ClassifyLoss, Chained, CutLines;
    if fence.Some? && brokenKnown {
      var (read, known) := ReadPort(st, io.checkpointReachable);
      var walk := if io.walkable then VerifyAt(st.disk, HeadOf(read)) else None;
      if walk.Some? && walk.value.Intact? {
        AnswerTold(AllLines(st.disk), HeadOf(read));
        ReadyAgain(st, known, fence.value);
        RowSucceeds(known, fence.value, Integrity(io.ids + 2, ChainVerified(walk.value.entries, walk.value.cuts)), io);
      }
    }
  }

  lemma ReadyAgain(st: State, st': State, fence: nat)
    requires Ready(st, fence) && st'.disk == st.disk && st'.writer == st.writer.(portBlocked := st'.writer.portBlocked)
    ensures Ready(st', fence)
  {
  }

  /** Every check of a re-anchoring passes. */
  ghost predicate Anchorable(st: State, fence: Option<nat>, io: Io) {
    fence.Some? && st.writer.hasPort && io.walkable && FilesPresent(st.disk) && Verify(AllLines(st.disk), None).Intact?
  }

  /** What a re-anchoring answers. It stores a checkpoint, the row it wrote at the position after the verifier's
      tail, exactly when it answers so; a checkpoint that is there and cannot be read is overwritten only when
      allowed. */
  lemma ReanchorTold(st: State, fence: Option<nat>, force: bool, io: Io)
    requires CutsEnded(st.disk)
    ensures var done := ReanchorCheckpoint(st, fence, force, io);
            var owner := fence.Some? && st.writer.hasPort && io.walkable;
            var unread := Answered(st, io).Unreadable?;
            && (done.result.ReanchorNotOwner? <==> fence.None?)
            && (done.result.NoChain? <==> owner && !FilesPresent(st.disk))
            && (done.result.ChainBroken? <==> owner && FilesPresent(st.disk) && !Anchorable(st, fence, io))
            && (done.result.UnreadableRefused? <==>
                  Anchorable(st, fence, io) && unread && Answered(st, io).reason != Unreachable && !force)
            && (done.result.Reanchored? <==>
                  && Anchorable(st, fence, io)
                  && (unread ==> Answered(st, io).reason != Unreachable && force)
                  && io.tailReadable && (Unended(st.disk) ==> io.newline.Whole?) && io.row.Whole?
                     && io.checkpointWritable)
            && (if done.result.Reanchored? then ReanchoredAt(st, done.state, io)
                else done.state.stored == st.stored)
  {
    hide Verify, AllLines, Entries, LastItem, DoWrite, RotateBreaks, CutsEnded, ChosenLink;
  }

  /** The checkpoint after a re-anchoring that succeeded. */
  ghost predicate ReanchoredAt(st: State, st': State, io: Io) {
    var verdict := Verify(AllLines(st.disk), None);
    && verdict.Intact?
    && st'.stored.Active?
    && var c := st'.stored.checkpoint;
       && c.position == verdict.positions.tail + 1
       && c.origin == AfterReset && c.establishedAtMs == io.nowMs && c.updatedAtMs == io.nowMs
       && c.headDigest.Of? && c.headDigest.line.Row?
       && c.headDigest.line.body == Integrity(io.ids, CheckpointReanchored(c.position))
       && st'.writer.landedDigest == Some(c.headDigest)
       && st'.writer.cp == Some(Tracking(Track, c.position, AfterReset, io.nowMs))
       && !st'.writer.tailCheckOwed && !st'.writer.portBlocked
  }

  /** What a retirement answers. The record keeps the origin and when it was established, and says at which
      position it was retired, and when; it is no longer a head of any log. */
  lemma RetireTold(st: State, fence: Option<nat>, io: Io)
    ensures var done, read := RetireCheckpoint(st, fence, io), Answered(st, io);
            && (done.result.RetireNotOwner? <==> fence.None?)
            && (done.result.RetireFilesPresent? <==> fence.Some? && FilesPresent(st.disk))
            && (done.result.RetireAbsent? <==> fence.Some? && !FilesPresent(st.disk) && NoneActive(read))
            && (done.result.RetiredNow? <==>
                  fence.Some? && !FilesPresent(st.disk) && read.Active? && io.checkpointWritable)
            && done.state.disk == st.disk
            && (if done.result.RetiredNow? then
                  && done.state.stored.Retired? && done.state.writer.tailCheckOwed
                  && var c, was := done.state.stored.checkpoint, st.stored.checkpoint;
                     && c.retiredPosition == was.position && c.retiredAtMs == io.nowMs && c.updatedAtMs == io.nowMs
                     && c.position == 0 && !IsRow(c.headDigest)
                     && c.origin == was.origin && c.establishedAtMs == was.establishedAtMs
                else done.state.stored == st.stored)
  {
  }
}
