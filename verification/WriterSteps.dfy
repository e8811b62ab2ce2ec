/** What each step of the audit log writer does to the files, the stored checkpoint and the writer's own
    fields.  How each read and write ends is an input (`Io`), so a step covers every failure and every torn
    write the source distinguishes. */
module WriterSteps {
  import opened Common
  import opened ChainLines
  import opened ChainWalk
  import opened ChainCuts
  import opened AuditDisk
  import opened Retention
  import opened Checkpoint

  /** How one append to the live log ends: the open refused, no byte written, some bytes of a line that then
      does not parse, the whole line without its newline, or all of it. */
  datatype Landing = Refused | Nothing | TornAt(first: Byte, rest: seq<Byte>) | NoNewline | Whole

  /** The name and time an archive gets when the live log is rotated. */
  datatype Rotation = Rotation(stamp: int, mtimeMs: int)

  /** How far a prune gets: archives read before one is refused, whether the cut file opens, archives
      unlinked before one fails, whether the cut record is written. */
  datatype PruneIo = PruneIo(readable: nat, cutsOpen: bool, unlinked: nat, cutWritten: bool)

  /** How the reads and writes of one step end.  `ids` and the two numbers after it are fresh row ids. */
  datatype Io = Io(
    tailReadable: bool,
    newline: Landing,
    damage: Landing,
    checkpointReachable: bool,
    walkable: bool,
    reset: Landing,
    rotation: Option<Rotation>,
    budget: Budget,
    prune: PruneIo,
    row: Landing,
    checkpointWritable: bool,
    nowMs: int,
    ids: nat)

  datatype Tracking = Tracking(mode: Mode, position: int, origin: Origin, establishedAtMs: int)

  /** The fields of the writer.  `portBlocked` is the checkpoint store's memory of an unreadable file. */
  datatype Writer = Writer(
    landedDigest: Option<Digest>,
    tailCheckOwed: bool,
    writtenUnderFence: Option<nat>,
    cp: Option<Tracking>,
    chainBrokenNoted: bool,
    maintenanceRan: bool,
    hasPort: bool,
    portBlocked: bool)

  datatype State = State(disk: Disk, stored: CheckpointRead, writer: Writer)

  datatype Done = Done(state: State, ok: bool)

  /** A writer just constructed. */
  function NewWriter(hasPort: bool): Writer {
    Writer(None, true, None, None, false, false, hasPort, false)
  }

  // ---------------------------------------------------------------------------
  // The files.
  // ---------------------------------------------------------------------------

  function AppendLine(d: Disk, line: Line, landing: Landing): (d': Disk)
    requires !Unended(d) && !line.Blank?
    ensures landing.Whole? ==> !Unended(d')
    ensures d'.cuts == d.cuts && d'.archives == d.archives
  {
    var body := d.live.GetOr([Blank]);
    var start := body[..|body| - 1];
    match landing
    case Refused => d
    case Nothing => d.(live := Some(body))
    case TornAt(first, rest) => d.(live := Some(start + [Torn(first, rest)]))
    case NoNewline => d.(live := Some(start + [line]))
    case Whole => d.(live := Some(start + [line, Blank]))
  }

  /** The newline a line at the end of the live log lacks: one byte, so all or nothing. */
  function AppendNewline(d: Disk, landing: Landing): (d': Disk)
    requires Unended(d)
    ensures Unended(d') <==> !landing.Whole?
  {
    if landing.Whole? then d.(live := Some(d.live.value + [Blank])) else d
  }

  /** Cut records are written whole. */
  predicate CutsEnded(d: Disk) {
    d.cuts.Some? ==> d.cuts.value[|d.cuts.value| - 1].Blank?
  }

  function Bodies(archives: seq<Archive>): seq<seq<Line>> {
    seq(|archives|, i requires 0 <= i < |archives| => archives[i].lines)
  }

  /** An archive whose removal a cut record must account for. */
  predicate NeedsCut(a: Archive) {
    var s := Summarise(EMPTY, a.lines);
    s.removedFrom.Some? || s.removedLegacy > 0
  }

  function Stamps(archives: seq<Archive>): set<int> {
    set i | 0 <= i < |archives| :: archives[i].stamp
  }

  function Upto<T>(xs: seq<T>, n: nat): seq<T> {
    if n < |xs| then xs[..n] else xs
  }

  predicate AnyNeedsCut(archives: seq<Archive>) {
    exists i | 0 <= i < |archives| :: NeedsCut(archives[i])
  }

  /** One line appended to a cut file. */
  function AppendCut(file: File, cut: CutRecord): File {
    file[..|file| - 1] + [Cut(cut), Blank]
  }

  /** The cut file after `gone` was unlinked: opened when a cut may be owed, and the record appended when it
      is, if that write succeeds. */
  function CutsAfter(cuts: Option<File>, needed: bool, gone: seq<Archive>, nowMs: int, written: bool): Option<File> {
    var record := Finalize(MergeAll(Bodies(gone)), nowMs);
    if !needed then cuts
    else if record.None? || !written then Some(cuts.GetOr([Blank]))
    else Some(AppendCut(cuts.GetOr([Blank]), record.value))
  }

  /** The archives read and about to be unlinked. */
  function Verified(d: Disk, budget: Budget, io: PruneIo, nowMs: int): seq<Archive> {
    Upto(Candidates(d.archives, budget, nowMs), io.readable)
  }

  /** `pruneArchives`. */
  function PruneArchives(d: Disk, budget: Budget, io: PruneIo, nowMs: int): (d': Disk)
    requires CutsEnded(d)
    ensures d'.live == d.live && CutsEnded(d')
  {
    var verified := Verified(d, budget, io, nowMs);
    var needed := AnyNeedsCut(verified);
    if |verified| == 0 || (needed && !io.cutsOpen) then d
    else
      var gone := Upto(verified, io.unlinked);
      Disk(CutsAfter(d.cuts, needed, gone, nowMs, io.cutWritten), Drop(d.archives, Stamps(gone)), d.live)
  }

  /** The prune removed lines a cut record was owed for, and could not write it: the writer notes a break. */
  predicate PruneBreaks(d: Disk, budget: Budget, io: PruneIo, nowMs: int) {
    var verified := Verified(d, budget, io, nowMs);
    && AnyNeedsCut(verified)
    && io.cutsOpen
    && Finalize(MergeAll(Bodies(Upto(verified, io.unlinked))), nowMs).Some?
    && !io.cutWritten
  }

  /** `maybeRotate`, given whether a threshold is passed: the live log becomes the newest archive.  A log
      that holds no entry is below both thresholds. */
  function MaybeRotate(d: Disk, io: Io): (d': Disk)
    requires CutsEnded(d)
    ensures CutsEnded(d') && (!Unended(d) ==> !Unended(d'))
  {
    if io.rotation.None? || LastItem(LiveLines(d)).None? then d
    else
      var archive := Archive(io.rotation.value.stamp, io.rotation.value.mtimeMs, d.live.value);
      PruneArchives(Disk(d.cuts, d.archives + [archive], None), io.budget, io.prune, io.nowMs)
  }

  predicate RotateBreaks(d: Disk, io: Io) {
    && io.rotation.Some?
    && LastItem(LiveLines(d)).Some?
    && PruneBreaks(Disk(d.cuts, d.archives
       + [Archive(io.rotation.value.stamp, io.rotation.value.mtimeMs, d.live.value)], None),
                   io.budget, io.prune, io.nowMs)
  }

  function DoWrite(d: Disk, row: Line, io: Io): (d': Disk)
    requires CutsEnded(d) && !Unended(d) && row.Row?
    ensures CutsEnded(d') && (io.row.Whole? ==> !Unended(d'))
  {
    AppendLine(MaybeRotate(d, io), row, io.row)
  }

  // ---------------------------------------------------------------------------
  // The tail check.
  // ---------------------------------------------------------------------------

  /** The row that diagnoses a damaged line. */
  function DamageRow(id: nat, damaged: Line, link: Digest): Line
    requires damaged.Torn?
  {
    Row(Integrity(id, DamagedTail(CONDITION_VERSION, ByteLength(damaged), Of(damaged))), link)
  }

  datatype Repaired = Repaired(disk: Disk, landed: Option<Digest>, ok: bool)

  /** The part of `checkTail` before the checkpoint: terminate the last line, record its damage, choose the
      link. */
  function RepairTail(d: Disk, io: Io): (r: Repaired)
    ensures r.ok ==> r.landed.Some? && !Unended(r.disk)
    ensures r.disk.cuts == d.cuts && r.disk.archives == d.archives
  {
    var last := LastItem(Entries(d));
    if !io.tailReadable then Repaired(d, None, false)
    else if last.None? then
      LastUnendedIsItem(d);
      Repaired(d, Some(ChosenLink(d)), true)
    else
      var ended := if Unended(d) then AppendNewline(d, io.newline) else d;
      if Unended(ended) then Repaired(ended, None, false)
      else if Parses(last.value) then Repaired(ended, Some(Of(last.value)), true)
      else
        var row := DamageRow(io.ids, last.value, ChosenLink(d));
        var written := AppendLine(ended, row, io.damage);
        if io.damage.Whole? then Repaired(written, Some(Of(row)), true) else Repaired(written, None, false)
  }

  /** An unterminated line is the last one. */
  lemma LastUnendedIsItem(d: Disk)
    ensures Unended(d) ==> LastItem(Entries(d)).Some?
  {
    LastItemConcat(LinesOf(d.archives), LiveLines(d));
  }

  /** What the port answers, and its memory of it. */
  function ReadPort(st: State, reachable: bool): (CheckpointRead, State) {
    if !st.writer.hasPort then (Unreadable(Unreachable), st)
    else
      var read := if reachable then st.stored else Unreadable(Unreachable);
      (read, st.(writer := st.writer.(portBlocked := read.Unreadable?)))
  }

  function HeadOf(read: CheckpointRead): Option<Digest> {
    if read.Active? then Some(read.checkpoint.headDigest) else None
  }

  /** The walk made to settle: none when the head is the tail, or the files cannot be read. */
  function SettleWalk(d: Disk, read: CheckpointRead, landed: Option<Digest>, walkable: bool): Option<Verdict> {
    if FilesPresent(d) && !read.Unreadable? && HeadOf(read) != landed && walkable then VerifyAt(d, HeadOf(read))
    else None
  }

  /** `settleCheckpoint`. */
  function SettleCheckpoint(st: State, io: Io): (done: Done)
    requires !Unended(st.disk) && st.writer.landedDigest.Some?
    ensures done.ok ==> !Unended(done.state.disk) && done.state.writer.landedDigest.Some?
    ensures done.state.disk.cuts == st.disk.cuts && done.state.disk.archives == st.disk.archives
    ensures done.state.stored == st.stored
  {
    if !st.writer.hasPort then Done(st.(writer := st.writer.(cp := None)), true)
    else
      var (read, known) := ReadPort(st, io.checkpointReachable);
      var w := known.writer;
      var walk := SettleWalk(st.disk, read, w.landedDigest, io.walkable);
      var settled := SettleMode(read, SettleFacts(FilesPresent(st.disk), w.landedDigest, walk));
      var establishedAtMs := if read.Active? then read.checkpoint.establishedAtMs else io.nowMs;
      if settled.mode.Reset? then
        var row := Row(Integrity(io.ids + 1, HistoryReset(read.checkpoint.retiredPosition)), Genesis);
        var disk := AppendLine(st.disk, row, io.reset);
        if !io.reset.Whole? then Done(known.(disk := disk), false)
        else
          Done(known.(disk := disk,
                      writer := w.(landedDigest := Some(Of(row)),
                                   cp := Some(Tracking(Reset, 1, AfterReset, establishedAtMs)))), true)
      else
        var origin := if settled.mode.Adopt? then Adopted
                      else if read.Active? then read.checkpoint.origin else NewHistory;
        Done(known.(writer := w.(cp := Some(Tracking(settled.mode, settled.position, origin, establishedAtMs)))), true)
  }

  /** `checkTail`. */
  function CheckTail(st: State, io: Io): (done: Done)
    ensures done.ok ==> !Unended(done.state.disk) && done.state.writer.landedDigest.Some?
    ensures done.state.disk.cuts == st.disk.cuts && done.state.disk.archives == st.disk.archives
    ensures done.state.stored == st.stored
  {
    var r := RepairTail(st.disk, io);
    if !r.ok then Done(st.(disk := r.disk), false)
    else
      var settled := SettleCheckpoint(st.(disk := r.disk, writer := st.writer.(landedDigest := r.landed)), io);
      if !settled.ok then settled
      else Done(settled.state.(writer := settled.state.writer.(tailCheckOwed := false)), true)
  }

  // ---------------------------------------------------------------------------
  // The steps.
  // ---------------------------------------------------------------------------

  /** A tail check is owed under this fence: none has run, or another fence was held since the last row. */
  predicate Owes(w: Writer, fence: nat) {
    w.tailCheckOwed || w.writtenUnderFence != Some(fence)
  }

  /** What a write step needs of the files when it makes no tail check: the live log ends with its newline. */
  predicate Ready(st: State, fence: nat) {
    CutsEnded(st.disk) && (!Owes(st.writer, fence) ==> !Unended(st.disk))
  }

  function OweTailCheck(st: State): State {
    st.(writer := st.writer.(tailCheckOwed := true))
  }

  /** The writer notes a break its own prune made. */
  function Noting(w: Writer, broke: bool): Writer {
    w.(chainBrokenNoted := w.chainBrokenNoted || broke)
  }

  /** One row written with the link the writer holds, and the link moved forward when it lands. */
  function LandRow(s: State, fence: nat, body: Body, io: Io): Done
    requires CutsEnded(s.disk) && !Unended(s.disk)
  {
    var row := Row(body, s.writer.landedDigest.GetOr(Genesis));
    var disk := DoWrite(s.disk, row, io);
    var w := Noting(s.writer, RotateBreaks(s.disk, io));
    if !io.row.Whole? then Done(OweTailCheck(s.(disk := disk, writer := w)), false)
    else
      var cp := if w.cp.Some? then Some(w.cp.value.(position := w.cp.value.position + 1)) else None;
      Done(s.(disk := disk,
              writer := w.(landedDigest := Some(Of(row)), writtenUnderFence := Some(fence), cp := cp)), true)
  }

  /** One row written under `fence`, after a tail check when one is owed. */
  function WriteRow(st: State, fence: nat, body: Body, io: Io): Done
    requires Ready(st, fence)
  {
    var checked := if Owes(st.writer, fence) then CheckTail(OweTailCheck(st), io) else Done(st, true);
    if !checked.ok then checked else LandRow(checked.state, fence, body, io)
  }

  /** `writeStep`: refused without a fence. */
  function WriteStep(st: State, fence: Option<nat>, io: Io): Done
    requires fence.Some? ==> Ready(st, fence.value)
  {
    if fence.None? then Done(st, false) else WriteRow(st, fence.value, Event(io.ids + 2), io)
  }

  /** `advanceCheckpoint`: the row that just landed becomes the head. */
  function AdvanceCheckpoint(st: State, writable: bool, nowMs: int): State {
    var w := st.writer;
    if w.cp.None? || !w.hasPort || w.landedDigest.None? || !Advances(w.cp.value.mode) then st
    else
      var cp := w.cp.value;
      var establishedAtMs := if cp.mode.Track? then cp.establishedAtMs else nowMs;
      if w.portBlocked || !writable then st.(writer := w.(cp := Some(cp.(mode := Off))))
      else
        State(st.disk,
              Active(HeadCheckpoint(cp.origin, w.landedDigest.value, cp.position, establishedAtMs, nowMs, 0, 0)),
              w.(cp := Some(cp.(mode := Track, establishedAtMs := establishedAtMs))))
  }

  datatype Noted = NoOp | NotOwner | NotVerified | WriteFailed | Recovered
  datatype NoteDone = NoteDone(state: State, result: Noted)

  /** `noteChainVerified`, up to the advance that follows it whatever it answers.  `brokenKnown` is whether
      the step still finds a break noted, here or on the health surface. */
  function NoteVerified(st: State, fence: Option<nat>, brokenKnown: bool, io: Io): NoteDone
    requires fence.Some? ==> Ready(st, fence.value)
  {
    if !brokenKnown then NoteDone(st, NoOp)
    else if fence.None? then NoteDone(st, NotOwner)
    else
      var (read, known) := ReadPort(st, io.checkpointReachable);
      var walk := if io.walkable then VerifyAt(st.disk, HeadOf(read)) else None;
      if walk.None? || walk.value.Failed? || ReportsLoss(ClassifyLoss(read, walk)) then NoteDone(known, NotVerified)
      else
        var condition := ChainVerified(walk.value.entries, walk.value.cuts);
        var written := WriteRow(known, fence.value, Integrity(io.ids + 2, condition), io);
        if !written.ok then NoteDone(OweTailCheck(written.state), WriteFailed)
        else NoteDone(written.state.(writer := written.state.writer.(chainBrokenNoted := false)), Recovered)
  }

  datatype RetireResult = RetireNotOwner | RetireFilesPresent | RetireAbsent | RetireUnavailable | RetiredNow
  datatype RetireDone = RetireDone(state: State, result: RetireResult)

  /** `retireCheckpoint`. */
  function RetireCheckpoint(st: State, fence: Option<nat>, io: Io): RetireDone {
    if fence.None? then RetireDone(st, RetireNotOwner)
    else if FilesPresent(st.disk) then RetireDone(st, RetireFilesPresent)
    else
      var (read, known) := ReadPort(st, io.checkpointReachable);
      if read.Absent? || read.Retired? then RetireDone(known, RetireAbsent)
      else if read.Unreadable? || !io.checkpointWritable then RetireDone(known, RetireUnavailable)
      else
        var c := read.checkpoint;
        RetireDone(
          OweTailCheck(known.(stored := Retired(c.(headDigest := Other(0), position := 0, updatedAtMs := io.nowMs,
                                                   retiredAtMs := io.nowMs, retiredPosition := c.position)))),
          RetiredNow)
  }

  datatype ReanchorResult = Reanchored | ReanchorNotOwner | NoChain | ChainBroken | UnreadableRefused | Unavailable
  datatype ReanchorDone = ReanchorDone(state: State, result: ReanchorResult)

  /** `reanchorCheckpoint`: the verified head becomes the checkpoint, on the record. */
  function ReanchorCheckpoint(st: State, fence: Option<nat>, allowOverwriteUnreadable: bool, io: Io): ReanchorDone
    requires CutsEnded(st.disk)
  {
    if fence.None? then ReanchorDone(st, ReanchorNotOwner)
    else if !st.writer.hasPort || !io.walkable then ReanchorDone(st, Unavailable)
    else
      var walk := VerifyAt(st.disk, None);
      if walk.None? then ReanchorDone(st, NoChain)
      else if walk.value.Failed? then ReanchorDone(st, ChainBroken)
      else
        var (read, known) := ReadPort(st, io.checkpointReachable);
        if read.Unreadable? && read.reason.Unreachable? then ReanchorDone(known, Unavailable)
        else if read.Unreadable? && !allowOverwriteUnreadable then ReanchorDone(known, UnreadableRefused)
        else ReanchorOnto(known, fence.value, walk.value.positions.tail + 1, allowOverwriteUnreadable, io)
  }

  /** The end of the log as a re-anchoring finds it: terminated when it lacks its newline, and linked to. */
  function ReanchorEnd(d: Disk, io: Io): (r: Repaired)
    ensures r.ok ==> r.landed.Some? && !Unended(r.disk)
    ensures r.disk.cuts == d.cuts
  {
    var last := LastItem(Entries(d));
    var ended := if Unended(d) then AppendNewline(d, io.newline) else d;
    if !io.tailReadable then Repaired(d, None, false)
    else if Unended(ended) then Repaired(ended, None, false)
    else Repaired(ended,
                  Some(if last.None? then ChosenLink(d) else if Parses(last.value) then Of(last.value) else Genesis),
                  true)
  }

  /** The row of a re-anchoring. */
  function ReanchorRow(st: State, fence: nat, newPosition: int, io: Io): (done: Done)
    requires CutsEnded(st.disk)
    ensures done.ok ==> done.state.writer.landedDigest.Some?
  {
    var end := ReanchorEnd(st.disk, io);
    if !end.ok then Done(OweTailCheck(st.(disk := end.disk)), false)
    else
      var row := Row(Integrity(io.ids, CheckpointReanchored(newPosition)), end.landed.value);
      var disk := DoWrite(end.disk, row, io);
      var w := Noting(st.writer, RotateBreaks(end.disk, io));
      if !io.row.Whole? then Done(OweTailCheck(st.(disk := disk, writer := w)), false)
      else
        Done(st.(disk := disk,
                 writer := w.(landedDigest := Some(Of(row)), writtenUnderFence := Some(fence), tailCheckOwed := false)),
             true)
  }

  /** The row and the checkpoint of a re-anchoring, its checks passed. */
  function ReanchorOnto(st: State, fence: nat, newPosition: int, force: bool, io: Io): ReanchorDone
    requires CutsEnded(st.disk)
  {
    var done := ReanchorRow(st, fence, newPosition, io);
    var w := done.state.writer;
    if !done.ok then ReanchorDone(done.state, Unavailable)
    else if (w.portBlocked && !force) || !io.checkpointWritable then
      ReanchorDone(done.state.(writer := w.(cp := Some(Tracking(Off, newPosition, AfterReset, io.nowMs)))), Unavailable)
    else
      ReanchorDone(
        State(done.state.disk,
              Active(HeadCheckpoint(AfterReset, w.landedDigest.value, newPosition, io.nowMs, io.nowMs, 0, 0)),
              w.(cp := Some(Tracking(Track, newPosition, AfterReset, io.nowMs)), portBlocked := false)),
        Reanchored)
  }

  /** `runArchiveMaintenance`. */
  function RunMaintenance(st: State, fence: Option<nat>, io: Io): State
    requires CutsEnded(st.disk)
  {
    if fence.None? || st.writer.maintenanceRan then st
    else st.(disk := PruneArchives(st.disk, io.budget, io.prune, io.nowMs),
             writer := Noting(st.writer.(maintenanceRan := true), PruneBreaks(st.disk, io.budget, io.prune, io.nowMs)))
  }
}
