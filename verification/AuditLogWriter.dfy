/** `AuditLogWriter` as the source has it: one object whose methods change its fields, the files of the audit
    directory and the stored checkpoint.  Each method does what `WriterSteps` says of the state. */
module AuditLogWriters {
  import opened Common
  import opened ChainLines
  import opened ChainWalk
  import opened ChainCuts
  import opened AuditDisk
  import opened Retention
  import opened Checkpoint
  import opened WriterSteps

  /** The files. */
  class AuditDirectory {
    var cuts: Option<File>
    var archives: seq<Archive>
    var live: Option<File>

    function Contents(): Disk
      reads this
    {
      Disk(cuts, archives, live)
    }

    constructor (d: Disk)
      ensures Contents() == d
    {
      cuts, archives, live := d.cuts, d.archives, d.live;
    }

    /** `appendBytes` of one line: open for append, write, count the bytes written. */
    method AppendBytes(line: Line, landing: Landing) returns (ok: bool)
      requires !Unended(Contents()) && !line.Blank?
      modifies this`live
      ensures Contents() == AppendLine(old(Contents()), line, landing)
      ensures ok <==> landing.Whole?
    {
      if landing.Refused? {
        return false;
      }
      if live.None? {
        live := Some([Blank]);
      }
      var start := live.value[..|live.value| - 1];
      match landing {
        case Nothing =>
        case TornAt(first, rest) => live := Some(start + [Torn(first, rest)]);
        case NoNewline => live := Some(start + [line]);
        case Whole => live := Some(start + [line, Blank]);
      }
      ok := landing.Whole?;
    }

    /** `appendBytes` of the newline the last line lacks. */
    method EndLine(landing: Landing) returns (ok: bool)
      requires Unended(Contents())
      modifies this`live
      ensures Contents() == AppendNewline(old(Contents()), landing)
      ensures ok <==> landing.Whole?
    {
      ok := landing.Whole?;
      if ok {
        live := Some(live.value + [Blank]);
      }
    }

    method Unlink(stamp: int)
      modifies this`archives
      ensures archives == Drop(old(archives), {stamp})
    {
      archives := DropKept(archives, {stamp});
    }
  }

  /** Unlinking one more. */
  lemma {:induction false} DropMore(xs: seq<Archive>, gone: set<int>, stamp: int)
    ensures Drop(Drop(xs, gone), {stamp}) == Drop(xs, gone + {stamp})
  {
    if |xs| > 0 {
      DropMore(xs[1..], gone, stamp);
      var kept := Drop(xs[1..], gone);
      if xs[0].stamp in gone {
        assert Drop(xs, gone) == kept;
      } else {
        assert Drop(xs, gone) == [xs[0]] + kept;
        assert ([xs[0]] + kept)[1..] == kept;
      }
    }
  }

  lemma {:induction false} DropNone(xs: seq<Archive>)
    ensures Drop(xs, {}) == xs
  {
    if |xs| > 0 {
      DropNone(xs[1..]);
    }
  }

  function Summaries(archives: seq<Archive>): (s: seq<Summary>)
    ensures |s| == |archives|
  {
    seq(|archives|, i requires 0 <= i < |archives| => Summarise(EMPTY, archives[i].lines))
  }

  /** `fs.unlink` on each archive in turn, its summary merged, until one fails. */
  method UnlinkAll(dir: AuditDirectory, verified: seq<Archive>, summaries: seq<Summary>, unlinked: nat)
    returns (total: AuditCutAccumulator)
    requires summaries == Summaries(verified)
    modifies dir`archives
    ensures fresh(total)
    ensures var gone := Upto(verified, unlinked);
            && total.Value() == MergeAll(Bodies(gone))
            && dir.archives == Drop(old(dir.archives), Stamps(gone))
  {
    total := new AuditCutAccumulator();
    DropNone(dir.archives);
    assert Stamps([]) == {};
    assert verified[..0] == [];
    var i: nat := 0;
    while i < |verified| && i < unlinked
      invariant 0 <= i <= |verified| && i <= unlinked
      invariant fresh(total)
      invariant total.Value() == MergeAll(Bodies(verified[..i]))
      invariant dir.archives == Drop(old(dir.archives), Stamps(verified[..i]))
    {
      dir.Unlink(verified[i].stamp);
      total.MergeFrom(summaries[i]);
      OneMoreGone(old(dir.archives), verified, i);
      i := i + 1;
    }
    if i == |verified| {
      assert verified[..i] == verified;
    }
  }

  lemma OneMoreGone(xs: seq<Archive>, verified: seq<Archive>, i: nat)
    requires i < |verified|
    ensures Drop(Drop(xs, Stamps(verified[..i])), {verified[i].stamp}) == Drop(xs, Stamps(verified[..i + 1]))
    ensures MergeAll(Bodies(verified[..i + 1]))
            == Merge(MergeAll(Bodies(verified[..i])), Summarise(EMPTY, verified[i].lines))
  {
    var some, more := verified[..i], verified[..i + 1];
    DropMore(xs, Stamps(some), verified[i].stamp);
    assert Stamps(more) == Stamps(some) + {verified[i].stamp} by {
      forall s | s in Stamps(more) ensures s in Stamps(some) + {verified[i].stamp} {
        var k :| 0 <= k < |more| && more[k].stamp == s;
        if k < i {
          assert some[k] == more[k];
        }
      }
      forall s | s in Stamps(some) ensures s in Stamps(more) {
        var k :| 0 <= k < |some| && some[k].stamp == s;
        assert more[k].stamp == s;
      }
      assert more[i].stamp in Stamps(more);
    }
    assert Bodies(more)[..i] == Bodies(some);
    assert Bodies(more)[i] == verified[i].lines;
  }

  /** Each candidate is read and summarised, oldest first, until one is refused. */
  method ReadCandidates(candidates: seq<Archive>, readable: nat)
    returns (verified: seq<Archive>, summaries: seq<Summary>, needed: bool)
    ensures verified == Upto(candidates, readable)
    ensures summaries == Summaries(verified)
    ensures needed <==> AnyNeedsCut(verified)
  {
    verified, summaries, needed := [], [], false;
    var i: nat := 0;
    while i < |candidates| && i < readable
      invariant 0 <= i <= |candidates| && i <= readable
      invariant verified == candidates[..i]
      invariant summaries == Summaries(verified)
      invariant needed <==> AnyNeedsCut(verified)
    {
      var acc := new AuditCutAccumulator();
      acc.AppendLines(candidates[i].lines);
      if acc.removedFrom.Some? || acc.removedLegacy > 0 {
        needed := true;
      }
      NeedsOneMore(verified, candidates[i]);
      assert NeedsCut(candidates[i]) <==> acc.removedFrom.Some? || acc.removedLegacy > 0;
      verified := verified + [candidates[i]];
      summaries := summaries + [acc.Value()];
      assert verified[|verified| - 1] == candidates[i];
      i := i + 1;
    }
    if i == |candidates| {
      assert candidates[..i] == candidates;
    }
  }

  /** The archives a prune reads before it unlinks any. */
  method SelectForPrune(archives: seq<Archive>, budget: Budget, readable: nat, nowMs: int)
    returns (verified: seq<Archive>, summaries: seq<Summary>, needed: bool)
    ensures verified == Upto(Candidates(archives, budget, nowMs), readable)
    ensures summaries == Summaries(verified)
    ensures needed <==> AnyNeedsCut(verified)
    ensures verified == [] ==> !needed
  {
    hide Candidates;
    var candidates := PruneCandidates(archives, budget, nowMs);
    if |candidates| == 0 {
      return [], [], false;
    }
    verified, summaries, needed := ReadCandidates(candidates, readable);
  }

  lemma NeedsOneMore(verified: seq<Archive>, next: Archive)
    ensures AnyNeedsCut(verified + [next]) <==> AnyNeedsCut(verified) || NeedsCut(next)
  {
    var more := verified + [next];
    if AnyNeedsCut(verified) {
      var i :| 0 <= i < |verified| && NeedsCut(verified[i]);
      assert NeedsCut(more[i]);
    }
    if NeedsCut(next) {
      assert NeedsCut(more[|verified|]);
    }
  }

  /** The record of the checkpoint kept outside the workspace. */
  class CheckpointFile {
    var stored: CheckpointRead

    constructor (read: CheckpointRead)
      ensures stored == read
    {
      stored := read;
    }
  }

  class AuditLogWriter {
    const dir: AuditDirectory
    const store: CheckpointFile
    const hasPort: bool

    var landedDigest: Option<Digest>
    var tailCheckOwed: bool
    var writtenUnderFence: Option<nat>
    var cp: Option<Tracking>
    var chainBrokenNoted: bool
    var maintenanceRan: bool
    var portBlocked: bool

    function Fields(): Writer
      reads this
    {
      Writer(landedDigest, tailCheckOwed, writtenUnderFence, cp, chainBrokenNoted, maintenanceRan, hasPort, portBlocked)
    }

    /** The fields, the files and the stored checkpoint together. */
    function Current(): State
      reads this, dir, store
    {
      State(dir.Contents(), store.stored, Fields())
    }

    constructor (dir: AuditDirectory, store: CheckpointFile, hasPort: bool)
      ensures this.dir == dir && this.store == store
      ensures Fields() == NewWriter(hasPort)
    {
      this.dir, this.store, this.hasPort := dir, store, hasPort;
      landedDigest, tailCheckOwed, writtenUnderFence, cp := None, true, None, None;
      chainBrokenNoted, maintenanceRan, portBlocked := false, false, false;
    }

    // -------------------------------------------------------------------------
    // The files.
    // -------------------------------------------------------------------------

    /** `pruneArchives`: when the cut record cannot be written, a break is noted. */
    method PruneArchives(budget: Budget, io: PruneIo, nowMs: int)
      requires CutsEnded(dir.Contents())
      modifies this`chainBrokenNoted, dir
      ensures dir.Contents() == WriterSteps.PruneArchives(old(dir.Contents()), budget, io, nowMs)
      ensures Fields() == Noting(old(Fields()), PruneBreaks(old(dir.Contents()), budget, io, nowMs))
    {
      hide AnyNeedsCut, Candidates, Stamps, Drop, Finalize, MergeAll, Bodies, AppendCut;
      var verified, summaries, needed := SelectForPrune(dir.archives, budget, io.readable, nowMs);
      if |verified| == 0 {
        return;
      }
      if needed {
        if !io.cutsOpen {
          return;
        }
        if dir.cuts.None? {
          dir.cuts := Some([Blank]);
        }
      }
      var total := UnlinkAll(dir, verified, summaries, io.unlinked);
      var record := Finalize(total.Value(), nowMs);
      if record.Some? && needed {
        if io.cutWritten {
          dir.cuts := Some(AppendCut(dir.cuts.value, record.value));
        } else {
          chainBrokenNoted := true;
        }
      }
    }

    /** `maybeRotate`. */
    method MaybeRotate(io: Io)
      requires CutsEnded(dir.Contents())
      modifies this`chainBrokenNoted, dir
      ensures dir.Contents() == WriterSteps.MaybeRotate(old(dir.Contents()), io)
      ensures Fields() == Noting(old(Fields()), RotateBreaks(old(dir.Contents()), io))
    {
      hide WriterSteps.PruneArchives, PruneBreaks, CutsEnded;
      var last := LastItem(LiveLines(dir.Contents()));
      if io.rotation.None? || last.None? {
        return;
      }
      dir.archives := dir.archives + [Archive(io.rotation.value.stamp, io.rotation.value.mtimeMs, dir.live.value)];
      dir.live := None;
      CutsAsBefore(old(dir.Contents()), dir.Contents());
      PruneArchives(io.budget, io.prune, io.nowMs);
    }

    /** `doWrite`. */
    method DoWrite(row: Line, io: Io) returns (ok: bool)
      requires CutsEnded(dir.Contents()) && !Unended(dir.Contents()) && row.Row?
      modifies this`chainBrokenNoted, dir
      ensures dir.Contents() == WriterSteps.DoWrite(old(dir.Contents()), row, io)
      ensures Fields() == Noting(old(Fields()), RotateBreaks(old(dir.Contents()), io))
      ensures ok <==> io.row.Whole?
    {
      hide WriterSteps.MaybeRotate, RotateBreaks, AppendLine;
      MaybeRotate(io);
      ok := dir.AppendBytes(row, io.row);
    }

    // -------------------------------------------------------------------------
    // The checkpoint.
    // -------------------------------------------------------------------------

    /** `port.read()`, a failure read as unreachable; the port remembers an unreadable file. */
    method ReadCheckpoint(reachable: bool) returns (read: CheckpointRead)
      modifies this`portBlocked
      ensures (read, Current()) == ReadPort(old(Current()), reachable)
    {
      if !hasPort {
        return Unreadable(Unreachable);
      }
      read := if reachable then store.stored else Unreadable(Unreachable);
      portBlocked := read.Unreadable?;
    }

    /** `verifyAuditChainThrough`, when the files can be read. */
    method WalkChain(probe: Option<Digest>, walkable: bool) returns (walk: Option<Verdict>)
      ensures walk == if walkable then VerifyAt(dir.Contents(), probe) else None
    {
      if !walkable || !FilesPresent(dir.Contents()) {
        return None;
      }
      var verdict := VerifyChain(AllLines(dir.Contents()), probe);
      walk := Some(verdict);
    }

    /** `settleCheckpoint`. */
    method SettleCheckpoint(io: Io) returns (ok: bool)
      requires !Unended(dir.Contents()) && landedDigest.Some?
      modifies this`landedDigest, this`cp, this`portBlocked, dir`live
      ensures Done(Current(), ok) == WriterSteps.SettleCheckpoint(old(Current()), io)
    {
      hide VerifyAt, SettleMode, AppendLine, Unended, FilesPresent;
      if !hasPort {
        cp := None;
        return true;
      }
      var read := ReadCheckpoint(io.checkpointReachable);
      var filesPresent := FilesPresent(dir.Contents());
      var head := HeadOf(read);
      var walk: Option<Verdict> := None;
      if filesPresent && !read.Unreadable? && head != landedDigest {
        walk := WalkChain(head, io.walkable);
      }
      var settled := SettleMode(read, SettleFacts(filesPresent, landedDigest, walk));
      ResetIsOfRetired(read, SettleFacts(filesPresent, landedDigest, walk));
      var position := settled.position;
      if settled.mode.Reset? {
        var row := Row(Integrity(io.ids + 1, HistoryReset(read.checkpoint.retiredPosition)), Genesis);
        ok := dir.AppendBytes(row, io.reset);
        if !ok {
          return;
        }
        landedDigest := Some(Of(row));
        position := 1;
      }
      var origin := if settled.mode.Adopt? then Adopted
                    else if settled.mode.Reset? then AfterReset
                    else if read.Active? then read.checkpoint.origin
                    else NewHistory;
      cp := Some(Tracking(settled.mode, position, origin,
                          if read.Active? then read.checkpoint.establishedAtMs else io.nowMs));
      ok := true;
    }

    /** `advanceCheckpoint`. */
    method AdvanceCheckpoint(writable: bool, nowMs: int)
      modifies this`cp, store
      ensures Current() == WriterSteps.AdvanceCheckpoint(old(Current()), writable, nowMs)
    {
      if cp.None? || !hasPort || landedDigest.None? {
        return;
      }
      if cp.value.mode.Loss? || cp.value.mode.Off? {
        return;
      }
      var establishedAtMs := if cp.value.mode.Track? then cp.value.establishedAtMs else nowMs;
      if portBlocked || !writable {
        cp := Some(cp.value.(mode := Off));
        return;
      }
      store.stored := Active(HeadCheckpoint(cp.value.origin, landedDigest.value, cp.value.position, establishedAtMs,
          nowMs, 0, 0));
      cp := Some(cp.value.(mode := Track, establishedAtMs := establishedAtMs));
    }

    // -------------------------------------------------------------------------
    // The tail check and the steps.
    // -------------------------------------------------------------------------

    /** `recordDamage`. */
    method RecordDamage(damaged: Line, previous: Option<Digest>, io: Io) returns (ok: bool)
      requires damaged.Torn? && !Unended(dir.Contents())
      modifies this`landedDigest, dir`live
      ensures var row := DamageRow(io.ids, damaged, previous.GetOr(Genesis));
              && dir.Contents() == AppendLine(old(dir.Contents()), row, io.damage)
              && (ok <==> io.damage.Whole?)
              && landedDigest == if ok then Some(Of(row)) else old(landedDigest)
    {
      var row := DamageRow(io.ids, damaged, previous.GetOr(Genesis));
      ok := dir.AppendBytes(row, io.damage);
      if ok {
        landedDigest := Some(Of(row));
      }
    }

    /** The part of `checkTail` before the checkpoint. */
    method RepairTail(io: Io) returns (ok: bool)
      modifies this`landedDigest, dir`live
      ensures var r := WriterSteps.RepairTail(old(dir.Contents()), io);
              && dir.Contents() == r.disk
              && ok == r.ok
              && landedDigest == if ok then r.landed else old(landedDigest)
    {
      if !io.tailReadable {
        return false;
      }
      var tail := ReadChainTail(dir.Contents());
      TailSays(dir.Contents(), tail);
      hide Unended, LastItem, Entries, DescribesEnd, PreviousLink, AppendLine, AppendNewline;
      if tail.None? {
        var link := ReadCutLink(dir.Contents());
        landedDigest := Some(link.GetOr(Genesis));
        return true;
      }
      if !tail.value.endsWithNewline && tail.value.file.Live? {
        ok := dir.EndLine(io.newline);
        if !ok {
          return;
        }
      }
      if tail.value.valid {
        landedDigest := tail.value.digest;
        ok := true;
      } else {
        ok := RecordDamage(tail.value.content, tail.value.previousDigest, io);
      }
    }

    /** `checkTail`. */
    method CheckTail(io: Io) returns (ok: bool)
      modifies this`landedDigest, this`tailCheckOwed, this`cp, this`portBlocked, dir`live
      ensures Done(Current(), ok) == WriterSteps.CheckTail(old(Current()), io)
    {
      hide WriterSteps.RepairTail, WriterSteps.SettleCheckpoint, Unended;
      ok := RepairTail(io);
      if !ok {
        return;
      }
      ok := SettleCheckpoint(io);
      if ok {
        tailCheckOwed := false;
      }
    }

    method LandRow(fence: nat, body: Body, io: Io) returns (ok: bool)
      requires CutsEnded(dir.Contents()) && !Unended(dir.Contents())
      modifies this, dir
      ensures Done(Current(), ok) == WriterSteps.LandRow(old(Current()), fence, body, io)
    {
      hide WriterSteps.DoWrite, RotateBreaks, CutsEnded, Unended;
      var row := Row(body, landedDigest.GetOr(Genesis));
      ok := DoWrite(row, io);
      if !ok {
        tailCheckOwed := true;
        return;
      }
      landedDigest := Some(Of(row));
      writtenUnderFence := Some(fence);
      if cp.Some? {
        cp := Some(cp.value.(position := cp.value.position + 1));
      }
    }

    method WriteRow(fence: nat, body: Body, io: Io) returns (ok: bool)
      requires Ready(Current(), fence)
      modifies this, dir
      ensures Done(Current(), ok) == WriterSteps.WriteRow(old(Current()), fence, body, io)
    {
      hide WriterSteps.CheckTail, WriterSteps.LandRow, Unended;
      if writtenUnderFence != Some(fence) {
        tailCheckOwed := true;
      }
      if tailCheckOwed {
        CutsAsBefore(old(dir.Contents()), dir.Contents());
        ok := CheckTail(io);
        if !ok {
          return;
        }
        CutsAsBefore(old(dir.Contents()), dir.Contents());
      }
      ok := LandRow(fence, body, io);
    }

    /** `writeStep`. */
    method WriteStep(fence: Option<nat>, io: Io) returns (ok: bool)
      requires fence.Some? ==> Ready(Current(), fence.value)
      modifies this, dir
      ensures Done(Current(), ok) == WriterSteps.WriteStep(old(Current()), fence, io)
    {
      if fence.None? {
        return false;
      }
      ok := WriteRow(fence.value, Event(io.ids + 2), io);
    }

    /** `noteChainVerified`. */
    method NoteChainVerified(fence: Option<nat>, brokenKnown: bool, io: Io) returns (result: Noted)
      requires fence.Some? ==> Ready(Current(), fence.value)
      modifies this, dir
      ensures NoteDone(Current(), result) == NoteVerified(old(Current()), fence, brokenKnown, io)
    {
      hide WriterSteps.WriteRow, VerifyAt, ClassifyLoss, CutsEnded, Unended;
      if !brokenKnown {
        return NoOp;
      }
      if fence.None? {
        return NotOwner;
      }
      var read := ReadCheckpoint(io.checkpointReachable);
      var walk := WalkChain(HeadOf(read), io.walkable);
      if walk.None? || walk.value.Failed? {
        return NotVerified;
      }
      if ReportsLoss(ClassifyLoss(read, walk)) {
        return NotVerified;
      }
      var ok := WriteRow(fence.value, Integrity(io.ids + 2, ChainVerified(walk.value.entries, walk.value.cuts)), io);
      if !ok {
        tailCheckOwed := true;
        return WriteFailed;
      }
      chainBrokenNoted := false;
      result := Recovered;
    }

    /** `retireCheckpoint`. */
    method RetireCheckpoint(fence: Option<nat>, io: Io) returns (result: RetireResult)
      modifies this`portBlocked, this`tailCheckOwed, store
      ensures RetireDone(Current(), result) == WriterSteps.RetireCheckpoint(old(Current()), fence, io)
    {
      if fence.None? {
        return RetireNotOwner;
      }
      if FilesPresent(dir.Contents()) {
        return RetireFilesPresent;
      }
      var read := ReadCheckpoint(io.checkpointReachable);
      if read.Absent? || read.Retired? {
        return RetireAbsent;
      }
      if read.Unreadable? || !io.checkpointWritable {
        return RetireUnavailable;
      }
      store.stored := Retired(read.checkpoint.(headDigest := Other(0), position := 0, updatedAtMs := io.nowMs,
                                               retiredAtMs := io.nowMs, retiredPosition := read.checkpoint.position));
      tailCheckOwed := true;
      result := RetiredNow;
    }

    /** The link a re-anchoring row takes from the end of the log, terminated first when it lacks its newline. */
    method ReanchorLink(io: Io) returns (link: Option<Digest>)
      modifies dir`live
      ensures Repaired(dir.Contents(), link, link.Some?) == ReanchorEnd(old(dir.Contents()), io)
    {
      if !io.tailReadable {
        return None;
      }
      var tail := ReadChainTail(dir.Contents());
      TailSays(dir.Contents(), tail);
      hide LastItem, Entries, DescribesEnd, PreviousLink;
      if tail.None? {
        var cutLink := ReadCutLink(dir.Contents());
        return Some(cutLink.GetOr(Genesis));
      }
      if !tail.value.endsWithNewline && tail.value.file.Live? {
        var ok := dir.EndLine(io.newline);
        if !ok {
          return None;
        }
      }
      link := Some(tail.value.digest.GetOr(Genesis));
    }

    /** The row of a re-anchoring. */
    method WriteReanchorRow(fence: nat, newPosition: int, io: Io) returns (ok: bool)
      requires CutsEnded(dir.Contents())
      modifies this`landedDigest, this`writtenUnderFence, this`tailCheckOwed, this`chainBrokenNoted, dir
      ensures Done(Current(), ok) == ReanchorRow(old(Current()), fence, newPosition, io)
    {
      hide WriterSteps.DoWrite, RotateBreaks, ReanchorEnd, Unended, CutsEnded;
      var link := ReanchorLink(io);
      if link.None? {
        tailCheckOwed := true;
        return false;
      }
      CutsAsBefore(old(dir.Contents()), dir.Contents());
      var row := Row(Integrity(io.ids, CheckpointReanchored(newPosition)), link.value);
      ok := DoWrite(row, io);
      if !ok {
        tailCheckOwed := true;
        return;
      }
      landedDigest := Some(Of(row));
      writtenUnderFence := Some(fence);
      tailCheckOwed := false;
    }

    /** `reanchorCheckpoint`. */
    method ReanchorCheckpoint(fence: Option<nat>, allowOverwriteUnreadable: bool, io: Io)
        returns (result: ReanchorResult)
      requires CutsEnded(dir.Contents())
      modifies this, dir, store
      ensures ReanchorDone(Current(), result)
           == WriterSteps.ReanchorCheckpoint(old(Current()), fence, allowOverwriteUnreadable, io)
    {
      hide ReanchorRow, VerifyAt, CutsEnded;
      if fence.None? {
        return ReanchorNotOwner;
      }
      if !hasPort || !io.walkable {
        return Unavailable;
      }
      var walk := WalkChain(None, io.walkable);
      if walk.None? {
        return NoChain;
      }
      if walk.value.Failed? {
        return ChainBroken;
      }
      var current := ReadCheckpoint(io.checkpointReachable);
      if current.Unreadable? {
        if current.reason.Unreachable? {
          return Unavailable;
        }
        if !allowOverwriteUnreadable {
          return UnreadableRefused;
        }
      }
      var newPosition := walk.value.positions.tail + 1;
      var ok := WriteReanchorRow(fence.value, newPosition, io);
      if !ok {
        return Unavailable;
      }
      if (portBlocked && !allowOverwriteUnreadable) || !io.checkpointWritable {
        cp := Some(Tracking(Off, newPosition, AfterReset, io.nowMs));
        return Unavailable;
      }
      store.stored := Active(HeadCheckpoint(AfterReset, landedDigest.value, newPosition, io.nowMs, io.nowMs, 0, 0));
      cp := Some(Tracking(Track, newPosition, AfterReset, io.nowMs));
      portBlocked := false;
      result := Reanchored;
    }

    /** `runArchiveMaintenance`. */
    method RunArchiveMaintenance(fence: Option<nat>, io: Io)
      requires CutsEnded(dir.Contents())
      modifies this`maintenanceRan, this`chainBrokenNoted, dir
      ensures Current() == RunMaintenance(old(Current()), fence, io)
    {
      hide WriterSteps.PruneArchives, PruneBreaks, CutsEnded;
      if fence.None? || maintenanceRan {
        return;
      }
      maintenanceRan := true;
      PruneArchives(io.budget, io.prune, io.nowMs);
    }
  }

  lemma ResetIsOfRetired(read: CheckpointRead, facts: SettleFacts)
    ensures SettleMode(read, facts).mode.Reset? ==> read.Retired?
  {
  }

  /** What the end of the chain tells `checkTail`. */
  lemma TailSays(d: Disk, tail: Option<ChainTail>)
    requires DescribesEnd(d, tail)
    ensures tail.None? <==> LastItem(Entries(d)).None?
    ensures tail.None? ==> !Unended(d) && PreviousLink(d) == CutLink(d)
    ensures tail.Some? ==>
              var t := tail.value;
              && LastItem(Entries(d)) == Some(t.content)
              && (!t.endsWithNewline && t.file.Live? <==> Unended(d))
              && t.valid == Parses(t.content)
              && t.digest == (if t.valid then Some(Of(t.content)) else None)
              && (!t.valid ==> t.content.Torn? && t.previousDigest == PreviousLink(d))
  {
    LastUnendedIsItem(d);
    if tail.None? {
      NoItemNoParsed(Entries(d));
    }
  }

  lemma CutsAsBefore(d: Disk, d': Disk)
    requires CutsEnded(d) && d'.cuts == d.cuts
    ensures CutsEnded(d')
  {
  }
}
