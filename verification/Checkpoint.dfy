/** The head checkpoint: the digest and position of the newest landed row, kept outside the workspace. */
module Checkpoint {
  import opened Common
  import opened ChainLines
  import opened ChainWalk

  datatype Origin = NewHistory | Adopted | AfterReset

  /** A stored checkpoint.  A retired one keeps when, and at which position, it was retired. */
  datatype HeadCheckpoint = HeadCheckpoint(
    origin: Origin,
    headDigest: Digest,
    position: int,
    establishedAtMs: int,
    updatedAtMs: int,
    retiredAtMs: int,
    retiredPosition: int)

  datatype Unreadability = Corrupt | VersionUnknown | Unreachable

  datatype CheckpointRead =
    | Absent
    | Active(checkpoint: HeadCheckpoint)
    | Retired(checkpoint: HeadCheckpoint)
    | Unreadable(reason: Unreadability)

  datatype ShorterDetail = TailRemoved | HeadAbsent

  datatype NotPerformedReason = CheckpointUnreadable(reason: Unreadability) | ChainNotIntact

  datatype LossState =
    | NewWorkspace
    | Consistent(position: int)
    | AdoptedSince(position: int, adoptedAtMs: int)
    | Shorter(expected: int, found: int, detail: ShorterDetail)
    | Missing(expected: int)
    | NoCheckpointForLocation
    | NotPerformed(why: NotPerformedReason)

  /** The walk finds the head where the checkpoint says, or retention has removed that position. */
  predicate Reaches(p: Positions, position: int) {
    (p.probe.Some? && p.probe.value.foundAt == Some(position)) || position <= p.prunedThrough
  }

  /** `classifyLoss`, first match first. */
  function ClassifyLoss(read: CheckpointRead, check: Option<Verdict>): LossState {
    if read.Unreadable? then NotPerformed(CheckpointUnreadable(read.reason))
    else if check.Some? && check.value.Failed? then NotPerformed(ChainNotIntact)
    else if !read.Active? then
      if check.None? then NewWorkspace else NoCheckpointForLocation
    else
      var position := read.checkpoint.position;
      if check.None? then Missing(position)
      else
        var found := check.value.positions;
        if Reaches(found, position) then
          if read.checkpoint.origin.Adopted? then AdoptedSince(position, read.checkpoint.establishedAtMs)
          else Consistent(position)
        else Shorter(position, found.tail, if found.tail < position then TailRemoved else HeadAbsent)
  }

  /** A verification reports lost history. */
  predicate ReportsLoss(s: LossState) {
    s.Shorter? || s.Missing?
  }

  datatype Mode = New | Adopt | Track | Loss | Reset | Off

  datatype Settlement = Settlement(mode: Mode, position: int)

  datatype SettleFacts = SettleFacts(filesPresent: bool, tailDigest: Option<Digest>, walk: Option<Verdict>)

  /** `settleCheckpointMode`. */
  function SettleMode(read: CheckpointRead, facts: SettleFacts): Settlement {
    if read.Unreadable? then Settlement(Off, 0)
    else
      var intact := facts.walk.Some? && facts.walk.value.Intact?;
      if !read.Active? then
        if !facts.filesPresent then Settlement(if read.Retired? then Reset else New, 0)
        else if intact then Settlement(Adopt, facts.walk.value.positions.tail)
        else Settlement(Off, 0)
      else
        var head, position := read.checkpoint.headDigest, read.checkpoint.position;
        if !facts.filesPresent then Settlement(Loss, 0)
        else if facts.tailDigest == Some(head) then Settlement(Track, position)
        else if !intact then Settlement(Off, 0)
        else if Reaches(facts.walk.value.positions, position) then Settlement(Track, facts.walk.value.positions.tail)
        else Settlement(Loss, 0)
  }

  /** The modes in which landed rows move the checkpoint. */
  predicate Advances(mode: Mode) {
    !mode.Loss? && !mode.Off?
  }

  /** The writer settles for `loss` exactly when a verification with the same facts reports a loss, the
      cheap answer that the head is the tail apart. */
  lemma LossModeIsReportedLoss(read: CheckpointRead, facts: SettleFacts)
    requires facts.filesPresent <==> facts.walk.Some?
    requires !(read.Active? && facts.filesPresent && facts.tailDigest == Some(read.checkpoint.headDigest))
    ensures SettleMode(read, facts).mode.Loss? <==> ReportsLoss(ClassifyLoss(read, facts.walk))
  {
  }
}
