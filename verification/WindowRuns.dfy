/** Runs of any number of windows over one audit directory and one stored checkpoint. */
module WindowRuns {
  import opened Common
  import opened ChainLines
  import opened ChainWalk
  import opened ChainFacts
  import opened ChainEvidence
  import opened AuditDisk
  import opened Retention
  import opened Checkpoint
  import opened WriterSteps
  import opened DiskHistory
  import opened WriterRuns

  /** One window: its writer, and whether the checkpoint advance of its last step is still to run.  No
      other step of the window runs before that. */
  datatype Window = Window(writer: Writer, advancing: bool)

  /** `fence` is the last one given out; `owner` the window that holds it, if one still does. */
  datatype World = World(disk: Disk, stored: CheckpointRead, windows: seq<Window>, owner: Option<nat>, fence: nat)

  datatype Step =
    | Open(hasPort: bool)
    | Restart(window: nat, hasPort: bool)
    | Acquire(window: nat)
    | Release
    | Append(window: nat, io: Io)
    | Advance(window: nat, writable: bool, nowMs: int)
    | Maintain(window: nat, io: Io)
    | NoteBreak(window: nat)
    | Note(window: nat, brokenKnown: bool, io: Io)
    | Retire(window: nat, io: Io)
    | Reanchor(window: nat, force: bool, io: Io)

  function StateOf(w: World, i: nat): State
    requires i < |w.windows|
  {
    State(w.disk, w.stored, w.windows[i].writer)
  }

  /** `currentFence` as window `i` sees it. */
  function FenceOf(w: World, i: nat): Option<nat> {
    if w.owner == Some(i) then Some(w.fence) else None
  }

  function Put(w: World, i: nat, st: State, advancing: bool): World
    requires i < |w.windows|
  {
    w.(disk := st.disk, stored := st.stored, windows := w.windows[i := Window(st.writer, advancing)])
  }

  /** The checkpoint advance would write what the writer holds. */
  predicate Moves(w: Writer) {
    w.cp.Some? && w.hasPort && w.landedDigest.Some? && Advances(w.cp.value.mode)
  }

  /** Would the checkpoint port refuse a write after `noteChainVerified`?  It remembers the last read, which
      that makes only for the owner and while a break is still known. */
  predicate PortRefuses(st: State, fence: Option<nat>, brokenKnown: bool, io: Io) {
    if fence.Some? && brokenKnown then !io.checkpointReachable || st.stored.Unreadable? else st.writer.portBlocked
  }

  /** The advance after `noteChainVerified` would write what the writer holds, told from what is there before. */
  predicate NoteStores(st: State, fence: Option<nat>, brokenKnown: bool, io: Io) {
    Moves(st.writer) && !PortRefuses(st, fence, brokenKnown, io)
  }

  /** Window `i` can take its next step, a rotation would make the newest archive, and the cut record of a
      prune gets written. */
  predicate Idle(w: World, i: nat, io: Io) {
    i < |w.windows| && !w.windows[i].advancing && OrderlyRetention(w.disk, io)
  }

  /** What the environment lets happen.  A chain verification is noted with some file present, or when
      the advance that follows would store nothing. */
  predicate Allowed(w: World, s: Step) {
    match s
    case Open(_) => true
    case Restart(i, _) => i < |w.windows|
    case Acquire(i) => i < |w.windows|
    case Release => true
    case Append(i, io) => Idle(w, i, io)
    case Advance(i, _, _) => i < |w.windows| && w.windows[i].advancing
    case Maintain(i, io) => Idle(w, i, io)
    case NoteBreak(i) => i < |w.windows|
    case Note(i, brokenKnown, io) =>
      Idle(w, i, io) && (FilesPresent(w.disk) || !NoteStores(StateOf(w, i), FenceOf(w, i), brokenKnown, io))
    case Retire(i, io) => Idle(w, i, io)
    case Reanchor(i, _, io) => Idle(w, i, io)
  }

  /** The files are as a step finds them: cut records whole, and the live log ended when no tail check is owed. */
  predicate Can(w: World, s: Step) {
    && Allowed(w, s)
    && match s
       case Append(i, _) => w.owner == Some(i) ==> Ready(StateOf(w, i), w.fence)
       case Note(i, _, _) => w.owner == Some(i) ==> Ready(StateOf(w, i), w.fence)
       case Maintain(_, _) => CutsEnded(w.disk)
       case Reanchor(_, _, _) => CutsEnded(w.disk)
       case _ => true
  }

  function Next(w: World, s: Step): World
    requires Can(w, s)
  {
    match s
    case Open(hasPort) => w.(windows := w.windows + [Window(NewWriter(hasPort), false)])
    case Restart(i, hasPort) =>
      w.(windows := w.windows[i := Window(NewWriter(hasPort), false)],
         owner := if w.owner == Some(i) then None else w.owner)
    case Acquire(i) => w.(owner := Some(i), fence := w.fence + 1)
    case Release => w.(owner := None)
    case Append(i, io) =>
      var done := WriteStep(StateOf(w, i), FenceOf(w, i), io);
      Put(w, i, done.state, done.ok)
    case Advance(i, writable, nowMs) => Put(w, i, AdvanceCheckpoint(StateOf(w, i), writable, nowMs), false)
    case Maintain(i, io) => Put(w, i, RunMaintenance(StateOf(w, i), FenceOf(w, i), io), false)
    case NoteBreak(i) =>
      w.(windows := w.windows[i := w.windows[i].(writer := w.windows[i].writer.(chainBrokenNoted := true))])
    case Note(i, brokenKnown, io) =>
      Put(w, i, NoteVerified(StateOf(w, i), FenceOf(w, i), brokenKnown, io).state, true)
    case Retire(i, io) => Put(w, i, RetireCheckpoint(StateOf(w, i), FenceOf(w, i), io).state, false)
    case Reanchor(i, force, io) =>
      Put(w, i, ReanchorCheckpoint(StateOf(w, i), FenceOf(w, i), force, io).state, false)
  }

  /** A run from `w` that takes `steps`. */
  predicate Goes(w: World, steps: seq<Step>)
    decreases |steps|
  {
    |steps| > 0 ==> Can(w, steps[0]) && Goes(Next(w, steps[0]), steps[1..])
  }

  function After(w: World, steps: seq<Step>): World
    requires Goes(w, steps)
    decreases |steps|
  {
    if |steps| == 0 then w else After(Next(w, steps[0]), steps[1..])
  }

  // ---------------------------------------------------------------------------
  // What every step keeps.
  // ---------------------------------------------------------------------------

  ghost predicate WindowSound(w: World, i: nat, history: seq<Digest>)
    requires i < |w.windows| && View(AllLines(w.disk)).Some?
  {
    var writer := w.windows[i].writer;
    && WriterSound(writer, history)
    && (writer.writtenUnderFence.Some? ==> writer.writtenUnderFence.value <= w.fence)
    && (w.owner.Some? && w.owner != Some(i) ==> writer.writtenUnderFence != Some(w.fence))
    && (w.owner == Some(i) && !Owes(writer, w.fence) ==> UpToDate(StateOf(w, i), history))
    && (w.windows[i].advancing && Moves(writer) && !writer.portBlocked ==> FilesPresent(w.disk))
  }

  ghost predicate Inv(w: World, history: seq<Digest>) {
    && DiskAt(w.disk, history)
    && Linked(history)
    && StoredSound(w.stored, w.disk, history)
    && forall i :: 0 <= i < |w.windows| ==> WindowSound(w, i, history)
  }

  /** No window has settled for loss that had not. */
  predicate NoNewLoss(w: World, w': World) {
    forall i :: 0 <= i < |w'.windows| && InLoss(w'.windows[i].writer) ==> i < |w.windows| && InLoss(w.windows[i].writer)
  }

  /** The step lands the row it is made for: an appended entry, a noted verification, or a re-anchoring. */
  predicate LandsRow(w: World, s: Step)
    requires Can(w, s)
  {
    match s
    case Append(i, io) => WriteStep(StateOf(w, i), FenceOf(w, i), io).ok
    case Note(i, brokenKnown, io) => NoteVerified(StateOf(w, i), FenceOf(w, i), brokenKnown, io).result.Recovered?
    case Reanchor(i, force, io) =>
      var done := ReanchorCheckpoint(StateOf(w, i), FenceOf(w, i), force, io);
      done.result.Reanchored? || (done.state.disk != w.disk && !done.state.writer.tailCheckOwed)
    case _ => false
  }

  /** Window `i` is up to date with the files. */
  ghost predicate CaughtUp(w: World, i: nat, history: seq<Digest>) {
    i < |w.windows| && View(AllLines(w.disk)).Some? && UpToDate(StateOf(w, i), history)
  }

  /** The damage row of a step that makes a tail check is torn. */
  predicate TearsDamageRow(s: Step) {
    match s
    case Append(_, io) => io.damage.TornAt?
    case Note(_, _, io) => io.damage.TornAt?
    case _ => false
  }

  /** The other windows after one window's step. */
  lemma OthersKeep(w: World, i: nat, st: State, advancing: bool, history: seq<Digest>, history': seq<Digest>)
    requires Inv(w, history) && i < |w.windows|
    requires DiskAt(st.disk, history') && history <= history' && (FilesPresent(w.disk) ==> FilesPresent(st.disk))
    requires Linked(history') && StoredSound(st.stored, st.disk, history')
    requires w.owner == Some(i) || (st.disk == w.disk && history' == history)
    requires WindowSound(Put(w, i, st, advancing), i, history')
    requires InLoss(st.writer) ==> InLoss(w.windows[i].writer)
    ensures Inv(Put(w, i, st, advancing), history') && NoNewLoss(w, Put(w, i, st, advancing))
  {
    hide DiskAt, View, Linked, FilesPresent, StoredSound;
    DiskIsReady(w.disk, history);
    DiskIsReady(st.disk, history');
    var w' := Put(w, i, st, advancing);
    forall k | 0 <= k < |w'.windows| ensures WindowSound(w', k, history') {
      assert WindowSound(w, k, history);
      if k != i {
        assert w'.windows[k] == w.windows[k];
      }
    }
  }

  /** What the step of window `i` found: the writer is sound, and up to date when nothing is owed. */
  lemma StepFinds(w: World, i: nat, history: seq<Digest>)
    requires Inv(w, history) && i < |w.windows|
    ensures Sound(StateOf(w, i), history) && CutsEnded(w.disk)
    ensures w.owner == Some(i) && !Owes(w.windows[i].writer, w.fence) ==> UpToDate(StateOf(w, i), history)
    ensures w.owner == Some(i) ==> Ready(StateOf(w, i), w.fence)
    ensures View(AllLines(w.disk)).Some? && WindowSound(w, i, history)
  {
    hide DiskAt, View, Linked, FilesPresent, StoredSound, WriterSound, CutsEnded, Unended;
    DiskIsReady(w.disk, history);
    assert WindowSound(w, i, history);
  }

  lemma AppendKeeps(w: World, history: seq<Digest>, i: nat, io: Io) returns (history': seq<Digest>)
    requires Inv(w, history) && Allowed(w, Append(i, io))
    ensures Can(w, Append(i, io))
    ensures var w' := Next(w, Append(i, io));
            && Inv(w', history') && history <= history'
            && Onward(w.disk, w'.disk, io.damage.TornAt?)
            && (LandsRow(w, Append(i, io)) ==> CaughtUp(w', i, history'))
    ensures NoNewLoss(w, Next(w, Append(i, io)))
  {
    hide DiskAt, View, Linked, FilesPresent, StoredSound, WriterSound, AllLines, WriteRow, UpToDate, OrderlyRetention;
    StepFinds(w, i, history);
    DiskIsReady(w.disk, history);
    var st := StateOf(w, i);
    history' := history;
    if w.owner == Some(i) {
      history' := WriteRowKeeps(st, history, w.fence, Event(io.ids + 2), io);
    }
    var done := WriteStep(st, FenceOf(w, i), io);
    DiskIsReady(done.state.disk, history');
    OthersKeep(w, i, done.state, done.ok, history, history');
  }

  lemma NoteStepKeeps(w: World, history: seq<Digest>, i: nat, brokenKnown: bool, io: Io) returns (history': seq<Digest>)
    requires Inv(w, history) && Allowed(w, Note(i, brokenKnown, io))
    ensures Can(w, Note(i, brokenKnown, io))
    ensures var w' := Next(w, Note(i, brokenKnown, io));
            && Inv(w', history') && history <= history' && Onward(w.disk, w'.disk, io.damage.TornAt?)
            && (LandsRow(w, Note(i, brokenKnown, io)) ==> CaughtUp(w', i, history'))
    ensures NoNewLoss(w, Next(w, Note(i, brokenKnown, io)))
  {
    hide DiskAt, View, Linked, StoredSound, WriterSound, AllLines, WriteRow, UpToDate, OrderlyRetention, Verify,
         ClassifyLoss;
    StepFinds(w, i, history);
    DiskIsReady(w.disk, history);
    var st := StateOf(w, i);
    history' := history;
    if w.owner == Some(i) {
      history' := NoteKeeps(st, history, w.fence, brokenKnown, io);
    }
    var done := NoteVerified(st, FenceOf(w, i), brokenKnown, io);
    DiskIsReady(done.state.disk, history');
    OthersKeep(w, i, done.state, true, history, history');
  }

  lemma ReanchorStepKeeps(w: World, history: seq<Digest>, i: nat, force: bool, io: Io) returns (history': seq<Digest>)
    requires Inv(w, history) && Allowed(w, Reanchor(i, force, io))
    ensures Can(w, Reanchor(i, force, io))
    ensures var w' := Next(w, Reanchor(i, force, io));
            && Inv(w', history') && history <= history' && Onward(w.disk, w'.disk, false)
            && (LandsRow(w, Reanchor(i, force, io)) ==> CaughtUp(w', i, history'))
    ensures NoNewLoss(w, Next(w, Reanchor(i, force, io)))
  {
    hide DiskAt, View, Linked, FilesPresent, StoredSound, WriterSound, AllLines, ReanchorCheckpoint, UpToDate,
         OrderlyRetention;
    StepFinds(w, i, history);
    DiskIsReady(w.disk, history);
    history' := history;
    if w.owner == Some(i) {
      history' := ReanchorKeeps(StateOf(w, i), history, w.fence, force, io);
    } else {
      NoFenceNoReanchor(StateOf(w, i), force, io);
    }
    var done := ReanchorCheckpoint(StateOf(w, i), FenceOf(w, i), force, io);
    DiskIsReady(done.state.disk, history');
    OthersKeep(w, i, done.state, false, history, history');
  }

  lemma NoFenceNoReanchor(st: State, force: bool, io: Io)
    requires CutsEnded(st.disk)
    ensures ReanchorCheckpoint(st, None, force, io) == ReanchorDone(st, ReanchorNotOwner)
  {
  }

  lemma AdvanceStepKeeps(w: World, history: seq<Digest>, s: Step)
    requires Inv(w, history) && Allowed(w, s) && s.Advance?
    ensures Can(w, s) && Inv(Next(w, s), history) && NoNewLoss(w, Next(w, s)) && Onward(w.disk, Next(w, s).disk, false)
  {
    hide DiskAt, View, Linked, StoredSound, WriterSound, AllLines, UpToDate, OrderlyRetention, FilesPresent;
    var i := s.window;
    StepFinds(w, i, history);
    DiskIsReady(w.disk, history);
    var st := StateOf(w, i);
    if Moves(st.writer) {
      AdvanceKeeps(st, history, s.writable, s.nowMs);
    }
    var w' := Next(w, s);
    DiskIsReady(w'.disk, history);
    OthersKeep(w, i, StateOf(w', i), false, history, history);
  }

  lemma MaintainStepKeeps(w: World, history: seq<Digest>, s: Step)
    requires Inv(w, history) && Allowed(w, s) && s.Maintain?
    ensures Can(w, s) && Inv(Next(w, s), history) && NoNewLoss(w, Next(w, s)) && Onward(w.disk, Next(w, s).disk, false)
  {
    hide DiskAt, View, Linked, StoredSound, WriterSound, AllLines, UpToDate, OrderlyRetention, FilesPresent,
         PruneArchives;
    var i := s.window;
    StepFinds(w, i, history);
    DiskIsReady(w.disk, history);
    var st := StateOf(w, i);
    NoBreakNoted(w.disk, s.io);
    MaintenanceKeeps(st, history, FenceOf(w, i), s.io);
    var w' := Next(w, s);
    DiskIsReady(w'.disk, history);
    OthersKeep(w, i, StateOf(w', i), false, history, history);
  }

  lemma RetireStepKeeps(w: World, history: seq<Digest>, s: Step)
    requires Inv(w, history) && Allowed(w, s) && s.Retire?
    ensures Can(w, s) && Inv(Next(w, s), history) && NoNewLoss(w, Next(w, s)) && Onward(w.disk, Next(w, s).disk, false)
  {
    hide DiskAt, View, Linked, StoredSound, WriterSound, AllLines, UpToDate, OrderlyRetention, FilesPresent;
    var i := s.window;
    StepFinds(w, i, history);
    DiskIsReady(w.disk, history);
    var st := StateOf(w, i);
    RetireKeeps(st, history, FenceOf(w, i), s.io);
    var w' := Next(w, s);
    DiskIsReady(w'.disk, history);
    OthersKeep(w, i, StateOf(w', i), false, history, history);
  }

  /** The steps that touch neither files nor checkpoint. */
  lemma WindowStepKeeps(w: World, history: seq<Digest>, s: Step)
    requires Inv(w, history) && Allowed(w, s)
    requires s.Open? || s.Restart? || s.Acquire? || s.Release? || s.NoteBreak?
    ensures Can(w, s) && Inv(Next(w, s), history) && NoNewLoss(w, Next(w, s)) && Onward(w.disk, Next(w, s).disk, false)
  {
    hide DiskAt, DiskLink, View, Linked, StoredSound, AllLines, FilesPresent;
    DiskIsReady(w.disk, history);
    var w' := Next(w, s);
    forall k | 0 <= k < |w'.windows| ensures WindowSound(w', k, history) {
      if k < |w.windows| {
        assert WindowSound(w, k, history);
      }
    }
  }

  lemma StepKeeps(w: World, history: seq<Digest>, s: Step) returns (history': seq<Digest>)
    requires Inv(w, history) && Allowed(w, s)
    ensures Can(w, s)
    ensures Inv(Next(w, s), history') && history <= history' && Onward(w.disk, Next(w, s).disk, TearsDamageRow(s))
    ensures NoNewLoss(w, Next(w, s))
  {
    hide Inv, Next, Onward, NoNewLoss;
    history' := history;
    match s {
      case Append(i, io) => history' := AppendKeeps(w, history, i, io);
      case Note(i, brokenKnown, io) => history' := NoteStepKeeps(w, history, i, brokenKnown, io);
      case Reanchor(i, force, io) => history' := ReanchorStepKeeps(w, history, i, force, io);
      case Advance(_, _, _) => AdvanceStepKeeps(w, history, s);
      case Maintain(_, _) => MaintainStepKeeps(w, history, s);
      case Retire(_, _) => RetireStepKeeps(w, history, s);
      case _ => WindowStepKeeps(w, history, s);
    }
  }

  // ---------------------------------------------------------------------------
  // Whole runs.
  // ---------------------------------------------------------------------------

  /** A log from before rows were chained, or none: every archive holds an entry, as rotation makes them. */
  ghost predicate LegacyOrEmpty(d: Disk) {
    && d.cuts.None?
    && Chronological(d.archives)
    && (forall i :: 0 <= i < |d.archives| ==> LastParsed(d.archives[i].lines).Some?)
    && (forall k :: 0 <= k < |Entries(d)| ==> Entries(d)[k].Legacy? || Entries(d)[k].Blank?)
  }

  /** No checkpoint yet, or a retired or unreadable one; every window just opened. */
  ghost predicate Initial(w: World) {
    && LegacyOrEmpty(w.disk)
    && !w.stored.Active?
    && forall i :: 0 <= i < |w.windows| ==> w.windows[i] == Window(NewWriter(w.windows[i].writer.hasPort), false)
  }

  lemma {:induction false} LegacyWalk(lines: seq<Line>)
    requires forall k :: 0 <= k < |lines| ==> lines[k].Legacy? || lines[k].Blank?
    ensures Chained(lines) == [] && View(lines).Some?
    ensures var b := View(lines).value;
            && !b.standing.begun && (b.standing.legacyTail.Some? ==> !IsRow(b.standing.legacyTail.value))
            && b.tally.entries == 0 && b.tally.prunedThrough == 0
            && b.pending.None? && !b.paired
    decreases |lines|
  {
    if |lines| == 0 {
      EmptyView();
    } else {
      var n := |lines| - 1;
      LegacyWalk(lines[..n]);
      ViewSnoc(lines[..n], lines[n]);
      assert lines[..n] + [lines[n]] == lines;
    }
  }

  lemma LegacyDisk(d: Disk)
    requires LegacyOrEmpty(d)
    ensures DiskAt(d, []) && !Seen(d).paired
  {
    hide View, Entries, Chained, AllLines, WellKept, StandsAt;
    LegacyLayout(d);
    LegacyWalk(Entries(d));
    LegacyStands(View(AllLines(d)).value);
  }

  lemma LegacyLayout(d: Disk)
    requires LegacyOrEmpty(d)
    ensures WellKept(d) && AllLines(d) == Entries(d)
  {
    hide Entries;
    EmptyView();
    assert CutFile(d) == [];
    assert [] + Entries(d) == Entries(d);
  }

  lemma LegacyStands(b: Brief)
    requires !b.standing.begun && (b.standing.legacyTail.Some? ==> !IsRow(b.standing.legacyTail.value))
    requires b.tally.entries == 0 && b.tally.prunedThrough == 0 && b.pending.None?
    ensures StandsAt(b, [], [])
  {
  }

  lemma InitialIsSound(w: World)
    requires Initial(w)
    ensures Inv(w, []) && !Seen(w.disk).paired
  {
    hide DiskAt, View, LegacyOrEmpty, FilesPresent, UpToDate;
    LegacyDisk(w.disk);
    DiskIsReady(w.disk, []);
    forall i | 0 <= i < |w.windows| ensures WindowSound(w, i, []) {
      assert w.windows[i].writer == NewWriter(w.windows[i].writer.hasPort);
    }
  }

  predicate NoDamageRowTorn(steps: seq<Step>) {
    forall k :: 0 <= k < |steps| ==> !TearsDamageRow(steps[k])
  }

  lemma {:induction false} RunKeeps(w: World, history: seq<Digest>, steps: seq<Step>) returns (history': seq<Digest>)
    requires Inv(w, history) && Goes(w, steps)
    ensures Inv(After(w, steps), history') && history <= history'
    ensures View(AllLines(w.disk)).Some? && View(AllLines(After(w, steps).disk)).Some?
    ensures NoDamageRowTorn(steps) && !Seen(w.disk).paired ==> !Seen(After(w, steps).disk).paired
    ensures NoNewLoss(w, After(w, steps))
    decreases |steps|
  {
    hide View, DiskAt, Next, WindowSound, Linked, StoredSound, Can;
    DiskIsReady(w.disk, history);
    history' := history;
    if |steps| > 0 {
      assert Can(w, steps[0]);
      CanIsAllowed(w, steps[0]);
      history' := StepKeeps(w, history, steps[0]);
      history' := RunKeeps(Next(w, steps[0]), history', steps[1..]);
    }
  }

  lemma CanIsAllowed(w: World, s: Step)
    requires Can(w, s)
    ensures Allowed(w, s)
  {
  }

  lemma {:induction false} RunsExtend(w: World, steps: seq<Step>, s: Step)
    requires Goes(w, steps) && Can(After(w, steps), s)
    ensures Goes(w, steps + [s]) && After(w, steps + [s]) == Next(After(w, steps), s)
    decreases |steps|
  {
    hide Next, Can;
    if |steps| == 0 {
      assert (steps + [s])[1..] == [];
    } else {
      assert (steps + [s])[1..] == steps[1..] + [s];
      RunsExtend(Next(w, steps[0]), steps[1..], s);
    }
  }

  /** Whatever the environment allows next, the files are ready for it. */
  lemma RunsGoOn(w: World, steps: seq<Step>, s: Step)
    requires Initial(w) && Goes(w, steps) && Allowed(After(w, steps), s)
    ensures Goes(w, steps + [s])
  {
    hide Initial, Inv, Allowed, Can, Next, Onward;
    InitialIsSound(w);
    var history := RunKeeps(w, [], steps);
    history := StepKeeps(After(w, steps), history, s);
    RunsExtend(w, steps, s);
  }

  /** No fork: every row retained links to the row before it, and the link held by a window that owes no
      tail check under the fence it owns is the one the walk of the files expects next. */
  lemma NoRunForks(w: World, steps: seq<Step>)
    requires Initial(w) && Goes(w, steps)
    ensures var w' := After(w, steps);
            && View(AllLines(w'.disk)).Some?
            && Linked(Chained(Entries(w'.disk)))
            && forall i :: 0 <= i < |w'.windows| && w'.owner == Some(i) && !Owes(w'.windows[i].writer, w'.fence) ==>
                 w'.windows[i].writer.landedDigest == Some(DiskLink(w'.disk))
  {
    hide Initial, View, DiskAt, Next, Can;
    InitialIsSound(w);
    var history := RunKeeps(w, [], steps);
    var w' := After(w, steps);
    RowsPastPruned(w'.disk, history);
    LaterRowsLinked(history, Seen(w'.disk).tally.prunedThrough);
    forall i | 0 <= i < |w'.windows| && w'.owner == Some(i) && !Owes(w'.windows[i].writer, w'.fence)
      ensures w'.windows[i].writer.landedDigest == Some(DiskLink(w'.disk))
    {
      assert WindowSound(w', i, history);
    }
  }

  lemma LaterRowsLinked(history: seq<Digest>, from: nat)
    requires Linked(history) && from <= |history|
    ensures Linked(history[from..])
  {
    var rows := history[from..];
    assert forall i :: 0 <= i < |rows| ==> rows[i] == history[from + i];
  }

  /** From a sound world, no verification at any point of a run reports a loss. */
  lemma SoundRunAlarmsNot(w: World, history: seq<Digest>, steps: seq<Step>)
    requires Inv(w, history) && Goes(w, steps)
    ensures var w' := After(w, steps);
            !ReportsLoss(ClassifyLoss(w'.stored, VerifyAt(w'.disk, HeadOf(w'.stored))))
  {
    hide View, DiskAt, Next, Can, WindowSound, ReportsLoss, ClassifyLoss;
    var history' := RunKeeps(w, history, steps);
    var w' := After(w, steps);
    NoFalseAlarm(State(w'.disk, w'.stored, NewWriter(false)), history');
  }

  /** No false alarm: no verification at any point of a run reports a loss. */
  lemma NoRunAlarms(w: World, steps: seq<Step>)
    requires Initial(w) && Goes(w, steps)
    ensures var w' := After(w, steps);
            !ReportsLoss(ClassifyLoss(w'.stored, VerifyAt(w'.disk, HeadOf(w'.stored))))
  {
    InitialIsSound(w);
    hide Inv, ReportsLoss, ClassifyLoss, VerifyAt;
    SoundRunAlarmsNot(w, [], steps);
  }

  /** No window ever settles for loss in such a run. */
  lemma NoRunSettlesForLoss(w: World, steps: seq<Step>, i: nat)
    requires Initial(w) && Goes(w, steps) && i < |After(w, steps).windows|
    ensures !InLoss(After(w, steps).windows[i].writer)
  {
    InitialIsSound(w);
    hide View, DiskAt, Next, Can, WindowSound, LegacyOrEmpty;
    var history := RunKeeps(w, [], steps);
  }

  /** What a landed row leaves: an accepted log unless a damaged line is followed by another, the damaged
      lines reported, and the writer's count where the verifier's is. */
  ghost predicate AcceptedAfterRow(d: Disk, writer: Writer) {
    var verdict := Verify(AllLines(d), None);
    && (verdict.Intact? <==> NoDamagedPair(AllLines(d)))
    && (verdict.Intact? ==>
          && verdict.damages == DamagedLines(AllLines(d), 0)
          && (writer.cp.Some? && Advances(writer.cp.value.mode) ==> writer.cp.value.position == verdict.positions.tail))
  }

  lemma UpToDateIsAccepted(st: State, history: seq<Digest>)
    requires DiskAt(st.disk, history) && UpToDate(st, history)
    ensures AcceptedAfterRow(st.disk, st.writer)
    ensures !Seen(st.disk).paired ==> Verify(AllLines(st.disk), None).Intact?
  {
    var lines := AllLines(st.disk);
    VerifyFromView(lines, None);
    RowsPastPruned(st.disk, history);
    AcceptedIff(None, lines);
    PendingAtEnd(None, lines);
    if Verify(lines, None).Intact? {
      AcceptedReportsDamage(None, lines);
    }
    hide DiskAt, Verify, NoDamagedPair, EndsDamaged, DamagedLines;
  }

  /** A step that lands a row leaves its writer up to date. */
  lemma LandingStepKeeps(w: World, history: seq<Digest>, s: Step) returns (history': seq<Digest>)
    requires Inv(w, history) && Allowed(w, s) && (s.Append? || s.Note? || s.Reanchor?)
    ensures Can(w, s) && s.window < |Next(w, s).windows|
    ensures Inv(Next(w, s), history') && Onward(w.disk, Next(w, s).disk, TearsDamageRow(s))
    ensures LandsRow(w, s) ==> CaughtUp(Next(w, s), s.window, history')
  {
    hide Inv, Onward, LandsRow;
    match s {
      case Append(i, io) => history' := AppendKeeps(w, history, i, io);
      case Note(i, brokenKnown, io) => history' := NoteStepKeeps(w, history, i, brokenKnown, io);
      case Reanchor(i, force, io) => history' := ReanchorStepKeeps(w, history, i, force, io);
    }
    hide WriteStep, NoteVerified, ReanchorCheckpoint;
  }

  /** Every landed row, an entry's, a noted verification's or a re-anchoring's, leaves a log that `verifyChain`
      accepts exactly when no damaged line is followed by another; and it always does when no damage row
      was torn. */
  lemma LandedRowsAreAccepted(w: World, steps: seq<Step>, s: Step)
    requires Initial(w) && Goes(w, steps) && Can(After(w, steps), s) && LandsRow(After(w, steps), s)
    ensures var v' := Next(After(w, steps), s);
            && s.window < |v'.windows|
            && AcceptedAfterRow(v'.disk, v'.windows[s.window].writer)
            && (NoDamageRowTorn(steps) && !TearsDamageRow(s) ==> Verify(AllLines(v'.disk), None).Intact?)
  {
    InitialIsSound(w);
    hide Initial, View, DiskAt, Next, WindowSound, Verify, AcceptedAfterRow;
    var history := RunKeeps(w, [], steps);
    var v := After(w, steps);
    CanIsAllowed(v, s);
    LandsOne(v, s);
    history := LandingStepKeeps(v, history, s);
    UpToDateIsAccepted(StateOf(Next(v, s), s.window), history);
  }

  lemma LandsOne(w: World, s: Step)
    requires Can(w, s) && LandsRow(w, s)
    ensures s.Append? || s.Note? || s.Reanchor?
  {
  }

  /** The cheap answer is the full one: when the stored head is the link of the files, the walk finds it at
      the stored position, which is the tail. */
  lemma HeadAsTailAgrees(w: World, steps: seq<Step>)
    requires Initial(w) && Goes(w, steps)
    ensures var w' := After(w, steps);
            && View(AllLines(w'.disk)).Some?
            && (w'.stored.Active? && w'.stored.checkpoint.headDigest == DiskLink(w'.disk) ==>
                  var verdict := Verify(AllLines(w'.disk), HeadOf(w'.stored));
                  verdict.Intact? ==>
                    && Reaches(verdict.positions, w'.stored.checkpoint.position)
                    && verdict.positions.tail == w'.stored.checkpoint.position)
  {
    InitialIsSound(w);
    hide Initial, View, DiskAt, Next, Can, WindowSound, Verify, Reaches, DiskLink, AllLines;
    var history := RunKeeps(w, [], steps);
    var w' := After(w, steps);
    DiskIsReady(w'.disk, history);
    if w'.stored.Active? && w'.stored.checkpoint.headDigest == DiskLink(w'.disk)
         && Verify(AllLines(w'.disk), HeadOf(w'.stored)).Intact? {
      HeadAsTail(w'.disk, history, w'.stored);
    }
  }

  lemma HeadAsTail(d: Disk, history: seq<Digest>, stored: CheckpointRead)
    requires DiskAt(d, history) && Linked(history) && StoredSound(stored, d, history)
    requires stored.Active? && stored.checkpoint.headDigest == DiskLink(d)
    requires Verify(AllLines(d), HeadOf(stored)).Intact?
    ensures Reaches(Verify(AllLines(d), HeadOf(stored)).positions, stored.checkpoint.position)
    ensures Verify(AllLines(d), HeadOf(stored)).positions.tail == stored.checkpoint.position
  {
    WalkIsRight(d, history, stored);
    FactsGathered(d, history, stored, false);
    hide DiskAt, DiskLink, View, Verify, AllLines, Reaches;
    SettledIsSound(history, stored, FactsOf(d, stored, Some(DiskLink(d)), false));
  }

  // ---------------------------------------------------------------------------
  // Where the conditions are needed.
  // ---------------------------------------------------------------------------

  /** A verification noted with no file present is followed by a false report of loss exactly when the writer
      holds something to store: `noteChainVerified` advances the checkpoint even when it answers
      `not-verified`. */
  lemma NoteOverNothing(st: State, fence: Option<nat>, brokenKnown: bool, io: Io, writable: bool)
    requires !FilesPresent(st.disk) && !st.stored.Active?
    requires fence.Some? ==> Ready(st, fence.value)
    ensures var noted := NoteVerified(st, fence, brokenKnown, io).state;
            var after := AdvanceCheckpoint(noted, writable, io.nowMs);
            && after.disk == st.disk
            && (ReportsLoss(ClassifyLoss(after.stored, VerifyAt(after.disk, HeadOf(after.stored))))
                <==> NoteStores(st, fence, brokenKnown, io) && writable)
  {
    hide WriteRow, Verify;
    assert VerifyAt(st.disk, HeadOf(ReadPort(st, io.checkpointReachable).0)).None?;
  }

  const NOTHING := Disk(None, [], None)

  /** Everything works except the append of the row itself. */
  const ROW_REFUSED :=
    Io(true, Whole, Whole, true, true, Whole, None, Budget(0, 0), PruneIo(0, false, 0, true), Refused, true, 0, 0)

  /** Such a writer is one whose first row was refused. */
  lemma RefusedFirstRow()
    ensures var st := State(NOTHING, Absent, NewWriter(true));
            && Ready(st, 1)
            && !WriteStep(st, Some(1), ROW_REFUSED).ok
            && var after := WriteStep(st, Some(1), ROW_REFUSED).state;
               after.disk == NOTHING && after.stored.Absent? && Moves(after.writer) && !after.writer.portBlocked
  {
    assert Entries(NOTHING) == [];
    assert CutFile(NOTHING) == [];
    hide Verify;
  }

  /** A damage row that is itself torn leaves two damaged lines in a row, and no row written after them makes
      the log acceptable. */
  lemma TornDamageRow(before: seq<Line>, damaged: Line, torn: Line, after: seq<Line>)
    requires damaged.Torn? && torn.Torn?
    ensures Verify(before + [damaged, torn] + after, None).Failed?
  {
    var lines := before + [damaged, torn] + after;
    assert DamagedTwice(lines, |before|, |before| + 1);
    AcceptedIff(None, lines);
    hide Verify;
  }
}
