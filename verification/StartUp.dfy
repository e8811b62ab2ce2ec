/** The two start-up latches: one run of the trust-scoped work for each window, and one installation of the
    recovery producers between two losses of the fence, over all interleavings at the awaits. */
module StartUp {
  import opened Common

  /** A result of the election: which event gave it, and how many fences had been lost and runs started then. */
  datatype Result = Result(acquired: bool, given: nat, losses: nat, runs: nat)

  /** Where `runOnce` stands: awaiting the election, the work before recovery, the recovery producers, or about
      to settle. */
  datatype Phase = Electing | Preamble(result: Result) | InstallingRecovery | Ending(ok: bool)

  /** The promise `running`. */
  datatype Runner = Runner(id: nat, phase: Phase)

  /** One call of `installRecovery`; `saw` is the run it found in flight. */
  datatype Caller =
    | AwaitingRun(run: nat, result: Result)
    | Reconciling(result: Result)
    | Installing
    | Over

  /** A started installation: on which result, by which event, after how many losses, and which run was in
      flight. */
  datatype Install = Install(result: Result, started: nat, losses: nat, flight: Option<nat>)

  /** The latches, the promises under way, and what has happened: events, runs started and failed, elections
      completed, fences lost, installations started. */
  datatype Latches = Latches(
    ran: bool,
    running: Option<Runner>,
    installedRecovery: bool,
    callers: seq<Caller>,
    runs: nat,
    failed: set<nat>,
    elections: nat,
    losses: nat,
    time: nat,
    installs: seq<Install>)

  const FRESH := Latches(false, None, false, [], 0, {}, 0, 0, 0, [])

  datatype Event =
    | RunCalled(trusted: bool)
    | Elected(won: Option<bool>)
    | PreambleOver(ok: bool)
    | RunInstalled(ok: bool)
    | RunSettles
    | InstallCalled(acquired: bool)
    | CallerResumes(k: nat)
    | Reconciled(k: nat, ok: bool)
    | CallerInstalled(k: nat)
    | FenceLost

  predicate InFlight(s: Latches, run: nat) {
    s.running.Some? && s.running.value.id == run
  }

  predicate Can(s: Latches, e: Event) {
    match e
    case Elected(_) => s.running.Some? && s.running.value.phase.Electing?
    case PreambleOver(_) => s.running.Some? && s.running.value.phase.Preamble?
    case RunInstalled(_) => s.running.Some? && s.running.value.phase.InstallingRecovery?
    case RunSettles => s.running.Some? && s.running.value.phase.Ending?
    case CallerResumes(k) => k < |s.callers| && s.callers[k].AwaitingRun? && !InFlight(s, s.callers[k].run)
    case Reconciled(k, _) => k < |s.callers| && s.callers[k].Reconciling?
    case CallerInstalled(k) => k < |s.callers| && s.callers[k].Installing?
    case _ => true
  }

  function SetPhase(s: Latches, phase: Phase): Latches
    requires s.running.Some?
  {
    s.(running := Some(s.running.value.(phase := phase)))
  }

  /** What the election answers now. */
  function ResultNow(s: Latches, acquired: bool): Result {
    Result(acquired, s.time, s.losses, s.runs)
  }

  /** The run in flight. */
  function Flight(s: Latches): Option<nat> {
    if s.running.Some? then Some(s.running.value.id) else None
  }

  /** Does `installRecoveryProducers` start the installers? */
  predicate Starts(s: Latches, result: Result) {
    !s.installedRecovery && result.acquired
  }

  /** `installRecoveryProducers`, up to its first await: the latch is set where a win is installed. */
  function InstallProducers(s: Latches, result: Result): Latches {
    if s.installedRecovery then s
    else
      s.(installedRecovery := result.acquired,
         installs := if result.acquired then s.installs + [Install(result, s.time, s.losses, Flight(s))]
             else s.installs)
  }

  /** The rest of `installRecovery` once it need not wait for a run, as call `k`. */
  function GoOn(s: Latches, k: nat, result: Result): Latches
    requires k < |s.callers|
  {
    if Starts(s, result) then s.(callers := s.callers[k := Reconciling(result)])
    else InstallProducers(s, result).(callers := s.callers[k := Over])
  }

  function Move(s: Latches, e: Event): Latches
    requires Can(s, e)
  {
    match e
    case RunCalled(trusted) =>
      if s.ran || s.running.Some? then s
      else s.(running := Some(Runner(s.runs, if trusted then Electing else Ending(true))), runs := s.runs + 1)
    case Elected(won) =>
      if won.None? then SetPhase(s, Ending(false))
      else SetPhase(s, Preamble(ResultNow(s, won.value))).(ran := true, elections := s.elections + 1)
    case PreambleOver(ok) =>
      if !ok then SetPhase(s, Ending(false))
      else
        var result := s.running.value.phase.result;
        SetPhase(InstallProducers(s, result), if Starts(s, result) then InstallingRecovery else Ending(true))
    case RunInstalled(ok) => SetPhase(s, Ending(ok))
    case RunSettles =>
      s.(running := None, failed := if s.running.value.phase.ok then s.failed else s.failed + {s.running.value.id})
    case InstallCalled(acquired) =>
      if s.running.Some? then s.(callers := s.callers + [AwaitingRun(s.running.value.id, ResultNow(s, acquired))])
      else GoOn(s.(callers := s.callers + [Over]), |s.callers|, ResultNow(s, acquired))
    case CallerResumes(k) =>
      var caller := s.callers[k];
      if caller.run in s.failed then s.(callers := s.callers[k := Over]) else GoOn(s, k, caller.result)
    case Reconciled(k, ok) =>
      var result := s.callers[k].result;
      if !ok then s.(callers := s.callers[k := Over])
      else InstallProducers(s, result).(callers := s.callers[k := if Starts(s, result) then Installing else Over])
    case CallerInstalled(k) => s.(callers := s.callers[k := Over])
    case FenceLost => s.(installedRecovery := false, losses := s.losses + 1)
  }

  function Next(s: Latches, e: Event): Latches
    requires Can(s, e)
  {
    Move(s, e).(time := s.time + 1)
  }

  /** The events are ones that can happen, one after another, in a window just opened. */
  predicate Goes(events: seq<Event>)
    decreases |events|, 0
  {
    |events| > 0 ==>
      var before := events[..|events| - 1];
      Goes(before) && Can(After(before), events[|events| - 1])
  }

  function After(events: seq<Event>): Latches
    requires Goes(events)
    decreases |events|, 1
  {
    if |events| == 0 then FRESH else Next(After(events[..|events| - 1]), events[|events| - 1])
  }

  // ---------------------------------------------------------------------------
  // The closures of the source.
  // ---------------------------------------------------------------------------

  class Stage2Producers {
    var ran: bool
    var running: Option<Runner>
    var installedRecovery: bool
    var callers: seq<Caller>
    var runs: nat
    var failed: set<nat>
    var losses: nat
    var time: nat
    ghost var elections: nat
    ghost var installs: seq<Install>

    ghost function Value(): Latches
      reads this
    {
      Latches(ran, running, installedRecovery, callers, runs, failed, elections, losses, time, installs)
    }

    constructor ()
      ensures Value() == FRESH
    {
      ran, running, installedRecovery, callers, runs, failed, losses, time := false, None, false, [], 0, {}, 0, 0;
      elections, installs := 0, [];
    }

    /** `run`, up to the await of the election. */
    method Run(trusted: bool)
      modifies this
      ensures Value() == Next(old(Value()), RunCalled(trusted))
    {
      time := time + 1;
      if ran {
        return;
      }
      if running.Some? {
        return;
      }
      running := Some(Runner(runs, if trusted then Electing else Ending(true)));
      runs := runs + 1;
    }

    method SetRunnerPhase(phase: Phase)
      requires running.Some?
      modifies this`running
      ensures Value() == SetPhase(old(Value()), phase)
    {
      running := Some(running.value.(phase := phase));
    }

    /** `runOnce` after `tryAcquire`. */
    method AfterElection(acquired: Option<bool>)
      requires Can(Value(), Elected(acquired))
      modifies this
      ensures Value() == Next(old(Value()), Elected(acquired))
    {
      time := time + 1;
      if acquired.None? {
        SetRunnerPhase(Ending(false));
        return;
      }
      ran := true;
      elections := elections + 1;
      SetRunnerPhase(Preamble(Result(acquired.value, time - 1, losses, runs)));
    }

    /** `installRecoveryProducers`, up to its first await; whether the installers start. */
    method InstallRecoveryProducers(result: Result) returns (started: bool)
      modifies this`installedRecovery, this`installs
      ensures Value() == InstallProducers(old(Value()), result)
      ensures started <==> old(Starts(Value(), result))
    {
      if installedRecovery {
        return false;
      }
      installedRecovery := result.acquired;
      started := result.acquired;
      if started {
        installs := installs + [Install(result, time, losses, Flight(Value()))];
      }
    }

    /** `runOnce` after the work that comes before recovery. */
    method AfterPreamble(ok: bool)
      requires Can(Value(), PreambleOver(ok))
      modifies this
      ensures Value() == Next(old(Value()), PreambleOver(ok))
    {
      if !ok {
        SetRunnerPhase(Ending(false));
      } else {
        var started := InstallRecoveryProducers(running.value.phase.result);
        SetRunnerPhase(if started then InstallingRecovery else Ending(true));
      }
      time := time + 1;
    }

    /** The `finally` of `run`. */
    method Settle()
      requires Can(Value(), RunSettles)
      modifies this
      ensures Value() == Next(old(Value()), RunSettles)
    {
      if !running.value.phase.ok {
        failed := failed + {running.value.id};
      }
      running := None;
      time := time + 1;
    }

    /** `installRecovery` past its wait for a run in flight. */
    method Continue(k: nat, result: Result)
      requires k < |callers|
      modifies this
      ensures Value() == GoOn(old(Value()), k, result)
    {
      if result.acquired && !installedRecovery {
        callers := callers[k := Reconciling(result)];
        return;
      }
      var started := InstallRecoveryProducers(result);
      callers := callers[k := Over];
    }

    /** `installRecovery`. */
    method InstallRecovery(acquired: bool)
      modifies this
      ensures Value() == Next(old(Value()), InstallCalled(acquired))
    {
      var result := Result(acquired, time, losses, runs);
      if running.Some? {
        callers := callers + [AwaitingRun(running.value.id, result)];
      } else {
        callers := callers + [Over];
        Continue(|callers| - 1, result);
      }
      time := time + 1;
    }

    /** `await running` returns, or throws what the run threw. */
    method Resume(k: nat)
      requires Can(Value(), CallerResumes(k))
      modifies this
      ensures Value() == Next(old(Value()), CallerResumes(k))
    {
      var caller := callers[k];
      if caller.run in failed {
        callers := callers[k := Over];
      } else {
        Continue(k, caller.result);
      }
      time := time + 1;
    }

    /** After `reconcileComposableWorkflowRuns`. */
    method AfterReconcile(k: nat, ok: bool)
      requires Can(Value(), Reconciled(k, ok))
      modifies this
      ensures Value() == Next(old(Value()), Reconciled(k, ok))
    {
      if !ok {
        callers := callers[k := Over];
      } else {
        var started := InstallRecoveryProducers(callers[k].result);
        callers := callers[k := if started then Installing else Over];
      }
      time := time + 1;
    }

    /** The listener of `onFenceLost`. */
    method OnFenceLost()
      modifies this`installedRecovery, this`losses, this`time
      ensures Value() == Next(old(Value()), FenceLost)
    {
      installedRecovery := false;
      losses := losses + 1;
      time := time + 1;
    }
  }

  // ---------------------------------------------------------------------------
  // What every interleaving keeps.
  // ---------------------------------------------------------------------------

  /** The first latch: the election has been completed once or never, and never while one is under way. */
  predicate RanSound(s: Latches) {
    && s.elections == (if s.ran then 1 else 0)
    && (s.running.Some? ==> s.running.value.id < s.runs)
    && (s.running.Some? && s.running.value.phase.Electing? ==> !s.ran)
    && (s.running.Some? && (s.running.value.phase.Preamble? || s.running.value.phase.InstallingRecovery?) ==> s.ran)
  }

  /** The second latch: closed exactly when an installation was started since the last loss. */
  ghost predicate InstalledSound(s: Latches) {
    && (forall i, j :: 0 <= i < j < |s.installs| ==> s.installs[i].losses < s.installs[j].losses)
    && (forall i :: 0 <= i < |s.installs| ==> s.installs[i].losses <= s.losses && s.installs[i].result.acquired)
    && (s.installedRecovery <==> |s.installs| > 0 && s.installs[|s.installs| - 1].losses == s.losses)
  }

  /** A run in flight now was started after `result` was given. */
  predicate Later(s: Latches, result: Result) {
    s.running.Some? ==> s.running.value.id >= result.runs
  }

  /** A call waits for the one run that was in flight, and goes on only after it. */
  ghost predicate CallersSound(s: Latches) {
    forall k :: 0 <= k < |s.callers| ==>
      match s.callers[k]
      case AwaitingRun(run, result) => run < result.runs <= s.runs && (InFlight(s, run) || Later(s, result))
      case Reconciling(result) => result.runs <= s.runs && Later(s, result)
      case _ => true
  }

  ghost predicate Inv(s: Latches) {
    RanSound(s) && InstalledSound(s) && CallersSound(s)
  }

  lemma ProducersKeep(s: Latches, result: Result)
    requires Inv(s)
    ensures Inv(InstallProducers(s, result))
  {
  }

  /** A call's own state moves on. */
  lemma CallerKeeps(s: Latches, k: nat, caller: Caller)
    requires Inv(s) && k < |s.callers|
    requires caller.Over? || caller.Installing?
          || (caller.Reconciling? && caller.result.runs <= s.runs && Later(s, caller.result))
    ensures Inv(s.(callers := s.callers[k := caller]))
  {
  }

  lemma GoOnKeeps(s: Latches, k: nat, result: Result)
    requires Inv(s) && k < |s.callers| && result.runs <= s.runs && Later(s, result)
    ensures Inv(GoOn(s, k, result))
  {
    ProducersKeep(s, result);
    hide Inv;
    if Starts(s, result) {
      CallerKeeps(s, k, Reconciling(result));
    } else {
      CallerKeeps(InstallProducers(s, result), k, Over);
    }
  }

  /** What a call that can go on has waited for. */
  lemma CallerSaw(s: Latches, k: nat)
    requires Inv(s) && k < |s.callers|
    ensures s.callers[k].Reconciling? || (s.callers[k].AwaitingRun? && !InFlight(s, s.callers[k].run)) ==>
              s.callers[k].result.runs <= s.runs && Later(s, s.callers[k].result)
  {
  }

  lemma CallKeeps(s: Latches, e: Event)
    requires Inv(s) && Can(s, e)
    requires e.InstallCalled? || e.CallerResumes? || e.Reconciled? || e.CallerInstalled?
    ensures Inv(Move(s, e))
  {
    hide Inv, GoOn;
    match e {
      case InstallCalled(acquired) => CallStarts(s, acquired);
      case CallerResumes(k) =>
        CallerSaw(s, k);
        CallerKeeps(s, k, Over);
        GoOnKeeps(s, k, s.callers[k].result);
      case Reconciled(k, ok) =>
        var result := s.callers[k].result;
        CallerKeeps(s, k, Over);
        ProducersKeep(s, result);
        CallerKeeps(InstallProducers(s, result), k, if Starts(s, result) then Installing else Over);
      case CallerInstalled(k) =>
        CallerKeeps(s, k, Over);
    }
  }

  lemma CallStarts(s: Latches, acquired: bool)
    requires Inv(s)
    ensures Inv(Move(s, InstallCalled(acquired)))
  {
    hide GoOn, InstalledSound;
    var called := s.(callers := s.callers + [Over]);
    assert InstalledSound(called) by {
      SameInstalls(s, called);
    }
    assert Inv(called);
    if s.running.None? {
      GoOnKeeps(called, |s.callers|, ResultNow(s, acquired));
    } else {
      SameInstalls(s, Move(s, InstallCalled(acquired)));
    }
  }

  lemma SameInstalls(s: Latches, s': Latches)
    requires InstalledSound(s) && s'.installs == s.installs && s'.losses == s.losses
             && s'.installedRecovery == s.installedRecovery
    ensures InstalledSound(s')
  {
  }

  lemma RunnerKeeps(s: Latches, e: Event)
    requires Inv(s) && Can(s, e)
    requires !(e.InstallCalled? || e.CallerResumes? || e.Reconciled? || e.CallerInstalled?)
    ensures Inv(Move(s, e))
  {
    if e == PreambleOver(true) {
      ProducersKeep(s, s.running.value.phase.result);
    }
  }

  lemma EventKeeps(s: Latches, e: Event)
    requires Inv(s) && Can(s, e)
    ensures Inv(Next(s, e))
  {
    hide Move;
    if e.InstallCalled? || e.CallerResumes? || e.Reconciled? || e.CallerInstalled? {
      CallKeeps(s, e);
    } else {
      RunnerKeeps(s, e);
    }
  }

  lemma {:induction false} RunKeeps(events: seq<Event>)
    requires Goes(events)
    ensures Inv(After(events)) && After(events).time == |events|
    decreases |events|
  {
    if |events| > 0 {
      hide Inv, Move, Can;
      RunKeeps(events[..|events| - 1]);
      EventKeeps(After(events[..|events| - 1]), events[|events| - 1]);
    }
  }

  /** The work after a completed election begins at most once; recovery is installed only on an acquired result
      and at most once between two losses of the fence. */
  lemma LatchesHold(events: seq<Event>)
    requires Goes(events)
    ensures var s := After(events);
            && s.elections <= 1
            && (forall i :: 0 <= i < |s.installs| ==> s.installs[i].result.acquired)
            && forall i, j :: 0 <= i < j < |s.installs| ==> s.installs[i].losses < s.installs[j].losses
  {
    RunKeeps(events);
    hide After, Goes;
  }

  /** In every interleaving, a call that has not yet come to the installation is held back exactly by a run in
      flight that was started before the call: a run started after it is not waited for. */
  lemma CallWaitsForEarlierRunsOnly(events: seq<Event>, k: nat)
    requires Goes(events)
    requires var s := After(events); k < |s.callers| && (s.callers[k].AwaitingRun? || s.callers[k].Reconciling?)
    ensures var s := After(events);
            Can(s, CallerResumes(k)) || Can(s, Reconciled(k, true)) <==> Later(s, s.callers[k].result)
  {
    RunKeeps(events);
    hide After, Goes, RanSound, InstalledSound;
  }

  // ---------------------------------------------------------------------------
  // Which result an installation rests on, and which run it overtakes.
  // ---------------------------------------------------------------------------

  lemma {:induction false} PrefixGoes(events: seq<Event>, n: nat)
    requires Goes(events) && n <= |events|
    ensures Goes(events[..n])
    decreases |events|
  {
    if n < |events| {
      var before := events[..|events| - 1];
      assert before[..n] == events[..n];
      PrefixGoes(before, n);
    } else {
      assert events[..n] == events;
    }
  }

  /** The event that gave a result, and what had happened before it. */
  ghost predicate GivenBy(events: seq<Event>, r: Result) {
    && r.given < |events|
    && events[r.given] in {Elected(Some(r.acquired)), InstallCalled(r.acquired)}
    && Goes(events[..r.given])
    && r.losses == After(events[..r.given]).losses
    && r.runs == After(events[..r.given]).runs
  }

  /** The event that started an installation, the result it carried there, and what had happened before it. */
  ghost predicate StartedBy(events: seq<Event>, i: nat, x: Install) {
    && x.result.given < x.started < |events|
    && Goes(events[..x.started])
    && var s := After(events[..x.started]);
       && |s.installs| == i
       && x.losses == s.losses
       && x.flight == Flight(s)
       && match events[x.started]
          case PreambleOver(ok) =>
            s.running.Some? && s.running.value.phase == Preamble(x.result) && events[x.result.given].Elected?
          case Reconciled(k, ok) =>
            k < |s.callers| && s.callers[k] == Reconciling(x.result) && events[x.result.given].InstallCalled?
          case _ => false
  }

  ghost predicate ByElection(events: seq<Event>, r: Result) {
    GivenBy(events, r) && events[r.given].Elected?
  }

  ghost predicate ByCall(events: seq<Event>, r: Result) {
    GivenBy(events, r) && events[r.given].InstallCalled?
  }

  ghost predicate ResultsTraced(events: seq<Event>, s: Latches) {
    && (s.running.Some? && s.running.value.phase.Preamble? ==> ByElection(events, s.running.value.phase.result))
    && forall k :: 0 <= k < |s.callers| && (s.callers[k].AwaitingRun? || s.callers[k].Reconciling?) ==>
         ByCall(events, s.callers[k].result)
  }

  ghost predicate InstallsTraced(events: seq<Event>, s: Latches) {
    forall i :: 0 <= i < |s.installs| ==> GivenBy(events, s.installs[i].result) && StartedBy(events, i, s.installs[i])
  }

  lemma TraceGrows(events: seq<Event>, e: Event)
    ensures forall r :: GivenBy(events, r) ==> GivenBy(events + [e], r)
    ensures forall r :: ByElection(events, r) ==> ByElection(events + [e], r)
    ensures forall r :: ByCall(events, r) ==> ByCall(events + [e], r)
    ensures forall i: nat, x :: StartedBy(events, i, x) ==> StartedBy(events + [e], i, x)
  {
    hide Goes, After;
    forall n: nat | n <= |events| ensures (events + [e])[..n] == events[..n] {
    }
  }

  lemma GivenNow(events: seq<Event>, e: Event, acquired: bool)
    requires Goes(events) && After(events).time == |events| && e in {Elected(Some(acquired)), InstallCalled(acquired)}
    ensures GivenBy(events + [e], ResultNow(After(events), acquired))
    ensures e.Elected? ==> ByElection(events + [e], ResultNow(After(events), acquired))
    ensures e.InstallCalled? ==> ByCall(events + [e], ResultNow(After(events), acquired))
  {
    hide Goes, After;
    assert (events + [e])[..|events|] == events;
  }

  lemma ResultsStayTraced(events: seq<Event>, e: Event)
    requires Goes(events) && Can(After(events), e) && After(events).time == |events|
    requires ResultsTraced(events, After(events))
    ensures ResultsTraced(events + [e], Move(After(events), e))
  {
    hide Goes, After, GivenBy, StartedBy, ByElection, ByCall;
    TraceGrows(events, e);
    if e.Elected? && e.won.Some? {
      GivenNow(events, e, e.won.value);
    }
    if e.InstallCalled? {
      GivenNow(events, e, e.acquired);
    }
  }

  lemma InstallsStayTraced(events: seq<Event>, e: Event)
    requires Goes(events) && Can(After(events), e) && After(events).time == |events|
    requires ResultsTraced(events, After(events)) && InstallsTraced(events, After(events))
    ensures InstallsTraced(events + [e], Move(After(events), e))
  {
    hide Goes, After, GivenBy, StartedBy, ByElection, ByCall, ResultsTraced;
    var s, s' := After(events), Move(After(events), e);
    TraceGrows(events, e);
    assert |s'.installs| <= |s.installs| + 1 && s'.installs[..|s.installs|] == s.installs;
    if |s'.installs| > |s.installs| {
      StartTraced(events, e);
    }
    forall i | 0 <= i < |s'.installs|
      ensures GivenBy(events + [e], s'.installs[i].result) && StartedBy(events + [e], i, s'.installs[i])
    {
      if i < |s.installs| {
        assert s'.installs[i] == s.installs[i];
      }
    }
  }

  /** The installation an event starts. */
  lemma StartTraced(events: seq<Event>, e: Event)
    requires Goes(events) && Can(After(events), e) && After(events).time == |events|
    requires ResultsTraced(events, After(events)) && |Move(After(events), e).installs| > |After(events).installs|
    ensures var i, installs := |After(events).installs|, Move(After(events), e).installs;
            |installs| == i + 1 && GivenBy(events + [e], installs[i].result) && StartedBy(events + [e], i, installs[i])
  {
    hide Goes, After;
    var s := After(events);
    assert (events + [e])[..|events|] == events;
    TraceGrows(events, e);
    assert e.PreambleOver? || e.Reconciled?;
    var result := if e.PreambleOver? then s.running.value.phase.result else s.callers[e.k].result;
    assert GivenBy(events, result);
    assert (events + [e])[result.given] == events[result.given];
  }

  lemma {:induction false} AllTraced(events: seq<Event>)
    requires Goes(events)
    ensures ResultsTraced(events, After(events)) && InstallsTraced(events, After(events))
    decreases |events|
  {
    if |events| > 0 {
      var before, e := events[..|events| - 1], events[|events| - 1];
      hide ResultsTraced, InstallsTraced, Move, Can;
      assert before + [e] == events;
      AllTraced(before);
      RunKeeps(before);
      ResultsStayTraced(before, e);
      InstallsStayTraced(before, e);
      TimeAside(events, Move(After(before), e));
    }
  }

  lemma TimeAside(events: seq<Event>, s: Latches)
    ensures ResultsTraced(events, s.(time := s.time + 1)) == ResultsTraced(events, s)
    ensures InstallsTraced(events, s.(time := s.time + 1)) == InstallsTraced(events, s)
  {
  }

  lemma AfterNext(events: seq<Event>, b: nat)
    requires b < |events| && Goes(events[..b + 1])
    ensures Goes(events[..b]) && Can(After(events[..b]), events[b])
    ensures After(events[..b + 1]) == Next(After(events[..b]), events[b])
  {
    assert events[..b + 1][..b] == events[..b];
  }

  lemma LossesMove(s: Latches, e: Event)
    requires Can(s, e)
    ensures Next(s, e).losses == s.losses + if e.FenceLost? then 1 else 0
  {
  }

  /** Fences lost between two points of a run of events. */
  lemma {:induction false} LossesBetween(events: seq<Event>, a: nat, b: nat)
    requires a <= b <= |events| && Goes(events[..a]) && Goes(events[..b])
    ensures After(events[..a]).losses <= After(events[..b]).losses
    ensures After(events[..a]).losses == After(events[..b]).losses <==> forall j :: a <= j < b ==> !events[j].FenceLost?
    decreases b
  {
    hide Goes, After, Next, Can;
    if a < b {
      AfterNext(events, b - 1);
      LossesMove(After(events[..b - 1]), events[b - 1]);
      LossesBetween(events, a, b - 1);
    }
  }

  /** In every interleaving each installation carries the result that one event gave to the event that starts
      it, and no fence was lost since the result was given exactly when none is lost between the two. */
  lemma InstalledOnCurrentResult(events: seq<Event>, i: nat)
    requires Goes(events) && i < |After(events).installs|
    ensures var x := After(events).installs[i];
            && GivenBy(events, x.result) && x.result.acquired
            && StartedBy(events, i, x)
            && (x.result.losses == x.losses <==> forall j :: x.result.given < j < x.started ==> !events[j].FenceLost?)
  {
    hide Goes, After, Inv;
    AllTraced(events);
    LatchesHold(events);
    var x := After(events).installs[i];
    LossesBetween(events, x.result.given, x.started);
    assert !events[x.result.given].FenceLost?;
  }

  /** Between any two installations a fence is lost. */
  lemma FenceLostBetweenInstalls(events: seq<Event>, i: nat, j: nat)
    requires Goes(events) && i < j < |After(events).installs|
    ensures var installs := After(events).installs;
            exists t :: installs[i].started <= t < installs[j].started < |events| && events[t].FenceLost?
  {
    hide Goes, After, Inv;
    AllTraced(events);
    LatchesHold(events);
    var a, b := After(events).installs[i].started, After(events).installs[j].started;
    if b <= a {
      LossesBetween(events, b, a);
    } else {
      LossesBetween(events, a, b);
    }
  }

  /** In every interleaving, an installation that a call starts while some run is in flight overtakes a run
      started after the call. */
  lemma CallOvertakesLaterRunsOnly(events: seq<Event>, i: nat)
    requires Goes(events) && i < |After(events).installs|
    requires var given := After(events).installs[i].result.given; given < |events| && events[given].InstallCalled?
    ensures var x := After(events).installs[i];
            && GivenBy(events, x.result)
            && (x.flight.Some? ==> x.flight.value >= After(events[..x.result.given]).runs)
  {
    hide Goes, After, Inv;
    AllTraced(events);
    var x := After(events).installs[i];
    assert events[x.started].Reconciled?;
    CallerLater(events[..x.started], events[x.started].k);
  }

  lemma CallerLater(events: seq<Event>, k: nat)
    requires Goes(events) && k < |After(events).callers| && After(events).callers[k].Reconciling?
    ensures Later(After(events), After(events).callers[k].result)
  {
    RunKeeps(events);
    hide Goes, After;
  }

  // ---------------------------------------------------------------------------
  // Who is elected, and when.
  // ---------------------------------------------------------------------------

  /** Event `i` is the trusted call that started run `id`: no election had completed and no run was in flight. */
  ghost predicate StartedRun(events: seq<Event>, i: nat, id: nat) {
    && i < |events| && events[i] == RunCalled(true)
    && Goes(events[..i])
    && var s := After(events[..i]); !s.ran && s.running.None? && s.runs == id
  }

  /** A run that is past the check of trust was started by a trusted call: an untrusted window never comes to
      the election, to the work after it, or to recovery. */
  lemma {:induction false} OnlyTrustedRuns(events: seq<Event>)
    requires Goes(events)
    ensures var running := After(events).running;
            running.Some? && !running.value.phase.Ending? ==>
              exists i: nat :: StartedRun(events, i, running.value.id)
    decreases |events|
  {
    if |events| > 0 {
      var n := |events| - 1;
      var before, e := events[..n], events[n];
      OnlyTrustedRuns(before);
      var s, s' := After(before), After(events);
      if s'.running.Some? && !s'.running.value.phase.Ending? {
        if s.running.Some? && s.running.value.id == s'.running.value.id {
          var i: nat :| StartedRun(before, i, s.running.value.id);
          assert events[..i] == before[..i];
          assert StartedRun(events, i, s'.running.value.id);
        } else {
          assert StartedRun(events, n, s'.running.value.id);
        }
      }
    }
  }

  /** Every election was called for by a trusted window. */
  lemma ElectionsAreTrusted(events: seq<Event>, j: nat)
    requires Goes(events) && j < |events| && events[j].Elected?
    ensures exists i: nat :: i < j && events[i] == RunCalled(true)
  {
    PrefixGoes(events, j + 1);
    var before := events[..j];
    assert events[..j + 1][..j] == before;
    OnlyTrustedRuns(before);
    var i: nat :| StartedRun(before, i, After(before).running.value.id);
    assert events[i] == before[i];
  }

  /** The first latch is closed exactly when an election has completed, won or lost. */
  lemma {:induction false} RanMeansElected(events: seq<Event>)
    requires Goes(events)
    ensures After(events).ran <==> exists i :: 0 <= i < |events| && events[i].Elected? && events[i].won.Some?
    decreases |events|
  {
    if |events| > 0 {
      var n := |events| - 1;
      var before := events[..n];
      RanMeansElected(before);
      assert forall i :: 0 <= i < n ==> before[i] == events[i];
      RanMoves(After(before), events[n]);
      hide Next, Can;
    }
  }

  lemma RanMoves(s: Latches, e: Event)
    requires Can(s, e)
    ensures Next(s, e).ran <==> s.ran || (e.Elected? && e.won.Some?)
  {
  }

  /** Recovery was installed since the last loss of the fence. */
  predicate SinceLoss(s: Latches) {
    |s.installs| > 0 && s.installs[|s.installs| - 1].losses == s.losses
  }

  /** The second latch is closed exactly when recovery was installed since the last loss of the fence. */
  lemma {:induction false} InstalledMeansSince(events: seq<Event>)
    requires Goes(events)
    ensures After(events).installedRecovery <==> SinceLoss(After(events))
    decreases |events|
  {
    if |events| > 0 {
      hide Next, Can, Inv, SinceLoss;
      var n := |events| - 1;
      InstalledMeansSince(events[..n]);
      RunKeeps(events[..n]);
      InstalledMoves(After(events[..n]), events[n]);
    }
  }

  lemma InstalledMoves(s: Latches, e: Event)
    requires Can(s, e) && Inv(s)
    requires s.installedRecovery <==> SinceLoss(s)
    ensures Next(s, e).installedRecovery <==> SinceLoss(Next(s, e))
  {
  }

  /** An event installs recovery exactly when it ends the work before it, or a call's reconciliation, well, on
      an acquired result, and recovery was not installed since the last loss of the fence. */
  lemma InstallsIff(events: seq<Event>, e: Event)
    requires Goes(events) && Can(After(events), e)
    ensures var s, s' := After(events), Next(After(events), e);
            |s'.installs| == |s.installs| + 1
            <==> && !SinceLoss(s)
                 && (match e
                     case PreambleOver(ok) => ok && s.running.value.phase.result.acquired
                     case Reconciled(k, ok) => ok && s.callers[k].result.acquired
                     case _ => false)
  {
    InstalledMeansSince(events);
    RunKeeps(events);
    hide Goes, After;
  }

  /** The event ends the run's work without success: a failed election, or failed work before or in recovery. */
  predicate Fails(e: Event) {
    e == Elected(None) || e == PreambleOver(false) || e == RunInstalled(false)
  }

  /** Event `i` failed run `id`. */
  ghost predicate FailedAt(events: seq<Event>, i: nat, id: nat) {
    i < |events| && Fails(events[i]) && Goes(events[..i]) && InFlight(After(events[..i]), id)
  }

  lemma FailedAtStays(events: seq<Event>, i: nat, id: nat)
    requires |events| > 0 && FailedAt(events[..|events| - 1], i, id)
    ensures FailedAt(events, i, id)
  {
    assert events[..|events| - 1][..i] == events[..i];
  }

  /** A run counts as failed, and is about to settle so, only when one of its awaits failed. */
  lemma {:induction false} FailedMeans(events: seq<Event>, id: nat)
    requires Goes(events)
    ensures var s := After(events);
            id in s.failed || (InFlight(s, id) && s.running.value.phase == Ending(false)) ==>
              exists i: nat :: FailedAt(events, i, id)
    decreases |events|
  {
    if |events| > 0 {
      var n := |events| - 1;
      FailedMeans(events[..n], id);
      var s, s' := After(events[..n]), After(events);
      FailedMoves(s, events[n], id);
      if id in s'.failed || (InFlight(s', id) && s'.running.value.phase == Ending(false)) {
        if Fails(events[n]) && InFlight(s, id) {
          assert FailedAt(events, n, id);
        } else {
          var i: nat :| FailedAt(events[..n], i, id);
          FailedAtStays(events, i, id);
        }
      }
      hide Next, Can;
    }
  }

  lemma FailedMoves(s: Latches, e: Event, id: nat)
    requires Can(s, e)
    ensures var s' := Next(s, e);
            id in s'.failed || (InFlight(s', id) && s'.running.value.phase == Ending(false)) ==>
              || id in s.failed || (InFlight(s, id) && s.running.value.phase == Ending(false))
              || (Fails(e) && InFlight(s, id))
  {
  }

  /** A call that waited goes on exactly when the run did not fail: it then comes to its reconciliation, or has
      nothing to install. */
  lemma ResumesUnlessFailed(events: seq<Event>, k: nat)
    requires Goes(events) && Can(After(events), CallerResumes(k))
    ensures var s, s' := After(events), Next(After(events), CallerResumes(k));
            var caller := s.callers[k];
            && (s'.callers[k].Reconciling? <==>
                  caller.run !in s.failed && caller.result.acquired && !SinceLoss(s))
            && (!s'.callers[k].Reconciling? ==> s'.callers[k].Over?)
            && (s'.callers[k].Reconciling? ==> s'.callers[k].result == caller.result)
            && s'.installs == s.installs
  {
    InstalledMeansSince(events);
    hide Goes, After;
  }

  /** A call joins the run in flight, and else comes to its reconciliation or has nothing to install; a
      reconciliation is over when it fails, and a call is over when its installation is. No call touches
      another. */
  lemma CallGoesOn(s: Latches, e: Event)
    requires Can(s, e) && (e.InstallCalled? || e.Reconciled? || e.CallerInstalled?)
    ensures var s' := Next(s, e);
            var k := if e.InstallCalled? then |s.callers| else e.k;
            && |s'.callers| == (if e.InstallCalled? then |s.callers| + 1 else |s.callers|) && k < |s'.callers|
            && (forall j :: 0 <= j < |s.callers| && j != k ==> s'.callers[j] == s.callers[j])
            && (e.InstallCalled? && s.running.Some? ==>
                  s'.callers[k] == AwaitingRun(s.running.value.id, Result(e.acquired, s.time, s.losses, s.runs)))
            && (e.InstallCalled? && s.running.None? ==>
                  s'.callers[k] == if e.acquired && !s.installedRecovery
                                   then Reconciling(Result(e.acquired, s.time, s.losses, s.runs)) else Over)
            && (e.Reconciled? ==>
                  s'.callers[k] == if e.ok && |s'.installs| == |s.installs| + 1 then Installing else Over)
            && (e.CallerInstalled? ==> s'.callers[k].Over?)
            && s'.running == s.running && s'.ran == s.ran
  {
  }

  /** A run in flight takes its steps one after another and then settles: what each of its awaits leaves. */
  lemma RunGoesOn(s: Latches, e: Event)
    requires Can(s, e) && (e.Elected? || e.PreambleOver? || e.RunInstalled? || e.RunSettles?)
    ensures var s' := Next(s, e);
            var id := s.running.value.id;
            && (if e.RunSettles? then s'.running.None? else InFlight(s', id))
            && (Fails(e) ==> s'.running.value.phase == Ending(false) && s'.installs == s.installs)
            && (e.RunSettles? ==> (id in s'.failed <==> id in s.failed || s.running.value.phase == Ending(false)))
            && (e.Elected? && e.won.Some? ==>
                  s'.running.value.phase.Preamble? && s'.running.value.phase.result.acquired == e.won.value)
            && (e == RunInstalled(true) ==> s'.running.value.phase == Ending(true))
            && (e == PreambleOver(true) ==>
                  s'.running.value.phase in {InstallingRecovery, Ending(true)}
                  && (s'.running.value.phase.InstallingRecovery? <==> |s'.installs| == |s.installs| + 1))
  {
  }

  /** A call starts a run exactly when no election has completed and no run is in flight; a trusted one then
      comes to the election, and an election that failed lets a later call try again. */
  lemma RunStartsIff(events: seq<Event>, trusted: bool)
    requires Goes(events)
    ensures var s, s' := After(events), Next(After(events), RunCalled(trusted));
            && (s'.runs == s.runs + 1
                <==> s.running.None? && forall i :: 0 <= i < |events| && events[i].Elected? ==> events[i].won.None?)
            && (s'.runs == s.runs + 1
               ==> s'.running == Some(Runner(s.runs, if trusted then Electing else Ending(true))))
            && (s'.runs != s.runs + 1 ==> s'.running == s.running && s'.runs == s.runs)
  {
    RanMeansElected(events);
    hide Goes, After;
  }

  /** So a stale result does install: a fence is lost during the work before recovery. */
  lemma StaleResultInstalls(events: seq<Event>)
    requires events == [RunCalled(true), Elected(Some(true)), FenceLost, PreambleOver(true)]
    ensures Goes(events) && After(events).installs == [Install(Result(true, 1, 0, 1), 3, 1, Some(0))]
  {
    AfterFour(events);
  }

  /** And a call does overtake a run that starts after it. */
  lemma LaterRunIsNotAwaited(events: seq<Event>)
    requires events == [InstallCalled(true), RunCalled(true), Elected(Some(true)), Reconciled(0, true)]
    ensures Goes(events) && After(events).installs == [Install(Result(true, 0, 0, 0), 3, 0, Some(0))]
    ensures InFlight(After(events), 0) && After(events).running.value.phase.Preamble?
  {
    AfterFour(events);
  }

  lemma AfterFour(events: seq<Event>)
    requires |events| == 4 && Can(FRESH, events[0])
    requires var s1 := Next(FRESH, events[0]);
             Can(s1, events[1]) && var s2 := Next(s1, events[1]);
             Can(s2, events[2]) && Can(Next(s2, events[2]), events[3])
    ensures Goes(events)
    ensures After(events) == Next(Next(Next(Next(FRESH, events[0]), events[1]), events[2]), events[3])
  {
    hide Next, Can, Goes, After;
    NothingGoes(events);
    GoesOn(events, 0);
    GoesOn(events, 1);
    GoesOn(events, 2);
    GoesOn(events, 3);
    assert events[..4] == events;
  }

  lemma NothingGoes(events: seq<Event>)
    ensures Goes(events[..0]) && After(events[..0]) == FRESH
  {
  }

  lemma GoesOn(events: seq<Event>, b: nat)
    requires b < |events| && Goes(events[..b]) && Can(After(events[..b]), events[b])
    ensures Goes(events[..b + 1]) && After(events[..b + 1]) == Next(After(events[..b]), events[b])
  {
    assert events[..b + 1][..b] == events[..b];
    hide Next, Can;
  }
}
