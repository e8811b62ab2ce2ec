/** The start of the live audit generation: the batch definition, and the clock that caches it. */
module GenerationClock {
  import opened Common

  /** What `Date.parse` makes of a row's timestamp: a finite time, or nothing usable. */
  type Stamp = Option<int>

  predicate Counts(stamp: Stamp, firstObserved: int) {
    stamp.Some? && stamp.value <= firstObserved
  }

  /** `r` is the oldest usable time at or before `firstObserved`, or that itself when there is none. */
  ghost predicate IsStart(r: int, stamps: seq<Stamp>, firstObserved: int) {
    && (forall i :: 0 <= i < |stamps| && Counts(stamps[i], firstObserved) ==> r <= stamps[i].value)
    && (if exists i :: 0 <= i < |stamps| && Counts(stamps[i], firstObserved)
        then exists i :: 0 <= i < |stamps| && Counts(stamps[i], firstObserved) && stamps[i] == Some(r)
        else r == firstObserved)
  }

  function Older(oldest: Option<int>, stamp: Stamp, firstObserved: int): Option<int> {
    if !Counts(stamp, firstObserved) then oldest
    else if oldest.None? || stamp.value < oldest.value then stamp
    else oldest
  }

  function Oldest(stamps: seq<Stamp>, firstObserved: int): Option<int>
    decreases |stamps|
  {
    if |stamps| == 0 then None
    else Older(Oldest(stamps[..|stamps| - 1], firstObserved), stamps[|stamps| - 1], firstObserved)
  }

  function Start(stamps: seq<Stamp>, firstObserved: int): int {
    Oldest(stamps, firstObserved).GetOr(firstObserved)
  }

  /** `generationStart`. */
  method GenerationStart(stamps: seq<Stamp>, firstObserved: int) returns (start: int)
    ensures start == Start(stamps, firstObserved)
    ensures IsStart(start, stamps, firstObserved)
    ensures start <= firstObserved
  {
    var oldest: Option<int> := None;
    for i := 0 to |stamps|
      invariant oldest == Oldest(stamps[..i], firstObserved)
    {
      assert stamps[..i + 1][..i] == stamps[..i];
      var at := stamps[i];
      if at.None? || at.value > firstObserved {
        continue;
      }
      if oldest.None? || at.value < oldest.value {
        oldest := at;
      }
    }
    assert stamps[..|stamps|] == stamps;
    StartIsStart(stamps, firstObserved);
    start := oldest.GetOr(firstObserved);
  }

  lemma {:induction false} OldestIsLeast(stamps: seq<Stamp>, firstObserved: int)
    ensures var oldest := Oldest(stamps, firstObserved);
            && (oldest.None? ==> forall i :: 0 <= i < |stamps| ==> !Counts(stamps[i], firstObserved))
            && (oldest.Some? ==>
                  && (exists i :: 0 <= i < |stamps| && Counts(stamps[i], firstObserved) && stamps[i] == oldest)
                  && (forall i ::
                        0 <= i < |stamps| && Counts(stamps[i], firstObserved) ==> oldest.value <= stamps[i].value))
    decreases |stamps|
  {
    if |stamps| > 0 {
      var n := |stamps| - 1;
      OldestIsLeast(stamps[..n], firstObserved);
      var before := Oldest(stamps[..n], firstObserved);
      if before.Some? {
        var i :| 0 <= i < n && Counts(stamps[..n][i], firstObserved) && stamps[..n][i] == before;
        assert stamps[i] == before;
      }
      forall i | 0 <= i < n ensures stamps[i] == stamps[..n][i] {
      }
    }
  }

  /** The start is the oldest usable time, and never later than the first observation. */
  lemma StartIsStart(stamps: seq<Stamp>, firstObserved: int)
    ensures IsStart(Start(stamps, firstObserved), stamps, firstObserved)
    ensures Start(stamps, firstObserved) <= firstObserved
  {
    OldestIsLeast(stamps, firstObserved);
  }

  // ---------------------------------------------------------------------------
  // The clock.
  // ---------------------------------------------------------------------------

  /** A line of the live log: empty, or some bytes with a timestamp. */
  datatype LogLine = Empty | Line(bytes: nat, stamp: Stamp)

  /** The identity of a generation: its first line that is not empty, by its digest. */
  type Identity = Option<nat>

  datatype Sidecar = Sidecar(generation: Identity, firstObserved: int)

  function NonEmpty(log: seq<LogLine>): seq<LogLine>
    decreases |log|
  {
    if |log| == 0 then []
    else NonEmpty(log[..|log| - 1]) + if log[|log| - 1].Empty? then [] else [log[|log| - 1]]
  }

  function StampsOf(log: seq<LogLine>): (r: seq<Stamp>)
    decreases |log|
  {
    if |log| == 0 then []
    else StampsOf(log[..|log| - 1]) + if log[|log| - 1].Empty? then [] else [log[|log| - 1].stamp]
  }

  function IdentityOf(log: seq<LogLine>): Identity {
    if |NonEmpty(log)| == 0 || NonEmpty(log)[0].Empty? then None else Some(NonEmpty(log)[0].bytes)
  }

  /** How one observation's reads and writes end: the log unreadable, the sidecar unreadable or unknown, the
      sidecar not written. */
  datatype Io = Io(now: int, logReadable: bool, sidecarReadable: bool, sidecarWritable: bool)

  /** The live log, the sidecar beside it, and the clock's cached start with the first observation it was
      reckoned from. */
  datatype Generation = Generation(log: seq<LogLine>, sidecar: Option<Sidecar>, start: Option<int>, observedAt: int)

  datatype Call = Observe(io: Io) | Land(line: LogLine) | Rotate | Restart

  /** The first observation the sidecar holds for this generation, or now. */
  function FirstObserved(g: Generation, io: Io): int {
    if io.sidecarReadable && g.sidecar.Some? && g.sidecar.value.generation == IdentityOf(g.log)
    then g.sidecar.value.firstObserved else io.now
  }

  function AfterObserve(g: Generation, io: Io): Generation {
    if g.start.Some? || !io.logReadable || |g.log| == 0 then g
    else
      var known := io.sidecarReadable && g.sidecar.Some? && g.sidecar.value.generation == IdentityOf(g.log);
      var sidecar := if !known && io.sidecarWritable then Some(Sidecar(IdentityOf(g.log), io.now)) else g.sidecar;
      var observedAt := FirstObserved(g, io);
      Generation(g.log, sidecar, Some(Start(StampsOf(g.log), observedAt)), observedAt)
  }

  function Answer(g: Generation, io: Io): int {
    AfterObserve(g, io).start.GetOr(io.now)
  }

  /** `landed`, with the row that landed. */
  function AfterLand(g: Generation, line: LogLine): Generation {
    var start := if g.start.Some? && line.Line? && line.stamp.Some? && line.stamp.value < g.start.value then line.stamp
                 else g.start;
    g.(log := g.log + [line], start := start)
  }

  function Next(g: Generation, call: Call): Generation {
    match call
    case Observe(io) => AfterObserve(g, io)
    case Land(line) => AfterLand(g, line)
    case Rotate => Generation([], g.sidecar, None, g.observedAt)
    case Restart => g.(start := None)
  }

  function After(g: Generation, calls: seq<Call>): Generation
    decreases |calls|
  {
    if |calls| == 0 then g else Next(After(g, calls[..|calls| - 1]), calls[|calls| - 1])
  }

  /** The cached start is the one reckoned from every row of the live log. */
  predicate Agrees(g: Generation) {
    g.start.Some? ==> g.start.value == Start(StampsOf(g.log), g.observedAt)
  }

  class AuditGenerationClock {
    var start: Option<int>
    /** The sidecar beside the log, and what the proof remembers of the generation. */
    var sidecar: Option<Sidecar>
    ghost var log: seq<LogLine>
    ghost var observedAt: int

    ghost function Current(): Generation
      reads this
    {
      Generation(log, sidecar, start, observedAt)
    }

    constructor (sidecar: Option<Sidecar>, ghost log: seq<LogLine>)
      ensures Current() == Generation(log, sidecar, None, 0)
    {
      this.start, this.sidecar, this.log, this.observedAt := None, sidecar, log, 0;
    }

    /** `observe`, reading `content` as the live log. */
    method Observe(content: seq<LogLine>, io: Io) returns (answer: int)
      requires content == log && Agrees(Current())
      modifies this`start, this`sidecar, this`observedAt
      ensures Current() == AfterObserve(old(Current()), io)
      ensures answer == Answer(old(Current()), io)
      ensures Agrees(Current())
    {
      if start.Some? {
        return start.value;
      }
      if !io.logReadable || |content| == 0 {
        return io.now;
      }
      var identity := IdentityOf(content);
      var firstObserved := io.now;
      if io.sidecarReadable && sidecar.Some? && sidecar.value.generation == identity {
        firstObserved := sidecar.value.firstObserved;
      } else if io.sidecarWritable {
        sidecar := Some(Sidecar(identity, io.now));
      }
      answer := GenerationStart(StampsOf(content), firstObserved);
      start := Some(answer);
      observedAt := firstObserved;
    }

    /** `landed`, after the row was appended. */
    method Landed(line: LogLine)
      requires Agrees(Current())
      modifies this`start, this`log
      ensures Current() == AfterLand(old(Current()), line)
      ensures Agrees(Current())
    {
      CallKeepsAgreement(Current(), Land(line));
      log := log + [line];
      if start.None? || line.Empty? || line.stamp.None? {
        return;
      }
      if line.stamp.value < start.value {
        start := line.stamp;
      }
    }

    /** `rotated`. */
    method Rotated()
      modifies this`start, this`log
      ensures Current() == Next(old(Current()), Rotate)
      ensures Agrees(Current())
    {
      start, log := None, [];
    }
  }

  /** Line `i` is the first that is not empty. */
  ghost predicate FirstLine(log: seq<LogLine>, i: nat) {
    i < |log| && log[i].Line? && forall j :: 0 <= j < i ==> log[j].Empty?
  }

  lemma {:induction false} FirstIsFirst(log: seq<LogLine>)
    ensures if |NonEmpty(log)| == 0 then forall j :: 0 <= j < |log| ==> log[j].Empty?
            else exists i: nat :: FirstLine(log, i) && NonEmpty(log)[0] == log[i]
    decreases |log|
  {
    if |log| > 0 {
      var n := |log| - 1;
      FirstIsFirst(log[..n]);
      if |NonEmpty(log[..n])| > 0 {
        var i: nat :| FirstLine(log[..n], i) && NonEmpty(log[..n])[0] == log[..n][i];
        assert FirstLine(log, i) && NonEmpty(log)[0] == log[i];
      } else if log[n].Line? {
        assert forall j :: 0 <= j < n ==> log[j] == log[..n][j];
        assert FirstLine(log, n) && NonEmpty(log)[0] == log[n];
      }
    }
  }

  /** Two generations have one identity exactly when their first lines that are not empty have the same bytes. */
  lemma SameIdentityIff(a: seq<LogLine>, i: nat, b: seq<LogLine>, j: nat)
    requires FirstLine(a, i) && FirstLine(b, j)
    ensures IdentityOf(a) == IdentityOf(b) <==> a[i].bytes == b[j].bytes
  {
    FirstIsFirst(a);
    FirstIsFirst(b);
    var k: nat :| FirstLine(a, k) && NonEmpty(a)[0] == a[k];
    var l: nat :| FirstLine(b, l) && NonEmpty(b)[0] == b[l];
    assert k == i && l == j;
  }

  /** What an observation answers and leaves: the cached start if there is one; now, and nothing cached or
      written, when there is no generation to read yet; else the oldest usable time of the rows up to the first
      observation, cached. */
  lemma ObserveTold(g: Generation, io: Io)
    ensures var g', answer := Next(g, Observe(io)), Answer(g, io);
            if g.start.Some? then g' == g && answer == g.start.value
            else if !io.logReadable || g.log == [] then g' == g && answer == io.now
            else
              && g'.start == Some(answer) && g'.log == g.log
              && (g'.observedAt == io.now || (g.sidecar.Some? && g'.observedAt == g.sidecar.value.firstObserved))
              && answer <= g'.observedAt
              && IsStart(answer, StampsOf(g.log), g'.observedAt)
  {
    StartIsStart(StampsOf(g.log), FirstObserved(g, io));
  }

  /** A sidecar of another generation is not taken: the first observation is then now, and when it can be
      written, the sidecar is this generation's from then on. */
  lemma OtherSidecarIsNotTaken(g: Generation, io: Io, was: seq<LogLine>, i: nat, j: nat)
    requires g.start.None? && io.logReadable && FirstLine(g.log, i) && FirstLine(was, j)
    requires g.sidecar.Some? && g.sidecar.value.generation == IdentityOf(was)
    ensures var g' := Next(g, Observe(io));
            && g'.observedAt == (if io.sidecarReadable && was[j].bytes == g.log[i].bytes
                                 then g.sidecar.value.firstObserved else io.now)
            && g'.start == Some(Start(StampsOf(g.log), g'.observedAt))
            && (g'.observedAt == io.now && io.sidecarWritable && !(io.sidecarReadable && was[j].bytes == g.log[i].bytes)
                ==> g'.sidecar == Some(Sidecar(IdentityOf(g.log), io.now)))
  {
    SameIdentityIff(g.log, i, was, j);
  }

  lemma StampsGrow(log: seq<LogLine>, line: LogLine)
    ensures StampsOf(log + [line]) == StampsOf(log) + if line.Empty? then [] else [line.stamp]
    ensures |NonEmpty(log)| > 0 ==> |NonEmpty(log + [line])| > 0 && NonEmpty(log + [line])[0] == NonEmpty(log)[0]
  {
    assert (log + [line])[..|log|] == log;
  }

  /** One more row: the start moves exactly to an older usable time. */
  lemma StartGrows(stamps: seq<Stamp>, stamp: Stamp, firstObserved: int)
    ensures var start := Start(stamps, firstObserved);
            Start(stamps + [stamp], firstObserved) == if stamp.Some? && stamp.value < start then stamp.value else start
  {
    assert (stamps + [stamp])[..|stamps|] == stamps;
    StartIsStart(stamps, firstObserved);
  }

  lemma CallKeepsAgreement(g: Generation, call: Call)
    requires Agrees(g)
    ensures Agrees(Next(g, call))
  {
    if call.Land? {
      hide StampsOf, Start, NonEmpty;
      StampsGrow(g.log, call.line);
      if call.line.Line? {
        StartGrows(StampsOf(g.log), call.line.stamp, g.observedAt);
      } else {
        assert StampsOf(g.log) + [] == StampsOf(g.log);
      }
    }
  }

  /** After any calls the cached start is the recomputed one, and no later than the first observation. */
  lemma {:induction false} CacheAgrees(g: Generation, calls: seq<Call>)
    requires Agrees(g)
    ensures var g' := After(g, calls);
            Agrees(g') && (g'.start.Some? ==> g'.start.value <= g'.observedAt)
    decreases |calls|
  {
    if |calls| > 0 {
      CacheAgrees(g, calls[..|calls| - 1]);
      CallKeepsAgreement(After(g, calls[..|calls| - 1]), calls[|calls| - 1]);
    }
    StartIsStart(StampsOf(After(g, calls).log), After(g, calls).observedAt);
  }

  /** A row appended without `landed` leaves the cache right exactly when it is not usable and older. */
  lemma UnnoticedRow(g: Generation, line: LogLine)
    requires Agrees(g) && g.start.Some?
    ensures Agrees(g.(log := g.log + [line]))
       <==> !(line.Line? && line.stamp.Some? && line.stamp.value < g.start.value)
  {
    StampsGrow(g.log, line);
    if line.Line? {
      StartGrows(StampsOf(g.log), line.stamp, g.observedAt);
    } else {
      assert StampsOf(g.log) + [] == StampsOf(g.log);
    }
  }

  /** There is one start, and a time is no later than it exactly when it is no later than the first observation
      and than every usable time. */
  lemma StartIsUnique(stamps: seq<Stamp>, firstObserved: int, at: int)
    ensures at == Start(stamps, firstObserved) <==> IsStart(at, stamps, firstObserved)
    ensures at <= Start(stamps, firstObserved)
       <==> && at <= firstObserved
            && forall i :: 0 <= i < |stamps| && Counts(stamps[i], firstObserved) ==> at <= stamps[i].value
  {
    StartIsStart(stamps, firstObserved);
  }

  /** Another window rotated the log, and the clock was not told: whatever the new log holds, its cache is right
      exactly when it is the start of the new rows, agrees with a clock started afresh exactly when it is their
      start from the first observation of the new generation, and makes the generation look younger than that
      clock does exactly when an older usable row or an earlier first observation is there. */
  lemma UnnoticedRotation(g: Generation, log: seq<LogLine>, io: Io)
    requires g.start.Some? && io.logReadable && |log| > 0
    ensures var stale, stamps := g.(log := log), StampsOf(log);
            var anew, first := Next(stale, Restart), FirstObserved(stale, io);
            && (Agrees(stale) <==> IsStart(g.start.value, stamps, g.observedAt))
            && (Answer(stale, io) == Answer(anew, io) <==> IsStart(g.start.value, stamps, first))
            && (Answer(stale, io) > Answer(anew, io)
                <==> g.start.value > first
                     || exists i :: 0 <= i < |stamps| && Counts(stamps[i], first) && stamps[i].value < g.start.value)
  {
    StartIsUnique(StampsOf(log), g.observedAt, g.start.value);
    StartIsUnique(StampsOf(log), FirstObserved(g.(log := log), io), g.start.value);
  }

  lemma {:induction false} LandedKeepFirst(g: Generation, lines: seq<LogLine>)
    requires g.start.Some? && |NonEmpty(g.log)| > 0
    ensures var g' := After(g, seq(|lines|, i requires 0 <= i < |lines| => Land(lines[i])));
            && g'.sidecar == g.sidecar && g'.observedAt == g.observedAt && |g'.log| > 0
            && IdentityOf(g'.log) == IdentityOf(g.log)
            && |NonEmpty(g'.log)| > 0
    decreases |lines|
  {
    var calls := seq(|lines|, i requires 0 <= i < |lines| => Land(lines[i]));
    if |lines| > 0 {
      var n := |lines| - 1;
      LandedKeepFirst(g, lines[..n]);
      assert calls[..n] == seq(n, i requires 0 <= i < n => Land(lines[..n][i]));
      StampsGrow(After(g, calls[..n]).log, lines[n]);
    }
  }

  /** A generation's first observation survives a restart: once the sidecar was written, a later observation of
      the same generation reckons from the same time, whatever rows landed in between. */
  lemma RestartRemembers(g: Generation, io: Io, lines: seq<LogLine>, later: Io)
    requires g.start.None? && |NonEmpty(g.log)| > 0 && |g.log| > 0
    requires io.logReadable && io.sidecarWritable && later.logReadable && later.sidecarReadable
    ensures var seen := After(Next(g, Observe(io)), seq(|lines|, i requires 0 <= i < |lines| => Land(lines[i])));
            var again := Next(Next(seen, Restart), Observe(later));
            && again.observedAt == seen.observedAt
            && again.start == Some(Start(StampsOf(seen.log), FirstObserved(g, io)))
  {
    LandedKeepFirst(Next(g, Observe(io)), lines);
  }
}
