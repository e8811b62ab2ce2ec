/** Catalog saves: write-once version records, a manifest that names them, and the order that makes a crash
    between the two harmless. */
module CatalogWrites {
  /** A version record's place, and what it holds. */
  type VersionId = nat
  type Body = nat

  /** A record file: complete, or what a failed write left. */
  datatype Record = Complete(body: Body) | Partial

  type Names = set<VersionId>

  /** The store: its record files, and the versions its manifest names (none when there is no manifest). */
  datatype Store = Store(records: map<VersionId, Record>, manifest: Names)

  datatype Contents = RecordOf(version: VersionId, body: Body) | ManifestOf(names: Names)

  /** A step writes a record if its file is absent, or replaces the manifest; `tag` is the label it reports. */
  datatype WriteStep = WriteStep(contents: Contents, tag: nat)

  /** How a write ends when the file may be written: it lands, or fails; a failed record write may leave a
      partial file, a failed manifest write leaves the old one (a sibling and a rename). */
  datatype Landing = Lands | Fails(errno: nat, leavesPartial: bool)

  datatype Outcome =
    | Written(wrote: seq<nat>)
    | Exists(wrote: seq<nat>, at: nat)
    | Failed(wrote: seq<nat>, errno: nat)

  datatype StepResult = Landed | AlreadyThere | DidNot(errno: nat)

  /** One write. */
  function Write(s: Store, step: WriteStep, landing: Landing): (Store, StepResult) {
    match step.contents
    case RecordOf(v, body) =>
      if v in s.records then (s, AlreadyThere)
      else
        (match landing
         case Lands => (s.(records := s.records[v := Complete(body)]), Landed)
         case Fails(errno, partial) => (if partial then s.(records := s.records[v := Partial]) else s, DidNot(errno)))
    case ManifestOf(names) =>
      (match landing
       case Lands => (s.(manifest := names), Landed)
       case Fails(errno, _) => (s, DidNot(errno)))
  }

  /** The store after the first `n` steps, all of them landed or not. */
  function StoreAfter(s: Store, steps: seq<WriteStep>, landings: seq<Landing>, n: nat): Store
    requires n <= |steps| <= |landings|
  {
    if n == 0 then s else Write(StoreAfter(s, steps, landings, n - 1), steps[n - 1], landings[n - 1]).0
  }

  predicate LandsAt(s: Store, steps: seq<WriteStep>, landings: seq<Landing>, i: nat)
    requires i < |steps| <= |landings|
  {
    Write(StoreAfter(s, steps, landings, i), steps[i], landings[i]).1.Landed?
  }

  function Labels(steps: seq<WriteStep>): (r: seq<nat>)
    ensures |r| == |steps| && forall i :: 0 <= i < |steps| ==> r[i] == steps[i].tag
  {
    seq(|steps|, i requires 0 <= i < |steps| => steps[i].tag)
  }

  /** What is on disk when a sequence stops after `n` landed steps: all of them, or the next one did not land. */
  predicate StoppedAt(s: Store, steps: seq<WriteStep>, landings: seq<Landing>, n: nat, s': Store, o: Outcome)
    requires n <= |steps| <= |landings|
  {
    && (forall i :: 0 <= i < n ==> LandsAt(s, steps, landings, i))
    && o.wrote == Labels(steps[..n])
    && (if n == |steps| then o.Written? && s' == StoreAfter(s, steps, landings, n)
        else
          && !LandsAt(s, steps, landings, n)
          && s' == StoreAfter(s, steps, landings, n + 1)
          && match Write(StoreAfter(s, steps, landings, n), steps[n], landings[n]).1
             case AlreadyThere => o.Exists? && o.at == steps[n].tag
             case DidNot(errno) => o.Failed? && o.errno == errno
             case Landed => false)
  }

  class CatalogFs {
    var records: map<VersionId, Record>
    var manifest: Names

    function Value(): Store
      reads this
    {
      Store(records, manifest)
    }

    constructor (s: Store)
      ensures Value() == s
    {
      records, manifest := s.records, s.manifest;
    }

    /** `writeFileIfAbsent`. */
    method WriteFileIfAbsent(v: VersionId, body: Body, landing: Landing) returns (r: StepResult)
      modifies this`records
      ensures (Value(), r) == Write(old(Value()), WriteStep(RecordOf(v, body), 0), landing)
    {
      if v in records {
        return AlreadyThere;
      }
      match landing {
        case Lands =>
          records := records[v := Complete(body)];
          r := Landed;
        case Fails(errno, partial) =>
          if partial {
            records := records[v := Partial];
          }
          r := DidNot(errno);
      }
    }

    /** `writeFileAtomic`. */
    method WriteFileAtomic(names: Names, landing: Landing) returns (r: StepResult)
      modifies this`manifest
      ensures (Value(), r) == Write(old(Value()), WriteStep(ManifestOf(names), 0), landing)
    {
      match landing {
        case Lands =>
          manifest := names;
          r := Landed;
        case Fails(errno, _) =>
          r := DidNot(errno);
      }
    }
  }

  /** `runWriteSequence`: in order, up to the first step that does not land; `wrote` is exactly what landed. */
  method RunWriteSequence(fs: CatalogFs, steps: seq<WriteStep>, landings: seq<Landing>)
    returns (outcome: Outcome, ghost n: nat)
    requires |steps| <= |landings|
    modifies fs
    ensures n <= |steps| && StoppedAt(old(fs.Value()), steps, landings, n, fs.Value(), outcome)
  {
    var wrote: seq<nat> := [];
    for i := 0 to |steps|
      invariant fs.Value() == StoreAfter(old(fs.Value()), steps, landings, i)
      invariant wrote == Labels(steps[..i])
      invariant forall k :: 0 <= k < i ==> LandsAt(old(fs.Value()), steps, landings, k)
    {
      var step := steps[i];
      var written: StepResult;
      match step.contents {
        case RecordOf(v, body) =>
          written := fs.WriteFileIfAbsent(v, body, landings[i]);
          if written.AlreadyThere? {
            return Exists(wrote, step.tag), i;
          }
        case ManifestOf(names) =>
          written := fs.WriteFileAtomic(names, landings[i]);
      }
      if written.DidNot? {
        return Failed(wrote, written.errno), i;
      }
      assert steps[..i + 1] == steps[..i] + [step];
      wrote := wrote + [step.tag];
    }
    assert steps[..|steps|] == steps;
    return Written(wrote), |steps|;
  }

  // ---------------------------------------------------------------------------
  // Saves.
  // ---------------------------------------------------------------------------

  /** Every version the manifest names has its complete record. */
  ghost predicate Resolves(s: Store) {
    forall v :: v in s.manifest ==> v in s.records && s.records[v].Complete?
  }

  /** Records are only added: no file is replaced or removed. */
  ghost predicate RecordsKept(s: Store, s': Store) {
    forall v :: v in s.records ==> v in s'.records && s'.records[v] == s.records[v]
  }

  /** A save: its records first and the manifest last, which names versions that resolved when the save was
      planned, and its own. */
  ghost predicate IsSave(planned: Store, steps: seq<WriteStep>) {
    && |steps| > 0
    && steps[|steps| - 1].contents.ManifestOf?
    && (forall i :: 0 <= i < |steps| - 1 ==> steps[i].contents.RecordOf?)
    && forall v :: v in steps[|steps| - 1].contents.names ==>
         (v in planned.records && planned.records[v].Complete?) || Saves(steps, v)
  }

  ghost predicate Saves(steps: seq<WriteStep>, v: VersionId) {
    exists i :: 0 <= i < |steps| && steps[i].contents.RecordOf? && steps[i].contents.version == v
  }

  lemma WriteKeepsRecords(s: Store, step: WriteStep, landing: Landing)
    ensures RecordsKept(s, Write(s, step, landing).0)
  {
  }

  lemma {:induction false} StepsKeepRecords(s: Store, steps: seq<WriteStep>, landings: seq<Landing>, n: nat)
    requires n <= |steps| <= |landings|
    ensures RecordsKept(s, StoreAfter(s, steps, landings, n))
    decreases n
  {
    if n > 0 {
      StepsKeepRecords(s, steps, landings, n - 1);
      WriteKeepsRecords(StoreAfter(s, steps, landings, n - 1), steps[n - 1], landings[n - 1]);
    }
  }

  // ---------------------------------------------------------------------------
  // What a sequence leaves on disk.
  // ---------------------------------------------------------------------------

  /** Version `v` is written by one of the first `n` steps. */
  predicate Touches(steps: seq<WriteStep>, n: nat, v: VersionId) {
    exists i :: 0 <= i < n && i < |steps| && steps[i].contents.RecordOf? && steps[i].contents.version == v
  }

  /** The records that the first `n` steps landed are there with what those steps hold. */
  ghost predicate Holds(s: Store, steps: seq<WriteStep>, n: nat) {
    forall i :: 0 <= i < n && i < |steps| && steps[i].contents.RecordOf? ==>
      var v := steps[i].contents.version; v in s.records && s.records[v] == Complete(steps[i].contents.body)
  }

  lemma {:induction false} LandedStepsHold(s: Store, steps: seq<WriteStep>, landings: seq<Landing>, n: nat)
    requires n <= |steps| <= |landings| && forall i :: 0 <= i < n ==> LandsAt(s, steps, landings, i)
    ensures Holds(StoreAfter(s, steps, landings, n), steps, n)
    ensures forall i :: 0 <= i < n && steps[i].contents.RecordOf? ==> steps[i].contents.version !in s.records
    decreases n
  {
    if n > 0 {
      LandedStepsHold(s, steps, landings, n - 1);
      StepsKeepRecords(s, steps, landings, n - 1);
      assert LandsAt(s, steps, landings, n - 1);
    }
  }

  lemma {:induction false} OthersStay(s: Store, steps: seq<WriteStep>, landings: seq<Landing>, n: nat)
    requires n <= |steps| <= |landings|
    ensures var s' := StoreAfter(s, steps, landings, n);
            forall v :: v in s'.records && !Touches(steps, n, v) ==> v in s.records && s'.records[v] == s.records[v]
    decreases n
  {
    if n > 0 {
      OthersStay(s, steps, landings, n - 1);
      var s' := StoreAfter(s, steps, landings, n);
      forall v | v in s'.records && !Touches(steps, n, v) ensures v in s.records && s'.records[v] == s.records[v] {
        assert !Touches(steps, n - 1, v);
        assert steps[n - 1].contents.RecordOf? ==> steps[n - 1].contents.version != v;
      }
    }
  }

  /** The names of the last manifest among the first `n` steps, or those there were. */
  function LastNames(was: Names, steps: seq<WriteStep>, n: nat): Names
    requires n <= |steps|
  {
    if n == 0 then was
    else if steps[n - 1].contents.ManifestOf? then steps[n - 1].contents.names
    else LastNames(was, steps, n - 1)
  }

  lemma {:induction false} LastManifestNames(s: Store, steps: seq<WriteStep>, landings: seq<Landing>, n: nat)
    requires n <= |steps| <= |landings| && forall i :: 0 <= i < n ==> LandsAt(s, steps, landings, i)
    ensures StoreAfter(s, steps, landings, n).manifest == LastNames(s.manifest, steps, n)
    decreases n
  {
    if n > 0 {
      LastManifestNames(s, steps, landings, n - 1);
      assert LandsAt(s, steps, landings, n - 1);
    }
  }

  /** A sequence that stopped after `n` landed steps: each landed record had no file before and now holds its
      step's body, the manifest names what the last landed one names, a step whose record was there changed
      nothing, one that failed left at most a partial record of its own, and no other record appeared. */
  lemma SequenceLeaves(s: Store, steps: seq<WriteStep>, landings: seq<Landing>, n: nat, s': Store, o: Outcome)
    requires n <= |steps| <= |landings| && StoppedAt(s, steps, landings, n, s', o)
    ensures Holds(s', steps, n) && RecordsKept(s, s')
    ensures forall i :: 0 <= i < n && steps[i].contents.RecordOf? ==> steps[i].contents.version !in s.records
    ensures s'.manifest == LastNames(s.manifest, steps, n)
    ensures forall v :: v in s'.records && v !in s.records ==>
              Touches(steps, n, v)
              || (o.Failed? && steps[n].contents.RecordOf? && steps[n].contents.version == v
                  && s'.records[v] == Partial)
    ensures o.wrote == Labels(steps[..n]) && (o.Written? <==> n == |steps|)
    ensures n < |steps| ==>
              var step := steps[n];
              && (o.Exists? <==> step.contents.RecordOf?
                                 && (step.contents.version in s.records || Touches(steps, n, step.contents.version)))
              && (o.Exists? ==> o.at == step.tag)
              && (o.Failed? ==> landings[n].Fails? && o.errno == landings[n].errno)
  {
    LandedStepsHold(s, steps, landings, n);
    OthersStay(s, steps, landings, n);
    LastManifestNames(s, steps, landings, n);
    StepsKeepRecords(s, steps, landings, n);
    if n < |steps| {
      WriteKeepsRecords(StoreAfter(s, steps, landings, n), steps[n], landings[n]);
      hide LandsAt, LastNames;
      TouchedIsThere(StoreAfter(s, steps, landings, n), steps, n);
      hide Touches;
      assert !LandsAt(s, steps, landings, n);
      StepThatDidNot(StoreAfter(s, steps, landings, n), steps[n], landings[n]);
    }
  }

  lemma TouchedIsThere(s: Store, steps: seq<WriteStep>, n: nat)
    requires Holds(s, steps, n)
    ensures forall v :: Touches(steps, n, v) ==> v in s.records
  {
  }

  /** A write that did not land. */
  lemma StepThatDidNot(s: Store, step: WriteStep, landing: Landing)
    requires !Write(s, step, landing).1.Landed?
    ensures var (s', result) := Write(s, step, landing);
            && s'.manifest == s.manifest
            && (result.AlreadyThere? <==> step.contents.RecordOf? && step.contents.version in s.records)
            && (result.AlreadyThere? ==> s' == s)
            && (result.DidNot? ==> landing.Fails? && result.errno == landing.errno)
            && forall v :: v in s'.records && v !in s.records ==>
                 step.contents.RecordOf? && step.contents.version == v && s'.records[v] == Partial && result.DidNot?
  {
  }

  /** Steps that landed left complete records; before the manifest is reached it is as it was. */
  lemma {:induction false} RecordsLand(s: Store, steps: seq<WriteStep>, landings: seq<Landing>, n: nat, m: nat)
    requires m <= n <= |steps| <= |landings| && n <= m + 1
    requires forall i :: 0 <= i < m ==> LandsAt(s, steps, landings, i)
    requires forall i :: 0 <= i < n ==> steps[i].contents.RecordOf?
    ensures var s' := StoreAfter(s, steps, landings, n);
            && s'.manifest == s.manifest
            && forall i :: 0 <= i < m ==> var v := steps[i].contents.version; v in s'.records && s'.records[v].Complete?
    decreases n
  {
    if n > 0 {
      RecordsLand(s, steps, landings, n - 1, if m == n then m - 1 else m);
      WriteKeepsRecords(StoreAfter(s, steps, landings, n - 1), steps[n - 1], landings[n - 1]);
      if m == n {
        assert LandsAt(s, steps, landings, n - 1);
      }
    }
  }

  /** A save stopped after any step leaves every named version with its record, and changes no record. */
  lemma SaveKeepsResolving(planned: Store, s: Store, steps: seq<WriteStep>, landings: seq<Landing>, n: nat, s': Store,
      o: Outcome)
    requires Resolves(s) && RecordsKept(planned, s) && IsSave(planned, steps)
    requires n <= |steps| <= |landings| && StoppedAt(s, steps, landings, n, s', o)
    ensures Resolves(s') && RecordsKept(s, s')
    ensures o.Written? ==> s'.manifest == steps[|steps| - 1].contents.names
    ensures !o.Written? ==> s'.manifest == s.manifest
  {
    var last := |steps| - 1;
    StepsKeepRecords(s, steps, landings, n);
    if n < |steps| {
      StepsKeepRecords(s, steps, landings, n + 1);
    }
    if n < last {
      RecordsLand(s, steps, landings, n + 1, n);
    } else {
      RecordsLand(s, steps, landings, last, last);
      var before := StoreAfter(s, steps, landings, last);
      if n == |steps| {
        assert LandsAt(s, steps, landings, last);
        forall v | v in steps[last].contents.names ensures v in before.records && before.records[v].Complete? {
          if Saves(steps, v) {
            var i :| 0 <= i < |steps| && steps[i].contents.RecordOf? && steps[i].contents.version == v;
            assert i < last;
          }
        }
      }
    }
  }

  /** Saves made one after another by any windows, each planned on some earlier state of the store. */
  datatype Save = Save(plannedAt: nat, steps: seq<WriteStep>, landings: seq<Landing>, landed: nat, outcome: Outcome)

  ghost predicate Follows(stores: seq<Store>, saves: seq<Save>) {
    && |stores| == |saves| + 1
    && forall k :: 0 <= k < |saves| ==>
         && saves[k].landed <= |saves[k].steps| <= |saves[k].landings|
         && saves[k].plannedAt <= k
         && IsSave(stores[saves[k].plannedAt], saves[k].steps)
         && StoppedAt(stores[k], saves[k].steps, saves[k].landings, saves[k].landed, stores[k + 1], saves[k].outcome)
  }

  /** Over any such saves, each stopped anywhere, the manifest names only versions whose record is there and
      complete, and no record once written changes. */
  lemma {:induction false} SavesKeepResolving(stores: seq<Store>, saves: seq<Save>, k: nat)
    requires Follows(stores, saves) && Resolves(stores[0]) && k <= |saves|
    ensures Resolves(stores[k]) && forall j :: 0 <= j <= k ==> RecordsKept(stores[j], stores[k])
    decreases k
  {
    if k > 0 {
      SavesKeepResolving(stores, saves, k - 1);
      var save := saves[k - 1];
      SaveKeepsResolving(stores[save.plannedAt], stores[k - 1], save.steps, save.landings, save.landed, stores[k],
          save.outcome);
    }
  }

  // ---------------------------------------------------------------------------
  // Windows whose saves interleave.
  // ---------------------------------------------------------------------------

  /** A save under way: the steps still to come begin at `next`, and a step that did not land was its last. */
  datatype Running = Running(steps: seq<WriteStep>, next: nat, stopped: bool)

  datatype Catalog = Catalog(store: Store, saves: seq<Running>)

  /** A window plans a save on the store as it is, or some save under way makes its next write. */
  datatype Act = Plan(steps: seq<WriteStep>) | Do(save: nat, landing: Landing)

  ghost predicate CanAct(c: Catalog, a: Act) {
    match a
    case Plan(steps) => IsSave(c.store, steps)
    case Do(k, _) => k < |c.saves| && !c.saves[k].stopped && c.saves[k].next < |c.saves[k].steps|
  }

  ghost function AfterAct(c: Catalog, a: Act): Catalog
    requires CanAct(c, a)
  {
    match a
    case Plan(steps) => c.(saves := c.saves + [Running(steps, 0, false)])
    case Do(k, landing) =>
      var save := c.saves[k];
      var (store, result) := Write(c.store, save.steps[save.next], landing);
      Catalog(store, c.saves[k := if result.Landed? then save.(next := save.next + 1) else save.(stopped := true)])
  }

  ghost predicate CanAll(c: Catalog, acts: seq<Act>)
    decreases |acts|
  {
    |acts| > 0 ==> CanAct(c, acts[0]) && CanAll(AfterAct(c, acts[0]), acts[1..])
  }

  ghost function AfterAll(c: Catalog, acts: seq<Act>): Catalog
    requires CanAll(c, acts)
    decreases |acts|
  {
    if |acts| == 0 then c else AfterAll(AfterAct(c, acts[0]), acts[1..])
  }

  /** What a save under way has written is there, and what it will name is there or to come. */
  ghost predicate SaveSound(s: Store, save: Running) {
    && IsSave(s, save.steps)
    && save.next <= |save.steps|
    && Holds(s, save.steps, save.next)
  }

  ghost predicate CatalogSound(c: Catalog) {
    Resolves(c.store) && forall k :: 0 <= k < |c.saves| ==> SaveSound(c.store, c.saves[k])
  }

  lemma SaveStaysSound(s: Store, s': Store, save: Running)
    requires SaveSound(s, save) && RecordsKept(s, s')
    ensures SaveSound(s', save)
  {
  }

  /** A manifest written when every record step of its save has landed names only records that are there. */
  lemma ManifestResolves(s: Store, save: Running)
    requires Resolves(s) && SaveSound(s, save) && save.next < |save.steps| && save.steps[save.next].contents.ManifestOf?
    ensures Resolves(s.(manifest := save.steps[save.next].contents.names))
  {
    forall v | v in save.steps[save.next].contents.names ensures v in s.records && s.records[v].Complete? {
      if Saves(save.steps, v) {
        var i :| 0 <= i < |save.steps| && save.steps[i].contents.RecordOf? && save.steps[i].contents.version == v;
        assert i < save.next;
      }
    }
  }

  lemma ActKeeps(c: Catalog, a: Act)
    requires CatalogSound(c) && CanAct(c, a)
    ensures CatalogSound(AfterAct(c, a)) && RecordsKept(c.store, AfterAct(c, a).store)
  {
    var c' := AfterAct(c, a);
    if a.Do? {
      var save := c.saves[a.save];
      var step := save.steps[save.next];
      WriteKeepsRecords(c.store, step, a.landing);
      if step.contents.ManifestOf? {
        ManifestResolves(c.store, save);
      }
      assert Resolves(c'.store);
      forall k | 0 <= k < |c'.saves| ensures SaveSound(c'.store, c'.saves[k]) {
        SaveStaysSound(c.store, c'.store, c.saves[k]);
      }
    }
  }

  /** However the writes of any windows' saves interleave, and wherever each stops, the manifest names only
      versions whose record is there and complete, and no record once written changes. */
  lemma {:induction false} InterleavedSavesKeepResolving(c: Catalog, acts: seq<Act>)
    requires CatalogSound(c) && CanAll(c, acts)
    ensures CatalogSound(AfterAll(c, acts)) && RecordsKept(c.store, AfterAll(c, acts).store)
    decreases |acts|
  {
    hide CatalogSound, AfterAct, CanAct;
    if |acts| > 0 {
      ActKeeps(c, acts[0]);
      InterleavedSavesKeepResolving(AfterAct(c, acts[0]), acts[1..]);
    }
  }

  /** Every record is one that was there, or one that a save under way or over wrote: with that save's body when
      the step landed, and else partial. */
  ghost predicate RecordsFrom(was: Store, c: Catalog) {
    forall v :: v in c.store.records ==>
      || (v in was.records && c.store.records[v] == was.records[v])
      || exists k, i :: 0 <= k < |c.saves| && WroteIt(c.saves[k], i, v, c.store.records[v])
  }

  predicate WroteIt(save: Running, i: int, v: VersionId, record: Record) {
    && 0 <= i < |save.steps| && save.steps[i].contents.RecordOf? && save.steps[i].contents.version == v
    && (if i < save.next then record == Complete(save.steps[i].contents.body)
        else i == save.next && save.stopped && record == Partial)
  }

  /** The manifest is the one there was, or that of a save whose every step landed. */
  ghost predicate ManifestFrom(was: Store, c: Catalog) {
    || c.store.manifest == was.manifest
    || exists k :: 0 <= k < |c.saves| && NamedBy(c.saves[k], c.store.manifest)
  }

  predicate NamedBy(save: Running, names: Names) {
    exists i :: 0 <= i < save.next && i < |save.steps| && save.steps[i].contents == ManifestOf(names)
  }

  lemma WroteItStays(save: Running, save': Running, i: int, v: VersionId, record: Record)
    requires WroteIt(save, i, v, record) && save'.steps == save.steps
    requires save' == save || (!save.stopped && save'.next >= save.next)
    ensures WroteIt(save', i, v, record)
  {
  }

  lemma ActKeepsFrom(was: Store, c: Catalog, a: Act)
    requires CanAct(c, a) && RecordsFrom(was, c)
    ensures RecordsFrom(was, AfterAct(c, a))
  {
    var c' := AfterAct(c, a);
    forall v | v in c'.store.records
      ensures (v in was.records && c'.store.records[v] == was.records[v])
           || exists k, i :: 0 <= k < |c'.saves| && WroteIt(c'.saves[k], i, v, c'.store.records[v])
    {
      if v in c.store.records {
        if !(v in was.records && c.store.records[v] == was.records[v]) {
          var k, i :| 0 <= k < |c.saves| && WroteIt(c.saves[k], i, v, c.store.records[v]);
          WroteItStays(c.saves[k], c'.saves[k], i, v, c.store.records[v]);
        }
      } else {
        var save := c.saves[a.save];
        assert WroteIt(c'.saves[a.save], save.next, v, c'.store.records[v]);
      }
    }
  }

  lemma ActKeepsManifestFrom(was: Store, c: Catalog, a: Act)
    requires CanAct(c, a) && ManifestFrom(was, c)
    ensures ManifestFrom(was, AfterAct(c, a))
  {
    var c' := AfterAct(c, a);
    if c'.store.manifest == c.store.manifest {
      if c.store.manifest != was.manifest {
        var k :| 0 <= k < |c.saves| && NamedBy(c.saves[k], c.store.manifest);
        assert NamedBy(c'.saves[k], c'.store.manifest);
      }
    } else {
      var save := c.saves[a.save];
      assert c'.saves[a.save].steps[save.next].contents == ManifestOf(c'.store.manifest);
      assert NamedBy(c'.saves[a.save], c'.store.manifest);
    }
  }

  /** However the saves interleave: no record is there but those that were and those the saves hold, and the
      manifest names what it did or what a save names whose earlier steps all landed. */
  lemma {:induction false} InterleavedSavesHold(was: Store, c: Catalog, acts: seq<Act>)
    requires CatalogSound(c) && CanAll(c, acts) && RecordsFrom(was, c) && ManifestFrom(was, c)
    ensures var c' := AfterAll(c, acts);
            && RecordsFrom(was, c') && ManifestFrom(was, c')
            && forall k :: 0 <= k < |c'.saves| ==> Holds(c'.store, c'.saves[k].steps, c'.saves[k].next)
    decreases |acts|
  {
    if |acts| > 0 {
      hide CatalogSound, AfterAct, CanAct, RecordsFrom, ManifestFrom, Holds;
      ActKeeps(c, acts[0]);
      ActKeepsFrom(was, c, acts[0]);
      ActKeepsManifestFrom(was, c, acts[0]);
      InterleavedSavesHold(was, AfterAct(c, acts[0]), acts[1..]);
    }
  }

  /** Over whole saves one after another: what a save landed is there with its body ever after. */
  lemma SavesHold(stores: seq<Store>, saves: seq<Save>, k: nat, j: nat)
    requires Follows(stores, saves) && Resolves(stores[0]) && k < j <= |saves|
    ensures Holds(stores[j], saves[k].steps, saves[k].landed)
  {
    var save := saves[k];
    SequenceLeaves(stores[k], save.steps, save.landings, save.landed, stores[k + 1], save.outcome);
    SavesKeepResolving(stores, saves, j);
    assert RecordsKept(stores[k + 1], stores[j]);
  }

  /** The other order breaks that: a manifest written first, and then a record that fails, names a version
      without a record. */
  lemma ManifestFirstDangles(v: VersionId, body: Body, errno: nat)
    ensures var steps := [WriteStep(ManifestOf({v}), 0), WriteStep(RecordOf(v, body), 1)];
            var landings := [Lands, Fails(errno, false)];
            Resolves(Store(map[], {})) && !Resolves(StoreAfter(Store(map[], {}), steps, landings, 2))
  {
    var steps := [WriteStep(ManifestOf({v}), 0), WriteStep(RecordOf(v, body), 1)];
    var landings := [Lands, Fails(errno, false)];
    assert StoreAfter(Store(map[], {}), steps, landings, 1) == Store(map[], {v});
    assert v in StoreAfter(Store(map[], {}), steps, landings, 2).manifest;
  }
}
