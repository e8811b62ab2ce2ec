/** The per-run write chains of the raw transcript writer: one promise after another for each run, held in a
    map whose entry goes when nothing is left to wait for. */
module Transcripts {
  import opened Common

  type RunId = nat

  datatype Kind = Append | Finalize

  /** A promise: not yet begun, its body under way, or settled, fulfilled or not. */
  datatype Status = Waiting | Running | Settled(fulfilled: bool)

  /** One link of a chain: what it waits for, and whether the code after it has run. */
  datatype Link = Link(run: RunId, kind: Kind, previous: Option<nat>, status: Status, released: bool)

  /** Every promise made, the `chains` map, and the bodies begun, in order. */
  datatype Chains = Chains(links: seq<Link>, latest: map<RunId, nat>, begun: seq<nat>)

  /** What can happen next: a call, or one promise going on. */
  datatype Event =
    | Submit(run: RunId, kind: Kind)
    | Begin(link: nat)
    | Skip(link: nat)
    | End(link: nat, fulfilled: bool)
    | Release(link: nat)

  const NONE := Chains([], map[], [])

  predicate Before(c: Chains, n: nat, status: Status)
    requires n < |c.links|
  {
    c.links[n].previous.Some? && c.links[n].previous.value < |c.links|
        && c.links[c.links[n].previous.value].status == status
  }

  predicate Can(c: Chains, e: Event) {
    match e
    case Submit(_, _) => true
    case Begin(n) => n < |c.links| && c.links[n].status.Waiting?
        && (c.links[n].previous.None? || Before(c, n, Settled(true)))
    case Skip(n) => n < |c.links| && c.links[n].status.Waiting? && Before(c, n, Settled(false))
    case End(n, _) => n < |c.links| && c.links[n].status.Running?
    case Release(n) => n < |c.links| && c.links[n].status.Settled? && !c.links[n].released
  }

  function LatestOf(c: Chains, run: RunId): Option<nat> {
    if run in c.latest then Some(c.latest[run]) else None
  }

  function SetStatus(c: Chains, n: nat, status: Status): Chains
    requires n < |c.links|
  {
    c.(links := c.links[n := c.links[n].(status := status)])
  }

  /** An append drops the entry when its link settles, a finalization only when it is fulfilled; either only
      while the entry is still its own. */
  predicate Drops(c: Chains, n: nat)
    requires n < |c.links|
  {
    var link := c.links[n];
    (link.kind.Append? || link.status == Settled(true)) && LatestOf(c, link.run) == Some(n)
  }

  function Next(c: Chains, e: Event): Chains
    requires Can(c, e)
  {
    match e
    case Submit(run, kind) =>
      c.(links := c.links + [Link(run, kind, LatestOf(c, run), Waiting, false)], latest := c.latest[run := |c.links|])
    case Begin(n) => SetStatus(c, n, Running).(begun := c.begun + [n])
    case Skip(n) => SetStatus(c, n, Settled(false))
    case End(n, fulfilled) => SetStatus(c, n, Settled(fulfilled))
    case Release(n) =>
      c.(links := c.links[n := c.links[n].(released := true)],
         latest := if Drops(c, n) then c.latest - {c.links[n].run} else c.latest)
  }

  predicate Goes(c: Chains, events: seq<Event>)
    decreases |events|
  {
    |events| > 0 ==> Can(c, events[0]) && Goes(Next(c, events[0]), events[1..])
  }

  function After(c: Chains, events: seq<Event>): Chains
    requires Goes(c, events)
    decreases |events|
  {
    if |events| == 0 then c else After(Next(c, events[0]), events[1..])
  }

  class RawTranscriptWriter {
    var links: seq<Link>
    var chains: map<RunId, nat>
    var begun: seq<nat>

    function Value(): Chains
      reads this
    {
      Chains(links, chains, begun)
    }

    constructor ()
      ensures Value() == NONE
    {
      links, chains, begun := [], map[], [];
    }

    /** `enqueue`, `appendEnd` and the first half of `finalizeRun`. */
    method Chain(run: RunId, kind: Kind) returns (next: nat)
      modifies this
      ensures Value() == Next(old(Value()), Submit(run, kind)) && next == |old(links)|
    {
      var previous := if run in chains then Some(chains[run]) else None;
      next := |links|;
      links := links + [Link(run, kind, previous, Waiting, false)];
      chains := chains[run := next];
    }

    /** A promise goes on when what it waits for has settled. */
    method GoOn(n: nat, fulfilled: bool)
      requires n < |links| && !links[n].status.Settled?
      requires links[n].status.Waiting?
               ==> links[n].previous.None? || Before(Value(), n, Settled(true)) || Before(Value(), n, Settled(false))
      modifies this
      ensures Value() == Next(old(Value()),
                if old(links)[n].status.Running? then End(n, fulfilled)
                else if old(links)[n].previous.None? || old(Before(Value(), n, Settled(true))) then Begin(n)
                else Skip(n))
    {
      var link := links[n];
      if link.status.Running? {
        links := links[n := link.(status := Settled(fulfilled))];
      } else if link.previous.None? || links[link.previous.value].status == Settled(true) {
        links := links[n := link.(status := Running)];
        begun := begun + [n];
      } else {
        links := links[n := link.(status := Settled(false))];
      }
    }

    /** `releaseChainWhenSettled`, and what `finalizeRun` does after its await. */
    method ReleaseChain(n: nat)
      requires n < |links| && links[n].status.Settled? && !links[n].released
      modifies this
      ensures Value() == Next(old(Value()), Release(n))
    {
      var link := links[n];
      links := links[n := link.(released := true)];
      if link.kind.Append? || link.status.fulfilled {
        if link.run in chains && chains[link.run] == n {
          chains := chains - {link.run};
        }
      }
    }
  }

  // ---------------------------------------------------------------------------
  // What every run of events keeps.
  // ---------------------------------------------------------------------------

  /** A link follows the one before it of its run, or all those have settled. */
  ghost predicate LinkSound(c: Chains, n: nat)
    requires n < |c.links|
  {
    var link := c.links[n];
    && (link.previous.Some? ==>
          && link.previous.value < n
          && c.links[link.previous.value].run == c.links[n].run
          && forall m :: link.previous.value < m < n ==> c.links[m].run != c.links[n].run)
    && (link.previous.None? || !link.status.Waiting? ==>
          forall m :: 0 <= m < n && c.links[m].run == c.links[n].run ==> c.links[m].status.Settled?)
  }

  /** The map holds the latest link of a run, or every link of it has settled. */
  ghost predicate MapSound(c: Chains) {
    && (forall run :: run in c.latest ==>
          && c.latest[run] < |c.links|
          && c.links[c.latest[run]].run == run
          && forall m :: c.latest[run] < m < |c.links| ==> c.links[m].run != run)
    && (forall n :: 0 <= n < |c.links| && c.links[n].run !in c.latest ==> c.links[n].status.Settled?)
    && (forall run :: run in c.latest && c.links[c.latest[run]].released ==>
          c.links[c.latest[run]].kind.Finalize? && c.links[c.latest[run]].status == Settled(false))
  }

  /** Bodies were begun in the order of submission, run by run. */
  ghost predicate BegunInOrder(c: Chains) {
    && (forall i :: 0 <= i < |c.begun| ==> c.begun[i] < |c.links| && !c.links[c.begun[i]].status.Waiting?)
    && forall i, j ::
         0 <= i < j < |c.begun| && c.links[c.begun[i]].run == c.links[c.begun[j]].run ==> c.begun[i] < c.begun[j]
  }

  ghost predicate Inv(c: Chains) {
    && (forall n :: 0 <= n < |c.links| ==> LinkSound(c, n))
    && MapSound(c)
    && (forall i :: 0 <= i < |c.begun| ==> c.begun[i] < |c.links|)
    && BegunInOrder(c)
  }

  lemma SubmitKeeps(c: Chains, run: RunId, kind: Kind)
    requires Inv(c)
    ensures Inv(Next(c, Submit(run, kind)))
  {
    var c' := Next(c, Submit(run, kind));
    assert forall m :: 0 <= m < |c.links| ==> c'.links[m] == c.links[m];
    forall n | 0 <= n < |c'.links| ensures LinkSound(c', n) {
      if n < |c.links| {
        assert LinkSound(c, n);
      }
    }
  }

  /** One link goes on. */
  lemma StatusKeeps(c: Chains, n: nat, status: Status)
    requires Inv(c) && n < |c.links| && !c.links[n].released && !status.Waiting?
    requires forall m :: 0 <= m < n && c.links[m].run == c.links[n].run ==> c.links[m].status.Settled?
    requires !c.links[n].status.Settled?
    ensures Inv(SetStatus(c, n, status))
  {
    var c' := SetStatus(c, n, status);
    assert forall m :: 0 <= m < |c.links| ==>
                         c'.links[m].run == c.links[m].run && c'.links[m].previous == c.links[m].previous;
    assert forall m :: 0 <= m < |c.links| && m != n ==> c'.links[m] == c.links[m];
    forall k | 0 <= k < |c'.links| ensures LinkSound(c', k) {
      assert LinkSound(c, k);
    }
    forall i, j | 0 <= i < j < |c'.begun| && c'.links[c'.begun[i]].run == c'.links[c'.begun[j]].run
      ensures c'.begun[i] < c'.begun[j]
    {
      assert c.links[c.begun[i]].run == c.links[c.begun[j]].run;
    }
  }

  /** What comes before a link whose predecessor has settled has settled. */
  lemma EarlierSettled(c: Chains, n: nat)
    requires Inv(c) && n < |c.links|
    requires c.links[n].previous.None? || !c.links[n].status.Waiting? || Before(c, n, Settled(true))
             || Before(c, n, Settled(false))
    ensures forall m :: 0 <= m < n && c.links[m].run == c.links[n].run ==> c.links[m].status.Settled?
  {
    assert LinkSound(c, n);
    if c.links[n].previous.Some? && c.links[n].status.Waiting? {
      var p := c.links[n].previous.value;
      assert LinkSound(c, p);
      forall m | 0 <= m < n && c.links[m].run == c.links[n].run ensures c.links[m].status.Settled? {
        if m < p {
          assert c.links[m].run == c.links[p].run;
        }
      }
    }
  }

  lemma BeginKeeps(c: Chains, n: nat)
    requires Inv(c) && Can(c, Begin(n)) && !c.links[n].released
    ensures Inv(Next(c, Begin(n)))
  {
    EarlierSettled(c, n);
    StatusKeeps(c, n, Running);
    var c1, c' := SetStatus(c, n, Running), Next(c, Begin(n));
    forall k | 0 <= k < |c'.links| ensures LinkSound(c', k) {
      assert LinkSound(c1, k);
    }
    forall i, j | 0 <= i < j < |c'.begun| && c'.links[c'.begun[i]].run == c'.links[c'.begun[j]].run
      ensures c'.begun[i] < c'.begun[j]
    {
      if j == |c.begun| {
        var m := c.begun[i];
        assert LinkSound(c, m);
        assert !c.links[m].status.Waiting? && c.links[n].run == c.links[m].run;
      } else {
        assert c.links[c.begun[i]].run == c.links[c.begun[j]].run;
      }
    }
  }

  lemma ReleaseKeeps(c: Chains, n: nat)
    requires Inv(c) && Can(c, Release(n))
    ensures Inv(Next(c, Release(n)))
  {
    var c' := Next(c, Release(n));
    assert forall m :: 0 <= m < |c.links| ==> c'.links[m].(released := false) == c.links[m].(released := false);
    forall k | 0 <= k < |c'.links| ensures LinkSound(c', k) {
      assert LinkSound(c, k);
    }
    if Drops(c, n) {
      DropIsSafe(c, n);
    }
    forall i, j | 0 <= i < j < |c'.begun| && c'.links[c'.begun[i]].run == c'.links[c'.begun[j]].run
      ensures c'.begun[i] < c'.begun[j]
    {
      assert c.links[c.begun[i]].run == c.links[c.begun[j]].run;
    }
  }

  /** Nothing is left to wait for when an entry is dropped. */
  lemma DropIsSafe(c: Chains, n: nat)
    requires Inv(c) && n < |c.links| && c.links[n].status.Settled? && Drops(c, n)
    ensures forall m :: 0 <= m < |c.links| && c.links[m].run == c.links[n].run ==> c.links[m].status.Settled?
  {
    assert LinkSound(c, n);
  }

  /** Only settled links are released. */
  ghost predicate ReleasedSettled(c: Chains) {
    forall n :: 0 <= n < |c.links| && c.links[n].released ==> c.links[n].status.Settled?
  }

  lemma EventKeeps(c: Chains, e: Event)
    requires Inv(c) && ReleasedSettled(c) && Can(c, e)
    ensures Inv(Next(c, e)) && ReleasedSettled(Next(c, e))
  {
    hide Inv;
    match e {
      case Submit(run, kind) => SubmitKeeps(c, run, kind);
      case Begin(n) => BeginKeeps(c, n);
      case Skip(n) =>
        EarlierSettled(c, n);
        StatusKeeps(c, n, Settled(false));
      case End(n, fulfilled) =>
        EarlierSettled(c, n);
        StatusKeeps(c, n, Settled(fulfilled));
      case Release(n) => ReleaseKeeps(c, n);
    }
  }

  lemma {:induction false} RunKeeps(c: Chains, events: seq<Event>)
    requires Inv(c) && ReleasedSettled(c) && Goes(c, events)
    ensures Inv(After(c, events)) && ReleasedSettled(After(c, events))
    decreases |events|
  {
    hide Inv, ReleasedSettled, Next, Can;
    if |events| > 0 {
      EventKeeps(c, events[0]);
      RunKeeps(Next(c, events[0]), events[1..]);
    }
  }

  /** For each run, bodies begin in the order they were submitted, at most one is under way, and when one
      is under way every earlier one has settled. */
  lemma OneAtATimeInOrder(events: seq<Event>, m: nat, n: nat)
    requires Goes(NONE, events)
    requires var c := After(NONE, events); m < n < |c.links| && c.links[m].run == c.links[n].run
    ensures var c := After(NONE, events);
            && (!c.links[n].status.Waiting? ==> c.links[m].status.Settled?)
            && forall i, j :: 0 <= i < |c.begun| && 0 <= j < |c.begun| && c.begun[i] == m && c.begun[j] == n ==> i < j
  {
    RunKeeps(NONE, events);
    var c := After(NONE, events);
    assert LinkSound(c, n) && c.links[m].run == c.links[n].run;
    forall i, j | 0 <= i < |c.begun| && 0 <= j < |c.begun| && c.begun[i] == m && c.begun[j] == n ensures i < j {
      assert c.links[c.begun[j]].run == c.links[c.begun[i]].run;
    }
  }

  ghost predicate AllDone(c: Chains) {
    forall n :: 0 <= n < |c.links| ==> c.links[n].status.Settled? && c.links[n].released
  }

  /** No later link is of the same run. */
  ghost predicate IsLast(c: Chains, n: nat) {
    n < |c.links| && forall m :: n < m < |c.links| ==> c.links[m].run != c.links[n].run
  }

  /** The last link of a run has the entry, or has given it up. */
  ghost predicate LastKept(c: Chains) {
    forall n: nat :: IsLast(c, n) ==> Kept(c, n)
  }

  predicate Kept(c: Chains, n: nat)
    requires n < |c.links|
  {
    || LatestOf(c, c.links[n].run) == Some(n)
    || (c.links[n].released && (c.links[n].kind.Append? || c.links[n].status == Settled(true)))
  }

  lemma LastStays(c: Chains, c': Chains, n: nat)
    requires |c'.links| >= |c.links| && forall m :: 0 <= m < |c.links| ==> c'.links[m].run == c.links[m].run
    requires n < |c.links| && IsLast(c', n)
    ensures IsLast(c, n)
  {
    assert forall m :: n < m < |c.links| ==> c'.links[m].run != c'.links[n].run;
  }

  lemma LastKeeps(c: Chains, e: Event)
    requires Inv(c) && ReleasedSettled(c) && LastKept(c) && Can(c, e)
    ensures LastKept(Next(c, e))
  {
    hide Inv;
    var c' := Next(c, e);
    forall n: nat | IsLast(c', n) ensures Kept(c', n) {
      if n < |c.links| {
        assert e.Submit? ==> c'.links[|c.links|].run != c'.links[n].run;
        LastStays(c, c', n);
        assert Kept(c, n);
      }
    }
  }

  lemma {:induction false} RunKeepsLast(c: Chains, events: seq<Event>)
    requires Inv(c) && ReleasedSettled(c) && LastKept(c) && Goes(c, events)
    ensures LastKept(After(c, events))
    decreases |events|
  {
    hide Inv, ReleasedSettled, LastKept, Next, Can;
    if |events| > 0 {
      EventKeeps(c, events[0]);
      LastKeeps(c, events[0]);
      RunKeepsLast(Next(c, events[0]), events[1..]);
    }
  }

  /** The map holds the latest link of a run or every link has settled; and when all work is done a run
      keeps its entry exactly when its last link is a finalization that was not fulfilled. */
  lemma EntriesGo(events: seq<Event>, run: RunId)
    requires Goes(NONE, events)
    ensures var c := After(NONE, events);
            && (run in c.latest ==> IsLast(c, c.latest[run]) && c.links[c.latest[run]].run == run)
            && (run !in c.latest
                ==> forall m :: 0 <= m < |c.links| && c.links[m].run == run ==> c.links[m].status.Settled?)
            && (AllDone(c) ==>
                  (run in c.latest
                   <==> exists n: nat :: IsLast(c, n) && c.links[n].run == run && Unfulfilled(c.links[n])))
  {
    hide Goes, After;
    RunKeeps(NONE, events);
    RunKeepsLast(NONE, events);
    var c := After(NONE, events);
    if AllDone(c) {
      forall n: nat | IsLast(c, n) && c.links[n].run == run ensures run in c.latest <==> Unfulfilled(c.links[n]) {
        assert Kept(c, n);
        LastIsOne(c, n);
      }
    }
  }

  predicate Unfulfilled(link: Link) {
    link.kind.Finalize? && link.status == Settled(false)
  }

  lemma LastIsOne(c: Chains, n: nat)
    requires MapSound(c) && IsLast(c, n)
    ensures c.links[n].run in c.latest ==> c.latest[c.links[n].run] == n
  {
  }

  predicate NoneRejects(events: seq<Event>) {
    forall i :: 0 <= i < |events| ==> events[i].End? ==> events[i].fulfilled
  }

  ghost predicate NoneRejected(c: Chains) {
    forall n :: 0 <= n < |c.links| ==> c.links[n].status != Settled(false)
  }

  lemma {:induction false} AllFulfilled(c: Chains, events: seq<Event>)
    requires Goes(c, events) && NoneRejects(events) && NoneRejected(c)
    ensures NoneRejected(After(c, events))
    decreases |events|
  {
    if |events| > 0 {
      assert NoneRejected(Next(c, events[0]));
      AllFulfilled(Next(c, events[0]), events[1..]);
    }
  }

  /** Every body here catches its failures, so no promise is rejected: once all work is done the map is empty. */
  lemma MapEmpties(events: seq<Event>)
    requires Goes(NONE, events) && NoneRejects(events) && AllDone(After(NONE, events))
    ensures After(NONE, events).latest == map[]
  {
    AllFulfilled(NONE, events);
    var c := After(NONE, events);
    forall run ensures run !in c.latest {
      EntriesGo(events, run);
    }
    hide Goes, After;
  }

  /** A rejected finalization would keep its entry for ever. */
  lemma RejectedFinalizationStays(run: RunId)
    ensures var events := [Submit(run, Finalize), Begin(0), End(0, false), Release(0)];
            Goes(NONE, events) && AllDone(After(NONE, events)) && run in After(NONE, events).latest
  {
    var events := [Submit(run, Finalize), Begin(0), End(0, false), Release(0)];
    var c1 := Next(NONE, events[0]);
    var c2 := Next(c1, events[1]);
    var c3 := Next(c2, events[2]);
    var c4 := Next(c3, events[3]);
    assert c4.links == [Link(run, Finalize, None, Settled(false), true)];
    OneMore(c3, events, 3);
    OneMore(c2, events, 2);
    OneMore(c1, events, 1);
    OneMore(NONE, events, 0);
    assert events[0..] == events;
  }

  lemma OneMore(c: Chains, events: seq<Event>, i: nat)
    requires i < |events| && Can(c, events[i]) && Goes(Next(c, events[i]), events[i + 1..])
    ensures Goes(c, events[i..]) && After(c, events[i..]) == After(Next(c, events[i]), events[i + 1..])
  {
    assert events[i..][1..] == events[i + 1..];
  }

  // ---------------------------------------------------------------------------
  // What settles a link, and how.
  // ---------------------------------------------------------------------------

  /** Event `e` is among the events. */
  predicate Happened(events: seq<Event>, e: Event) {
    e in events
  }

  /** A link's status tells which of its events happened. */
  ghost predicate StatusTold(c: Chains, events: seq<Event>, n: nat)
    requires n < |c.links|
  {
    && (c.links[n].status == Settled(true) <==> Happened(events, End(n, true)))
    && (c.links[n].status == Settled(false) <==> Happened(events, End(n, false)) || Happened(events, Skip(n)))
    && (n in c.begun <==> Happened(events, Begin(n)))
    && (c.links[n].status.Waiting? <==> !Happened(events, Begin(n)) && !Happened(events, Skip(n)))
  }

  lemma {:induction false} AfterSnoc(c: Chains, events: seq<Event>, e: Event)
    requires Goes(c, events + [e])
    ensures Goes(c, events) && Can(After(c, events), e) && After(c, events + [e]) == Next(After(c, events), e)
    decreases |events|
  {
    var all := events + [e];
    if |events| > 0 {
      assert all[1..] == events[1..] + [e];
      AfterSnoc(Next(c, events[0]), events[1..], e);
    } else {
      assert all[1..] == [];
    }
  }

  /** No event names a link not yet made. */
  predicate Named(e: Event, n: nat) {
    e == Begin(n) || e == Skip(n) || e == End(n, true) || e == End(n, false)
  }

  lemma {:induction false} StatusesTold(events: seq<Event>)
    requires Goes(NONE, events)
    ensures var c := After(NONE, events);
            && (forall n: nat :: n < |c.links| ==> StatusTold(c, events, n))
            && (forall e, n: nat :: e in events && Named(e, n) ==> n < |c.links|)
            && (forall n :: n in c.begun ==> n < |c.links|)
    decreases |events|
  {
    if |events| > 0 {
      var k := |events| - 1;
      var before, e := events[..k], events[k];
      assert events == before + [e];
      AfterSnoc(NONE, before, e);
      StatusesTold(before);
      var c, c' := After(NONE, before), After(NONE, events);
      hide Goes, After;
      forall n: nat | n < |c'.links| ensures StatusTold(c', events, n) {
        OneStatus(c, before, e, n);
      }
    }
  }

  lemma OneStatus(c: Chains, events: seq<Event>, e: Event, n: nat)
    requires Can(c, e) && n < |Next(c, e).links|
    requires n < |c.links| ==> StatusTold(c, events, n)
    requires forall f, m: nat :: f in events && Named(f, m) ==> m < |c.links|
    requires forall m :: m in c.begun ==> m < |c.links|
    ensures StatusTold(Next(c, e), events + [e], n)
  {
    assert forall f :: f in events + [e] <==> f in events || f == e;
    if n == |c.links| {
      assert forall f :: Named(f, n) ==> f !in events;
      assert Named(Begin(n), n) && Named(Skip(n), n) && Named(End(n, true), n) && Named(End(n, false), n);
    }
  }

  /** A link is fulfilled exactly when its body was, rejected exactly when its body was or it was skipped, and its
      body began exactly when that happened. */
  lemma LinkSettlesAsItsBody(events: seq<Event>, n: nat)
    requires Goes(NONE, events) && n < |After(NONE, events).links|
    ensures StatusTold(After(NONE, events), events, n)
  {
    StatusesTold(events);
  }
}
