/** What a prune of the files removes and what it keeps, told by the age and the rank of each archive. */
module RetentionRuns {
  import opened Common
  import opened ChainLines
  import opened ChainCuts
  import opened AuditDisk
  import opened Retention
  import opened WriterSteps
  import opened DiskHistory

  /** `b` is newer than `a`: by time, and among those of one time by stamp. */
  predicate Newer(b: Archive, a: Archive) {
    b.mtimeMs > a.mtimeMs || (b.mtimeMs == a.mtimeMs && b.stamp > a.stamp)
  }

  /** The archives newer than `a`. */
  function NewerOnes(xs: seq<Archive>, a: Archive): set<Archive> {
    set b | b in xs && Newer(b, a)
  }

  /** Retention keeps `a`: fewer than the budget are newer, and it is young enough. */
  ghost predicate Keeps(xs: seq<Archive>, a: Archive, budget: Budget, nowMs: int) {
    |NewerOnes(xs, a)| < budget.maxArchives && nowMs - a.mtimeMs <= budget.maxAgeMs
  }

  // ---------------------------------------------------------------------------
  // The rank of an archive is its place among the newest.
  // ---------------------------------------------------------------------------

  ghost predicate NoneTwice(xs: seq<Archive>) {
    forall i, j :: 0 <= i < j < |xs| ==> xs[i].stamp != xs[j].stamp
  }

  lemma {:induction false} CountsOnce(xs: seq<Archive>)
    requires NoneTwice(xs)
    ensures forall a :: multiset(xs)[a] <= 1
    decreases |xs|
  {
    if |xs| > 0 {
      assert xs == [xs[0]] + xs[1..];
      CountsOnce(xs[1..]);
      assert forall k :: 0 <= k < |xs[1..]| ==> xs[1..][k] == xs[k + 1];
      assert xs[0] !in multiset(xs[1..]);
    }
  }

  lemma TwiceCounts(xs: seq<Archive>, i: nat, j: nat)
    requires i < j < |xs| && xs[i] == xs[j]
    ensures multiset(xs)[xs[i]] >= 2
  {
    assert xs == xs[..j] + [xs[j]] + xs[j + 1..];
    assert xs[i] in xs[..j];
  }

  /** The same archives in another order are still each there once. */
  lemma SameOnce(xs: seq<Archive>, ys: seq<Archive>)
    requires NoneTwice(xs) && multiset(xs) == multiset(ys)
    ensures NoneTwice(ys) && (forall a :: a in xs <==> a in ys)
  {
    CountsOnce(xs);
    forall a ensures a in xs <==> a in ys {
      assert a in xs <==> a in multiset(xs);
      assert a in ys <==> a in multiset(ys);
    }
    forall i, j | 0 <= i < j < |ys| ensures ys[i].stamp != ys[j].stamp {
      if ys[i] == ys[j] {
        TwiceCounts(ys, i, j);
      }
      assert ys[i] in xs && ys[j] in xs;
    }
  }

  function Members(xs: seq<Archive>): set<Archive> {
    set b | b in xs
  }

  lemma OneMoreMember(xs: seq<Archive>, a: Archive)
    ensures Members(xs + [a]) == Members(xs) + {a}
  {
  }

  lemma NotAmong(xs: seq<Archive>, q: nat)
    requires NoneTwice(xs) && q < |xs|
    ensures xs[q] !in Members(xs[..q])
  {
    forall k | 0 <= k < q ensures xs[..q][k] != xs[q] {
      assert xs[k].stamp != xs[q].stamp;
    }
  }

  lemma {:induction false} FirstOnes(xs: seq<Archive>, q: nat)
    requires NoneTwice(xs) && q <= |xs|
    ensures |Members(xs[..q])| == q
    decreases q
  {
    hide NoneTwice;
    if q > 0 {
      hide Members;
      FirstOnes(xs, q - 1);
      NotAmong(xs, q - 1);
      OneMoreMember(xs[..q - 1], xs[q - 1]);
      assert xs[..q] == xs[..q - 1] + [xs[q - 1]];
    }
  }

  /** In a list with the newest first, the newer ones are those before. */
  lemma RankIsPlace(newest: seq<Archive>, q: nat)
    requires Sorted(NewestFirst, newest) && NoneTwice(newest) && q < |newest|
    ensures |NewerOnes(newest, newest[q])| == q
  {
    FirstOnes(newest, q);
    assert forall p :: q < p < |newest| ==> Retention.Before(NewestFirst, newest[q], newest[p]);
    forall b ensures b in NewerOnes(newest, newest[q]) <==> b in newest[..q] {
      if b in newest[..q] {
        var p :| 0 <= p < q && newest[..q][p] == b;
        assert Retention.Before(NewestFirst, newest[p], newest[q]);
      }
      if b in NewerOnes(newest, newest[q]) {
        var p :| 0 <= p < |newest| && newest[p] == b;
        assert newest[..q][p] == b;
      }
    }
    assert NewerOnes(newest, newest[q]) == Members(newest[..q]);
  }

  lemma SameNewer(xs: seq<Archive>, ys: seq<Archive>, a: Archive)
    requires forall b :: b in xs <==> b in ys
    ensures NewerOnes(xs, a) == NewerOnes(ys, a)
  {
  }

  /** The selection by places in the sorted list is the selection by rank and age. */
  lemma KeepIsKeeps(xs: seq<Archive>, budget: Budget, nowMs: int, a: Archive)
    requires NoneTwice(xs) && a in xs
    ensures a.stamp in Keep(Sort(NewestFirst, xs), budget, nowMs) <==> Keeps(xs, a, budget, nowMs)
  {
    hide Sort, Sorted;
    var newest := Sort(NewestFirst, xs);
    SortSorts(NewestFirst, xs);
    SameOnce(xs, newest);
    var q: nat :| q < |newest| && newest[q] == a;
    RankIsPlace(newest, q);
    SameNewer(xs, newest, a);
    hide NewerOnes;
    assert forall p :: 0 <= p < |newest| && p != q ==> newest[p].stamp != a.stamp;
  }

  // ---------------------------------------------------------------------------
  // A prune of the files.
  // ---------------------------------------------------------------------------

  /** Every read and every write of the prune succeeds. */
  predicate Unhindered(d: Disk, io: PruneIo) {
    io.readable >= |d.archives| && io.unlinked >= |d.archives| && io.cutsOpen
  }

  lemma {:induction false} DroppedIff(xs: seq<Archive>, gone: set<int>, a: Archive)
    ensures a in Drop(xs, gone) <==> a in xs && a.stamp !in gone
  {
    DropCounts(xs, gone, a);
    assert a in Drop(xs, gone) <==> a in multiset(Drop(xs, gone));
    assert a in xs <==> a in multiset(xs);
  }

  /** No archive that retention keeps is removed, and nothing else changes its place. */
  lemma PruneSparesKept(d: Disk, budget: Budget, io: PruneIo, nowMs: int, a: Archive)
    requires CutsEnded(d) && NoneTwice(d.archives) && a in d.archives && Keeps(d.archives, a, budget, nowMs)
    ensures a in PruneArchives(d, budget, io, nowMs).archives
  {
    hide Candidates, Drop, AnyNeedsCut, CutsAfter, Keeps;
    KeepIsKeeps(d.archives, budget, nowMs, a);
    var candidates := Candidates(d.archives, budget, nowMs);
    var gone := Upto(Upto(candidates, io.readable), io.unlinked);
    forall i | 0 <= i < |gone| ensures gone[i].stamp != a.stamp {
      CandidateIff(d.archives, budget, nowMs, gone[i]);
      assert candidates[i] == gone[i];
      assert gone[i] in candidates;
    }
    DroppedIff(d.archives, Stamps(gone), a);
  }

  /** Nothing is added. */
  lemma PruneAddsNone(d: Disk, budget: Budget, io: PruneIo, nowMs: int, a: Archive)
    requires CutsEnded(d) && a in PruneArchives(d, budget, io, nowMs).archives
    ensures a in d.archives
  {
    hide Candidates, Drop, AnyNeedsCut, CutsAfter;
    DroppedIff(d.archives, Stamps(Upto(Verified(d, budget, io, nowMs), io.unlinked)), a);
  }

  /** When every read and write succeeds, exactly the archives retention keeps remain. */
  lemma PruneKeepsExactly(d: Disk, budget: Budget, io: PruneIo, nowMs: int, a: Archive)
    requires CutsEnded(d) && NoneTwice(d.archives) && Unhindered(d, io)
    ensures a in PruneArchives(d, budget, io, nowMs).archives
            <==> a in d.archives && Keeps(d.archives, a, budget, nowMs)
  {
    hide Drop, AnyNeedsCut, CutsAfter, Keeps, Sort, Keep;
    if a in PruneArchives(d, budget, io, nowMs).archives {
      PruneAddsNone(d, budget, io, nowMs, a);
    }
    if a in d.archives {
      if Keeps(d.archives, a, budget, nowMs) {
        PruneSparesKept(d, budget, io, nowMs, a);
      } else {
        KeepIsKeeps(d.archives, budget, nowMs, a);
        CandidateIff(d.archives, budget, nowMs, a);
        AllAreGone(d, budget, io, nowMs);
        var candidates := Candidates(d.archives, budget, nowMs);
        assert a in candidates;
        var k :| 0 <= k < |candidates| && candidates[k] == a;
        assert a.stamp in Stamps(candidates);
        DroppedIff(d.archives, Stamps(candidates), a);
      }
    }
  }

  lemma {:induction false} DropShorter(xs: seq<Archive>, keep: set<int>)
    ensures |Drop(xs, keep)| <= |xs|
  {
    if |xs| > 0 {
      DropShorter(xs[1..], keep);
    }
  }

  lemma AllAreGone(d: Disk, budget: Budget, io: PruneIo, nowMs: int)
    requires Unhindered(d, io)
    ensures Upto(Verified(d, budget, io, nowMs), io.unlinked) == Candidates(d.archives, budget, nowMs)
    ensures Verified(d, budget, io, nowMs) == Candidates(d.archives, budget, nowMs)
  {
    hide Drop, Keep;
    var keep := Keep(Sort(NewestFirst, d.archives), budget, nowMs);
    DropShorter(d.archives, keep);
    var candidates := Candidates(d.archives, budget, nowMs);
    assert |candidates| == |multiset(candidates)| == |Drop(d.archives, keep)|;
  }

  lemma ChronologicalIsOnce(xs: seq<Archive>)
    requires Chronological(xs)
    ensures NoneTwice(xs)
  {
  }

  /** Archives in chronological order: what remains is exactly the newest, up to the budget and while young enough. */
  lemma PruneKeepsNewest(d: Disk, budget: Budget, io: PruneIo, nowMs: int)
    requires CutsEnded(d) && Chronological(d.archives) && Unhindered(d, io)
    ensures PruneArchives(d, budget, io, nowMs).archives
         == d.archives[|d.archives| - KeptCount(d.archives, budget, nowMs)..]
  {
    hide Candidates, AnyNeedsCut, CutsAfter, KeptCount;
    var n := |d.archives| - KeptCount(d.archives, budget, nowMs);
    PrunesOldestFirst(d.archives, d.archives, budget, nowMs);
    AllAreGone(d, budget, io, nowMs);
    DropPrefix(d.archives, n);
  }

  /** The lines of an archive that a cut record must account for: rows, legacy rows, anything that parses. */
  predicate HasEntry(a: Archive) {
    exists k :: 0 <= k < |a.lines| && Parses(a.lines[k])
  }

  lemma NeedsCutIff(a: Archive)
    ensures NeedsCut(a) <==> HasEntry(a)
  {
    SummaryTold(a.lines);
    NoneCounted(a.lines);
  }

  lemma {:induction false} AnyEntry(archives: seq<Archive>)
    ensures var s := MergeAll(Bodies(archives));
            Finalize(s, 0).Some? <==> AnyNeedsCut(archives)
    decreases |archives|
  {
    hide Finalize, Summarise;
    if |archives| > 0 {
      var n := |archives| - 1;
      assert Bodies(archives)[..n] == Bodies(archives[..n]);
      AnyEntry(archives[..n]);
      OwedByEither(MergeAll(Bodies(archives[..n])), Summarise(EMPTY, archives[n].lines));
      MergedIsOwed(archives[..n]);
      SummaryTold(archives[n].lines);
      AnyOfMore(archives);
    } else {
      OwedNothing();
    }
  }

  lemma OwedNothing()
    ensures Finalize(EMPTY, 0).None?
  {
  }

  lemma AnyOfMore(archives: seq<Archive>)
    requires |archives| > 0
    ensures AnyNeedsCut(archives) <==> AnyNeedsCut(archives[..|archives| - 1]) || NeedsCut(archives[|archives| - 1])
  {
    var n := |archives| - 1;
    if AnyNeedsCut(archives[..n]) {
      var i :| 0 <= i < n && NeedsCut(archives[..n][i]);
      assert NeedsCut(archives[i]);
    }
    if AnyNeedsCut(archives) {
      var i :| 0 <= i < |archives| && NeedsCut(archives[i]);
      assert i < n ==> NeedsCut(archives[..n][i]);
    }
  }

  predicate Owed(s: Summary) {
    && (s.removedFrom.Some? <==> s.removedChained > 0) && (s.removedTo.Some? <==> s.removedChained > 0)
    && (s.legacyTail.Some? <==> s.removedLegacy > 0)
  }

  lemma {:induction false} MergedIsOwed(archives: seq<Archive>)
    ensures Owed(MergeAll(Bodies(archives)))
    decreases |archives|
  {
    if |archives| > 0 {
      var n := |archives| - 1;
      assert Bodies(archives)[..n] == Bodies(archives[..n]);
      MergedIsOwed(archives[..n]);
      SummaryTold(archives[n].lines);
      hide Summarise;
    }
  }

  lemma OwedByEither(a: Summary, b: Summary)
    ensures Owed(a) && Owed(b) ==>
              (Finalize(Merge(a, b), 0).Some?
               <==> Finalize(a, 0).Some? || b.removedFrom.Some? || b.removedLegacy > 0)
  {
  }

  /** A prune notes a break exactly when it unlinked an archive that held an entry and could not write the record. */
  lemma BreakIff(d: Disk, budget: Budget, io: PruneIo, nowMs: int)
    ensures var gone := Upto(Verified(d, budget, io, nowMs), io.unlinked);
            PruneBreaks(d, budget, io, nowMs)
            <==> io.cutsOpen && !io.cutWritten && exists i :: 0 <= i < |gone| && HasEntry(gone[i])
  {
    hide Candidates, Finalize, MergeAll, HasEntry;
    var verified := Verified(d, budget, io, nowMs);
    var gone := Upto(verified, io.unlinked);
    AnyEntry(gone);
    OwedAlways(MergeAll(Bodies(gone)), nowMs);
    forall i | 0 <= i < |gone| ensures NeedsCut(gone[i]) <==> HasEntry(gone[i]) {
      NeedsCutIff(gone[i]);
    }
    if AnyNeedsCut(gone) {
      var i :| 0 <= i < |gone| && NeedsCut(gone[i]);
      assert verified[i] == gone[i];
    }
    hide NeedsCut;
  }

  lemma OwedAlways(s: Summary, nowMs: int)
    ensures Finalize(s, nowMs).Some? <==> Finalize(s, 0).Some?
  {
  }

  predicate AnyHasEntry(archives: seq<Archive>) {
    exists i :: 0 <= i < |archives| && HasEntry(archives[i])
  }

  /** The cut file after a prune: opened, and so there, when an archive about to go holds an entry; with one
      record more, that of all the lines gone, when an archive that went did and the record is written; else as
      it was. */
  lemma CutFileTold(d: Disk, budget: Budget, io: PruneIo, nowMs: int)
    requires CutsEnded(d)
    ensures var verified := Verified(d, budget, io, nowMs);
            var gone, cuts', was := Upto(verified, io.unlinked), PruneArchives(d, budget, io, nowMs).cuts,
                d.cuts.GetOr([Blank]);
            if !AnyHasEntry(verified) || !io.cutsOpen then cuts' == d.cuts
            else if AnyHasEntry(gone) && io.cutWritten then
              exists record :: Finalize(Summarise(EMPTY, LinesOf(gone)), nowMs) == Some(record)
                               && cuts' == Some(was[..|was| - 1] + [Cut(record), Blank])
            else cuts' == Some(was)
  {
    hide Candidates, Drop, HasEntry, Finalize, Summarise, MergeAll;
    var verified := Verified(d, budget, io, nowMs);
    var gone := Upto(verified, io.unlinked);
    EntriesNeedCut(verified);
    EntriesNeedCut(gone);
    AnyEntry(gone);
    OwedAlways(MergeAll(Bodies(gone)), nowMs);
    MergedArchives(Bodies(gone));
    FlattenIsLinesOf(gone);
    var record := Finalize(Summarise(EMPTY, LinesOf(gone)), nowMs);
    assert record == Finalize(MergeAll(Bodies(gone)), nowMs);
    assert record.Some? <==> AnyHasEntry(gone);
    if record.Some? {
      assert record == Some(record.value);
    }
  }

  lemma EntriesNeedCut(archives: seq<Archive>)
    ensures AnyNeedsCut(archives) <==> AnyHasEntry(archives)
  {
    hide HasEntry;
    forall i | 0 <= i < |archives| ensures NeedsCut(archives[i]) <==> HasEntry(archives[i]) {
      NeedsCutIff(archives[i]);
    }
    hide NeedsCut;
  }

  /** A break once noted stays noted through rows and sweeps, and a prune that broke the chain notes one. */
  lemma BreakStaysNoted(w: Writer, broke: bool)
    ensures Noting(w, broke).chainBrokenNoted <==> w.chainBrokenNoted || broke
    ensures Noting(w, broke).(chainBrokenNoted := w.chainBrokenNoted) == w
  {
  }

  // ---------------------------------------------------------------------------
  // Through a rotation and a start-up sweep.
  // ---------------------------------------------------------------------------

  /** The archive a rotation makes. */
  function Rotated(d: Disk, io: Io): Archive
    requires io.rotation.Some? && d.live.Some?
  {
    Archive(io.rotation.value.stamp, io.rotation.value.mtimeMs, d.live.value)
  }

  /** A rotation: the live log becomes an archive with all its lines, and of the archives then there the ones
      retention keeps remain, exactly those when every read and write succeeds. */
  lemma RotationKeeps(d: Disk, io: Io, a: Archive)
    requires CutsEnded(d) && io.rotation.Some? && LastItem(LiveLines(d)).Some?
    ensures d.live.Some?
    ensures var all, d' := d.archives + [Rotated(d, io)], MaybeRotate(d, io);
            && d'.live.None?
            && (a in d'.archives ==> a in all)
            && (NoneTwice(all) && a in all && Keeps(all, a, io.budget, io.nowMs) ==> a in d'.archives)
            && (NoneTwice(all) && Unhindered(Disk(d.cuts, all, None), io.prune) ==>
                  (a in d'.archives <==> a in all && Keeps(all, a, io.budget, io.nowMs)))
            && (Chronological(all) && Unhindered(Disk(d.cuts, all, None), io.prune) ==>
                  d'.archives == all[|all| - KeptCount(all, io.budget, io.nowMs)..])
  {
    hide PruneArchives, Keeps, NoneTwice, Chronological, KeptCount;
    var rotated := Disk(d.cuts, d.archives + [Rotated(d, io)], None);
    if NoneTwice(rotated.archives) && a in rotated.archives && Keeps(rotated.archives, a, io.budget, io.nowMs) {
      PruneSparesKept(rotated, io.budget, io.prune, io.nowMs, a);
    }
    if a in PruneArchives(rotated, io.budget, io.prune, io.nowMs).archives {
      PruneAddsNone(rotated, io.budget, io.prune, io.nowMs, a);
    }
    if NoneTwice(rotated.archives) && Unhindered(rotated, io.prune) {
      PruneKeepsExactly(rotated, io.budget, io.prune, io.nowMs, a);
    }
    if Chronological(rotated.archives) && Unhindered(rotated, io.prune) {
      PruneKeepsNewest(rotated, io.budget, io.prune, io.nowMs);
    }
  }

  /** Below both thresholds, or with nothing to rotate, the files stay as they are. */
  lemma NoRotationKeeps(d: Disk, io: Io)
    requires CutsEnded(d)
    ensures io.rotation.None? || (forall k :: 0 <= k < |LiveLines(d)| ==> LiveLines(d)[k].Blank?) ==>
              MaybeRotate(d, io) == d
  {
    if forall k :: 0 <= k < |LiveLines(d)| ==> LiveLines(d)[k].Blank? {
      BlankHasNoItem(LiveLines(d));
    }
    hide PruneArchives;
  }

  lemma {:induction false} BlankHasNoItem(lines: seq<Line>)
    requires forall k :: 0 <= k < |lines| ==> lines[k].Blank?
    ensures LastItem(lines).None?
    decreases |lines|
  {
    if |lines| > 0 {
      BlankHasNoItem(lines[..|lines| - 1]);
    }
  }

  /** The start-up sweep: by the owner and once, what a prune does, and by no other anything. */
  lemma SweepKeeps(st: State, fence: Option<nat>, io: Io, a: Archive)
    requires CutsEnded(st.disk) && NoneTwice(st.disk.archives)
    ensures var st' := RunMaintenance(st, fence, io);
            && st'.disk.live == st.disk.live
            && (a in st'.disk.archives ==> a in st.disk.archives)
            && (a in st.disk.archives && Keeps(st.disk.archives, a, io.budget, io.nowMs) ==> a in st'.disk.archives)
            && (fence.Some? && !st.writer.maintenanceRan && Unhindered(st.disk, io.prune) ==>
                  (a in st'.disk.archives <==>
                     a in st.disk.archives && Keeps(st.disk.archives, a, io.budget, io.nowMs)))
            && (fence.None? || st.writer.maintenanceRan ==> st' == st)
            && (fence.Some? ==> st'.writer.maintenanceRan)
  {
    hide PruneArchives, PruneBreaks, Keeps, NoneTwice;
    if a in st.disk.archives && Keeps(st.disk.archives, a, io.budget, io.nowMs) {
      PruneSparesKept(st.disk, io.budget, io.prune, io.nowMs, a);
    }
    if a in PruneArchives(st.disk, io.budget, io.prune, io.nowMs).archives {
      PruneAddsNone(st.disk, io.budget, io.prune, io.nowMs, a);
    }
    if Unhindered(st.disk, io.prune) {
      PruneKeepsExactly(st.disk, io.budget, io.prune, io.nowMs, a);
    }
  }
}
