/** Which archives a prune removes, and in which order the chain's files are read. */
module Retention {
  import opened AuditDisk

  datatype Order = ByStamp | NewestFirst

  predicate Before(order: Order, a: Archive, b: Archive) {
    match order
    case ByStamp => a.stamp <= b.stamp
    case NewestFirst => a.mtimeMs > b.mtimeMs || (a.mtimeMs == b.mtimeMs && a.stamp >= b.stamp)
  }

  ghost predicate Sorted(order: Order, xs: seq<Archive>) {
    forall i, j :: 0 <= i < j < |xs| ==> Before(order, xs[i], xs[j])
  }

  /** No two archives share a name. */
  ghost predicate Distinct(xs: seq<Archive>) {
    forall i, j :: 0 <= i < |xs| && 0 <= j < |xs| && xs[i].stamp == xs[j].stamp ==> xs[i] == xs[j]
  }

  /** Stamps and modification times increase with each rotation. */
  ghost predicate Chronological(xs: seq<Archive>) {
    forall i, j :: 0 <= i < j < |xs| ==> xs[i].stamp < xs[j].stamp && xs[i].mtimeMs <= xs[j].mtimeMs
  }

  function Insert(order: Order, x: Archive, xs: seq<Archive>): (r: seq<Archive>)
    ensures multiset(r) == multiset(xs) + multiset{x}
  {
    if |xs| == 0 || Before(order, x, xs[0]) then [x] + xs
    else
      assert xs == [xs[0]] + xs[1..];
      [xs[0]] + Insert(order, x, xs[1..])
  }

  function Sort(order: Order, xs: seq<Archive>): (r: seq<Archive>)
    ensures multiset(r) == multiset(xs)
  {
    if |xs| == 0 then []
    else
      assert xs == [xs[0]] + xs[1..];
      Insert(order, xs[0], Sort(order, xs[1..]))
  }

  lemma {:induction false} InsertKeepsSorted(order: Order, x: Archive, xs: seq<Archive>)
    requires Sorted(order, xs)
    ensures Sorted(order, Insert(order, x, xs))
  {
    if |xs| > 0 && !Before(order, x, xs[0]) {
      InsertKeepsSorted(order, x, xs[1..]);
      var rest := Insert(order, x, xs[1..]);
      forall j | 0 <= j < |rest| ensures Before(order, xs[0], rest[j]) {
        assert rest[j] in multiset(rest);
        assert rest[j] == x || rest[j] in xs[1..];
      }
    }
  }

  lemma {:induction false} SortSorts(order: Order, xs: seq<Archive>)
    ensures Sorted(order, Sort(order, xs))
  {
    if |xs| > 0 {
      SortSorts(order, xs[1..]);
      InsertKeepsSorted(order, xs[0], Sort(order, xs[1..]));
    }
  }

  /** The first in order is the same in any list of the same archives. */
  lemma SameFirst(order: Order, a: seq<Archive>, b: seq<Archive>)
    requires Sorted(order, a) && Sorted(order, b) && Distinct(a) && multiset(a) == multiset(b) && |a| > 0
    ensures |b| > 0 && a[0] == b[0]
  {
    assert a[0] in multiset(b);
    assert b[0] in multiset(a);
    var i :| 0 <= i < |b| && b[i] == a[0];
    var j :| 0 <= j < |a| && a[j] == b[0];
    if i > 0 && j > 0 {
      assert Before(order, b[0], b[i]) && Before(order, a[0], a[j]);
      assert a[0].stamp == a[j].stamp;
    }
  }

  lemma WithoutFirst(xs: seq<Archive>)
    requires |xs| > 0
    ensures multiset(xs[1..]) == multiset(xs) - multiset{xs[0]} && xs == [xs[0]] + xs[1..]
  {
    assert xs == [xs[0]] + xs[1..];
  }

  /** There is one way to put archives of distinct names in order. */
  lemma {:induction false} SortedIsUnique(order: Order, a: seq<Archive>, b: seq<Archive>)
    requires Sorted(order, a) && Sorted(order, b) && Distinct(a) && multiset(a) == multiset(b)
    ensures a == b
    decreases |a|
  {
    if |a| == 0 {
      assert |multiset(b)| == 0;
    } else {
      SameFirst(order, a, b);
      hide Before;
      WithoutFirst(a);
      WithoutFirst(b);
      SortedIsUnique(order, a[1..], b[1..]);
    }
  }

  /** `collectChainFiles`: whatever order the directory lists the archives in, they are read in the order
      of their stamps. */
  lemma ReadInStampOrder(listing: seq<Archive>, archives: seq<Archive>)
    requires Chronological(archives) && multiset(listing) == multiset(archives)
    ensures Sort(ByStamp, listing) == archives
  {
    SortSorts(ByStamp, listing);
    SortedIsUnique(ByStamp, archives, Sort(ByStamp, listing));
  }

  datatype Budget = Budget(maxArchives: nat, maxAgeMs: int)

  /** The stamps of the archives retention keeps: among the newest `maxArchives`, those young enough. */
  function Keep(newestFirst: seq<Archive>, budget: Budget, nowMs: int): set<int> {
    set i | 0 <= i < |newestFirst| && i < budget.maxArchives && nowMs - newestFirst[i].mtimeMs <= budget.maxAgeMs
      :: newestFirst[i].stamp
  }

  /** The archives not kept, in the order given. */
  function Drop(xs: seq<Archive>, keep: set<int>): seq<Archive> {
    if |xs| == 0 then []
    else (if xs[0].stamp in keep then [] else [xs[0]]) + Drop(xs[1..], keep)
  }

  function Candidates(listing: seq<Archive>, budget: Budget, nowMs: int): seq<Archive> {
    Sort(ByStamp, Drop(listing, Keep(Sort(NewestFirst, listing), budget, nowMs)))
  }

  method KeepNewest(archives: seq<Archive>, budget: Budget, nowMs: int) returns (keep: set<int>)
    ensures keep == Keep(archives, budget, nowMs)
  {
    keep := {};
    var i := 0;
    while i < |archives| && i < budget.maxArchives
      invariant 0 <= i <= |archives| && i <= budget.maxArchives
      invariant keep == Keep(archives, Budget(i, budget.maxAgeMs), nowMs)
    {
      var entry := archives[i];
      i := i + 1;
      if nowMs - entry.mtimeMs > budget.maxAgeMs {
        continue;
      }
      keep := keep + {entry.stamp};
    }
  }

  lemma DropNext(listing: seq<Archive>, k: nat, keep: set<int>)
    requires k < |listing|
    ensures Drop(listing[k..], keep)
         == (if listing[k].stamp in keep then [] else [listing[k]]) + Drop(listing[k + 1..], keep)
  {
    assert listing[k..][1..] == listing[k + 1..];
  }

  method DropKept(listing: seq<Archive>, keep: set<int>) returns (dropped: seq<Archive>)
    ensures dropped == Drop(listing, keep)
  {
    dropped := [];
    for k := 0 to |listing|
      invariant dropped + Drop(listing[k..], keep) == Drop(listing, keep)
    {
      hide Drop;
      DropNext(listing, k, keep);
      if listing[k].stamp !in keep {
        dropped := dropped + [listing[k]];
      }
    }
  }

  /** The selection as the source makes it. */
  method PruneCandidates(listing: seq<Archive>, budget: Budget, nowMs: int) returns (candidates: seq<Archive>)
    ensures candidates == Candidates(listing, budget, nowMs)
  {
    var keep := KeepNewest(Sort(NewestFirst, listing), budget, nowMs);
    var dropped := DropKept(listing, keep);
    candidates := Sort(ByStamp, dropped);
  }

  function Reverse(xs: seq<Archive>): (r: seq<Archive>)
    ensures |r| == |xs| && forall i :: 0 <= i < |xs| ==> r[i] == xs[|xs| - 1 - i]
    ensures multiset(r) == multiset(xs)
  {
    if |xs| == 0 then []
    else
      assert xs == xs[..|xs| - 1] + [xs[|xs| - 1]];
      [xs[|xs| - 1]] + Reverse(xs[..|xs| - 1])
  }

  lemma NewestFirstIsReverse(listing: seq<Archive>, archives: seq<Archive>)
    requires Chronological(archives) && multiset(listing) == multiset(archives)
    ensures Sort(NewestFirst, listing) == Reverse(archives)
  {
    SortSorts(NewestFirst, listing);
    SortedIsUnique(NewestFirst, Reverse(archives), Sort(NewestFirst, listing));
  }

  lemma {:induction false} DropMultiset(xs: seq<Archive>, ys: seq<Archive>, keep: set<int>)
    requires multiset(xs) == multiset(ys)
    ensures multiset(Drop(xs, keep)) == multiset(Drop(ys, keep))
  {
    forall a ensures multiset(Drop(xs, keep))[a] == multiset(Drop(ys, keep))[a] {
      DropCounts(xs, keep, a);
      DropCounts(ys, keep, a);
    }
  }

  lemma {:induction false} DropCounts(xs: seq<Archive>, keep: set<int>, a: Archive)
    ensures multiset(Drop(xs, keep))[a] == if a.stamp in keep then 0 else multiset(xs)[a]
  {
    if |xs| > 0 {
      DropCounts(xs[1..], keep, a);
      assert xs == [xs[0]] + xs[1..];
    }
  }

  /** How many archives are kept: counted from the newest, up to the budget, while young enough. */
  function KeptCount(archives: seq<Archive>, budget: Budget, nowMs: int): (n: nat)
    ensures n <= |archives| && n <= budget.maxArchives
    ensures forall i :: |archives| - n <= i < |archives| ==> nowMs - archives[i].mtimeMs <= budget.maxAgeMs
    ensures n < |archives| && n < budget.maxArchives ==> nowMs - archives[|archives| - n - 1].mtimeMs > budget.maxAgeMs
  {
    if |archives| == 0 || budget.maxArchives == 0 || nowMs - archives[|archives| - 1].mtimeMs > budget.maxAgeMs then 0
    else 1 + KeptCount(archives[..|archives| - 1], budget.(maxArchives := budget.maxArchives - 1), nowMs)
  }

  lemma {:induction false} DropIsPrefix(xs: seq<Archive>, n: nat, keep: set<int>)
    requires n <= |xs|
    requires forall i :: 0 <= i < |xs| ==> (xs[i].stamp in keep <==> i >= n)
    ensures Drop(xs, keep) == xs[..n]
  {
    if |xs| > 0 {
      DropIsPrefix(xs[1..], if n == 0 then 0 else n - 1, keep);
    }
  }

  /** When stamps and times agree, an archive is kept exactly when it is one of the newest. */
  lemma KeptAreTheNewest(archives: seq<Archive>, budget: Budget, nowMs: int, i: nat)
    requires Chronological(archives) && i < |archives|
    ensures archives[i].stamp in Keep(Reverse(archives), budget, nowMs)
       <==> i >= |archives| - KeptCount(archives, budget, nowMs)
  {
    var newest, n := Reverse(archives), |archives| - KeptCount(archives, budget, nowMs);
    assert forall q :: 0 <= q < |newest| ==> newest[q] == archives[|archives| - 1 - q];
    assert newest[|archives| - 1 - i] == archives[i];
    assert i < n - 1 ==> archives[i].mtimeMs <= archives[n - 1].mtimeMs;
  }

  /** A prune removes the oldest archives: those before the kept ones, a prefix of the order in which the
      chain is read, whatever order the directory lists them in. */
  lemma PrunesOldestFirst(listing: seq<Archive>, archives: seq<Archive>, budget: Budget, nowMs: int)
    requires Chronological(archives) && multiset(listing) == multiset(archives)
    ensures Candidates(listing, budget, nowMs) == archives[..|archives| - KeptCount(archives, budget, nowMs)]
  {
    var n := |archives| - KeptCount(archives, budget, nowMs);
    NewestFirstIsReverse(listing, archives);
    var keep := Keep(Reverse(archives), budget, nowMs);
    forall i | 0 <= i < |archives| ensures archives[i].stamp in keep <==> i >= n {
      KeptAreTheNewest(archives, budget, nowMs, i);
    }
    DropIsPrefix(archives, n, keep);
    DropMultiset(listing, archives, keep);
    ReadInStampOrder(Drop(listing, keep), archives[..n]);
  }

  /** No two archives of one stamp, listed in the order of their stamps. */
  ghost predicate InStampOrder(xs: seq<Archive>) {
    forall i, j :: 0 <= i < j < |xs| ==> xs[i].stamp < xs[j].stamp
  }

  /** The prune removes the oldest archives of the chain order, and no others. */
  ghost predicate PrunesPrefix(archives: seq<Archive>, budget: Budget, nowMs: int) {
    exists n :: 0 <= n <= |archives| && Candidates(archives, budget, nowMs) == archives[..n]
  }

  lemma SortedPlace(archives: seq<Archive>, i: nat) returns (q: nat)
    requires i < |archives|
    ensures |Sort(NewestFirst, archives)| == |archives|
    ensures q < |archives| && Sort(NewestFirst, archives)[q] == archives[i]
    ensures forall p :: 0 <= p < |archives| ==> Sort(NewestFirst, archives)[p] in archives
  {
    var newest := Sort(NewestFirst, archives);
    assert |newest| == |multiset(newest)| == |archives|;
    assert archives[i] in multiset(newest);
    q :| 0 <= q < |newest| && newest[q] == archives[i];
    forall p | 0 <= p < |newest| ensures newest[p] in archives {
      assert newest[p] in multiset(archives);
    }
  }

  /** With room for all, exactly those young enough are kept. */
  lemma KeptByAge(archives: seq<Archive>, nowMs: int, i: nat)
    requires InStampOrder(archives) && i < |archives|
    ensures archives[i].stamp in Keep(Sort(NewestFirst, archives), Budget(|archives|, 0), nowMs)
       <==> nowMs <= archives[i].mtimeMs
  {
    hide Sort;
    var q := SortedPlace(archives, i);
    var newest := Sort(NewestFirst, archives);
    forall p | 0 <= p < |newest| && newest[p].stamp == archives[i].stamp ensures newest[p] == archives[i] {
      assert newest[p] in archives;
    }
  }

  lemma CandidateIff(archives: seq<Archive>, budget: Budget, nowMs: int, a: Archive)
    ensures a in Candidates(archives, budget, nowMs)
       <==> a in archives && a.stamp !in Keep(Sort(NewestFirst, archives), budget, nowMs)
  {
    var keep := Keep(Sort(NewestFirst, archives), budget, nowMs);
    DropCounts(archives, keep, a);
    assert a in Candidates(archives, budget, nowMs) <==> a in multiset(Candidates(archives, budget, nowMs));
    assert a in archives <==> a in multiset(archives);
  }

  /** Every prune, whatever its budget and time, removes the oldest archives exactly when their times never
      decrease in the order of their stamps. */
  lemma PrefixIffTimesInOrder(archives: seq<Archive>)
    requires InStampOrder(archives)
    ensures (forall budget, nowMs :: PrunesPrefix(archives, budget, nowMs))
       <==> forall i, j :: 0 <= i < j < |archives| ==> archives[i].mtimeMs <= archives[j].mtimeMs
  {
    if Chronological(archives) {
      forall budget, nowMs ensures PrunesPrefix(archives, budget, nowMs) {
        PrunesOldestFirst(archives, archives, budget, nowMs);
      }
    } else {
      var i, j :| 0 <= i < j < |archives| && archives[i].mtimeMs > archives[j].mtimeMs;
      TouchedArchiveOutlivesNewer(archives, i, j);
    }
  }

  /** An archive touched after a later one was made outlives it: with room for all, at the moment it was
      touched, the later one is pruned and it is not. */
  lemma TouchedArchiveOutlivesNewer(archives: seq<Archive>, i: nat, j: nat)
    requires InStampOrder(archives) && i < j < |archives| && archives[i].mtimeMs > archives[j].mtimeMs
    ensures var pruned := Candidates(archives, Budget(|archives|, 0), archives[i].mtimeMs);
            archives[j] in pruned && archives[i] !in pruned
    ensures !PrunesPrefix(archives, Budget(|archives|, 0), archives[i].mtimeMs)
  {
    var budget, nowMs := Budget(|archives|, 0), archives[i].mtimeMs;
    KeptByAge(archives, nowMs, i);
    KeptByAge(archives, nowMs, j);
    CandidateIff(archives, budget, nowMs, archives[i]);
    CandidateIff(archives, budget, nowMs, archives[j]);
    hide Candidates, Keep;
    forall n | 0 <= n <= |archives| ensures Candidates(archives, budget, nowMs) != archives[..n] {
      OldestFirst(archives, n, i, j);
    }
  }

  /** The oldest archives hold with each one every older one. */
  lemma OldestFirst(archives: seq<Archive>, n: nat, i: nat, j: nat)
    requires InStampOrder(archives) && i < j < |archives| && n <= |archives|
    ensures archives[j] in archives[..n] ==> archives[i] in archives[..n]
  {
    if archives[j] in archives[..n] {
      var k :| 0 <= k < n && archives[..n][k] == archives[j];
      assert k == j;
      assert archives[..n][i] == archives[i];
    }
  }
}
