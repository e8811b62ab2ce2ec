/** The files of the audit directory, and where the next row links. */
module AuditDisk {
  import opened Common
  import opened ChainLines
  import opened ChainWalk
  import opened ChainFacts

  /** A file is the list of its lines as split on newlines, so its last line is blank exactly when the file
      is empty or ends with a newline. */
  type File = lines: seq<Line> | |lines| > 0 witness [Blank]

  datatype Archive = Archive(stamp: int, mtimeMs: int, lines: File)

  /** The audit directory: the cut file, the archives in the order of their stamps, and the live log. */
  datatype Disk = Disk(cuts: Option<File>, archives: seq<Archive>, live: Option<File>)

  function LinesOf(archives: seq<Archive>): seq<Line>
    decreases |archives|
  {
    if |archives| == 0 then [] else LinesOf(archives[..|archives| - 1]) + archives[|archives| - 1].lines
  }

  function CutFile(d: Disk): seq<Line> {
    if d.cuts.Some? then d.cuts.value else []
  }

  function LiveLines(d: Disk): seq<Line> {
    if d.live.Some? then d.live.value else []
  }

  /** The lines of the archives and the live log, oldest first. */
  function Entries(d: Disk): seq<Line> {
    LinesOf(d.archives) + LiveLines(d)
  }

  /** What `verifyChain` is given: every chain file, oldest first. */
  function AllLines(d: Disk): seq<Line> {
    CutFile(d) + Entries(d)
  }

  predicate FilesPresent(d: Disk) {
    d.cuts.Some? || |d.archives| > 0 || d.live.Some?
  }

  /** `verifyAuditChainAt`: no verdict when there is no file. */
  function VerifyAt(d: Disk, probe: Option<Digest>): Option<Verdict> {
    if FilesPresent(d) then Some(Verify(AllLines(d), probe)) else None
  }

  /** The cut file holds cut records only, the other files none. */
  predicate CutsApart(d: Disk) {
    && (forall k :: 0 <= k < |CutFile(d)| ==> CutFile(d)[k].Cut? || CutFile(d)[k].Blank?)
    && NoCuts(Entries(d))
  }

  // ---------------------------------------------------------------------------
  // The cut link.
  // ---------------------------------------------------------------------------

  datatype CutEnd = CutEnd(expected: Option<Digest>, legacyTail: Option<Digest>)

  /** What one line of the cut file does to the link read from it. */
  function CutEndStep(e: CutEnd, line: Line): CutEnd {
    if !line.Cut? then e
    else
      var c := line.cut;
      CutEnd(if LegacyOnly(c) then e.expected else Some(c.removedTo),
             if c.removedLegacy.GetOr(0) > 0 && c.legacyTail.Some? then c.legacyTail else e.legacyTail)
  }

  function CutEndOf(lines: seq<Line>): CutEnd
    decreases |lines|
  {
    if |lines| == 0 then CutEnd(None, None)
    else CutEndStep(CutEndOf(lines[..|lines| - 1]), lines[|lines| - 1])
  }

  /** `readCutLink`: where the walk stands after the cut file, or none for the start of the chain. */
  function CutLink(d: Disk): Option<Digest> {
    var end := CutEndOf(CutFile(d));
    if end.expected.Some? then end.expected else end.legacyTail
  }

  method ReadCutLink(d: Disk) returns (link: Option<Digest>)
    ensures link == CutLink(d)
  {
    if d.cuts.None? {
      return None;
    }
    var lines := d.cuts.value;
    var expected: Option<Digest>, legacyTail: Option<Digest> := None, None;
    for i := 0 to |lines|
      invariant CutEnd(expected, legacyTail) == CutEndOf(lines[..i])
    {
      assert lines[..i + 1][..i] == lines[..i];
      if lines[i].Cut? {
        var parsed := lines[i].cut;
        if parsed.removedLegacy.GetOr(0) > 0 && parsed.legacyTail.Some? {
          legacyTail := parsed.legacyTail;
        }
        if !LegacyOnly(parsed) {
          expected := Some(parsed.removedTo);
        }
      }
    }
    assert lines[..|lines|] == lines;
    link := if expected.Some? then expected else legacyTail;
  }

  /** The link read from the cut file is where the walk stands after it. */
  lemma {:induction false} CutLinkIsLink(rigour: Rigour, probe: Option<Digest>, lines: seq<Line>)
    requires forall k :: 0 <= k < |lines| ==> lines[k].Cut? || lines[k].Blank?
    requires Fold(rigour, probe, START, lines).Walking?
    ensures var w, end := Fold(rigour, probe, START, lines), CutEndOf(lines);
            && w.pending.None?
            && w.passedOver == []
            && w.tally.entries == 0
            && w.tally.foundAt.None?
            && (w.standing.begun <==> end.expected.Some?)
            && (w.standing.begun ==> end.expected == Some(w.standing.expected))
            && (!w.standing.begun ==> end.legacyTail == w.standing.legacyTail)
    decreases |lines|
  {
    if |lines| > 0 {
      var last := |lines| - 1;
      assert lines[..last] + [lines[last]] == lines;
      WalkingBefore(rigour, probe, START, lines[..last], [lines[last]]);
      CutLinkIsLink(rigour, probe, lines[..last]);
    }
  }

  // ---------------------------------------------------------------------------
  // The tail of the chain.
  // ---------------------------------------------------------------------------

  datatype Place = Live | InArchive(index: nat)

  /** The chain's last non-blank line. */
  datatype ChainTail = ChainTail(
    file: Place,
    line: nat,
    content: Line,
    endsWithNewline: bool,
    valid: bool,
    digest: Option<Digest>,
    previousDigest: Option<Digest>)

  /** The last non-blank line. */
  function LastItem(lines: seq<Line>): (last: Option<Line>)
    ensures last.Some? ==> !last.value.Blank?
    decreases |lines|
  {
    if |lines| == 0 then None
    else if !lines[|lines| - 1].Blank? then Some(lines[|lines| - 1])
    else LastItem(lines[..|lines| - 1])
  }

  /** The last line that parses. */
  function LastParsed(lines: seq<Line>): (last: Option<Line>)
    ensures last.Some? ==> Parses(last.value)
    decreases |lines|
  {
    if |lines| == 0 then None
    else if Parses(lines[|lines| - 1]) then Some(lines[|lines| - 1])
    else LastParsed(lines[..|lines| - 1])
  }

  lemma {:induction false} LastItemConcat(a: seq<Line>, b: seq<Line>)
    ensures LastItem(a + b) == if LastItem(b).Some? then LastItem(b) else LastItem(a)
    decreases |b|
  {
    if |b| == 0 {
      assert a + b == a;
    } else {
      assert (a + b)[..|a + b| - 1] == a + b[..|b| - 1];
      LastItemConcat(a, b[..|b| - 1]);
    }
  }

  lemma {:induction false} LastParsedConcat(a: seq<Line>, b: seq<Line>)
    ensures LastParsed(a + b) == if LastParsed(b).Some? then LastParsed(b) else LastParsed(a)
    decreases |b|
  {
    if |b| == 0 {
      assert a + b == a;
    } else {
      assert (a + b)[..|a + b| - 1] == a + b[..|b| - 1];
      LastParsedConcat(a, b[..|b| - 1]);
    }
  }

  /** What a damage row links to: the nearest valid row before the damage, or what the cuts lead to. */
  function PreviousLink(d: Disk): Option<Digest> {
    var last := LastParsed(Entries(d));
    if last.Some? then Some(Of(last.value)) else CutLink(d)
  }

  /** The live log ends in the middle of a line. */
  predicate Unended(d: Disk) {
    d.live.Some? && !d.live.value[|d.live.value| - 1].Blank?
  }

  /** The lines of one file in walk order; an absent live log reads as an empty one. */
  function FileAt(d: Disk, at: nat): File
    requires at <= |d.archives|
  {
    if at < |d.archives| then d.archives[at].lines else d.live.GetOr([Blank])
  }

  function PlaceAt(d: Disk, at: nat): Place {
    if at == |d.archives| then Live else InArchive(at)
  }

  /** `t` names the file, the 1-based line in it, and whether a newline follows the line. */
  predicate Locates(d: Disk, t: ChainTail) {
    var at := if t.file.Live? then |d.archives| else t.file.index;
    && (t.file.InArchive? ==> at < |d.archives|)
    && var lines := FileAt(d, at);
       && 1 <= t.line <= |lines|
       && lines[t.line - 1] == t.content
       && (forall k :: t.line <= k < |lines| ==> lines[k].Blank?)
       && t.endsWithNewline == (t.line < |lines|)
  }

  /** `tail` describes the chain's end. */
  predicate DescribesEnd(d: Disk, tail: Option<ChainTail>) {
    var last := LastItem(Entries(d));
    if last.None? then tail.None?
    else
      && tail.Some?
      && var t := tail.value;
         && t.content == last.value
         && t.valid == Parses(t.content)
         && t.digest == (if t.valid then Some(Of(t.content)) else None)
         && t.previousDigest == (if t.valid then None else PreviousLink(d))
         && Locates(d, t)
         && (t.file.Live? <==> LastItem(LiveLines(d)).Some?)
         && (!t.endsWithNewline && t.file.Live? <==> Unended(d))
  }

  /** One chain file, seen from its end: its last non-blank line at `at`, or none. */
  method LastLineOf(lines: File) returns (at: Option<nat>)
    ensures at.None? <==> LastItem(lines).None?
    ensures at.Some? ==> at.value < |lines| && Some(lines[at.value]) == LastItem(lines)
    ensures at.Some? ==> forall k :: at.value < k < |lines| ==> lines[k].Blank?
  {
    var n: nat := |lines|;
    assert lines[..n] == lines;
    while n > 0 && lines[n - 1].Blank?
      invariant 0 <= n <= |lines|
      invariant LastItem(lines) == LastItem(lines[..n])
      invariant forall k :: n <= k < |lines| ==> lines[k].Blank?
    {
      assert lines[..n][..n - 1] == lines[..n - 1];
      n := n - 1;
    }
    at := if n == 0 then None else Some(n - 1);
  }

  /** The last line of a file's first `n` lines that parses. */
  method LastParsedOf(lines: seq<Line>, n: nat) returns (last: Option<Line>)
    requires n <= |lines|
    ensures last == LastParsed(lines[..n])
  {
    var from: nat := n;
    while from > 0
      invariant 0 <= from <= n
      invariant LastParsed(lines[..n]) == LastParsed(lines[..from])
    {
      assert lines[..from][..from - 1] == lines[..from - 1];
      if Parses(lines[from - 1]) {
        return Some(lines[from - 1]);
      }
      from := from - 1;
    }
    last := None;
  }

  /** The lines of the first `n` of the archives and the live log. */
  function Before(d: Disk, n: nat): seq<Line>
    requires n <= |d.archives| + 1
  {
    if n <= |d.archives| then LinesOf(d.archives[..n]) else LinesOf(d.archives) + FileAt(d, n - 1)
  }

  lemma BeforeStep(d: Disk, at: nat)
    requires at <= |d.archives|
    ensures Before(d, at + 1) == Before(d, at) + FileAt(d, at)
  {
    if at < |d.archives| {
      assert d.archives[..at + 1][..at] == d.archives[..at];
    } else {
      assert d.archives[..at] == d.archives;
    }
  }

  /** Before the oldest file there is nothing. */
  lemma BeforeNothing(d: Disk)
    ensures LastItem(Before(d, 0)).None? && LastParsed(Before(d, 0)).None?
    ensures LastItem(Entries(d)).None? ==> DescribesEnd(d, None)
  {
    assert d.archives[..0] == [];
  }

  /** An absent live log reads as an empty one. */
  lemma BeforeAll(d: Disk)
    ensures LastItem(Before(d, |d.archives| + 1)) == LastItem(Entries(d))
    ensures LastParsed(Before(d, |d.archives| + 1)) == LastParsed(Entries(d))
    ensures LastItem(FileAt(d, |d.archives|)) == LastItem(LiveLines(d))
  {
    LastItemConcat(LinesOf(d.archives), FileAt(d, |d.archives|));
    LastParsedConcat(LinesOf(d.archives), FileAt(d, |d.archives|));
    if d.live.None? {
      assert [Blank][..0] == [];
      assert Entries(d) == LinesOf(d.archives);
    }
  }

  lemma {:induction false} NoItemNoParsed(lines: seq<Line>)
    requires LastItem(lines).None?
    ensures LastParsed(lines).None?
    decreases |lines|
  {
    if |lines| > 0 {
      NoItemNoParsed(lines[..|lines| - 1]);
    }
  }

  /** Blank lines at the end hide nothing that parses. */
  lemma {:induction false} BlankEnd(lines: seq<Line>, n: nat)
    requires n <= |lines| && forall k :: n <= k < |lines| ==> !Parses(lines[k])
    ensures LastParsed(lines) == LastParsed(lines[..n])
    decreases |lines| - n
  {
    if n < |lines| {
      assert lines[..n + 1][..n] == lines[..n];
      BlankEnd(lines, n + 1);
    } else {
      assert lines[..n] == lines;
    }
  }

  /** What the newest file with a non-blank line says about the chain's end. */
  lemma FoundEnd(d: Disk, at: nat, found: nat, t: ChainTail)
    requires at <= |d.archives| && found < |FileAt(d, at)|
    requires Some(FileAt(d, at)[found]) == LastItem(FileAt(d, at))
    requires forall k :: found < k < |FileAt(d, at)| ==> FileAt(d, at)[k].Blank?
    requires LastItem(Entries(d)) == Some(FileAt(d, at)[found])
    requires LastItem(FileAt(d, |d.archives|)) == LastItem(LiveLines(d))
    requires at < |d.archives| ==> LastItem(LiveLines(d)).None?
    requires t.file == PlaceAt(d, at) && t.line == found + 1 && t.content == FileAt(d, at)[found]
    requires t.endsWithNewline == (found + 1 < |FileAt(d, at)|)
    requires t.valid == Parses(t.content) && t.digest == if t.valid then Some(Of(t.content)) else None
    ensures DescribesEnd(d, Some(t.(previousDigest := if t.valid then None else PreviousLink(d))))
  {
    var t' := t.(previousDigest := if t.valid then None else PreviousLink(d));
    assert Locates(d, t');
    if at == |d.archives| && d.live.Some? {
      assert FileAt(d, at) == d.live.value;
      if found + 1 == |d.live.value| {
        assert Unended(d);
      }
    }
  }

  /** `readChainTail`: files newest first, each from its last line, until a non-blank line is found, and on
      from a damaged one until a line that parses. */
  method ReadChainTail(d: Disk) returns (tail: Option<ChainTail>)
    ensures DescribesEnd(d, tail)
  {
    hide LastItem, LastParsed, LinesOf, Before, DescribesEnd;
    tail := None;
    var at := |d.archives| + 1;
    BeforeAll(d);
    BeforeNothing(d);
    while at > 0
      invariant 0 <= at <= |d.archives| + 1
      invariant LastParsed(Before(d, at)) == LastParsed(Entries(d))
      invariant tail.None? ==> LastItem(Before(d, at)) == LastItem(Entries(d))
      invariant tail.None? && at <= |d.archives| ==> LastItem(LiveLines(d)).None?
      invariant tail.Some? ==> tail.value.previousDigest.None? && !tail.value.valid
      invariant tail.Some? ==> DescribesEnd(d, Some(tail.value.(previousDigest := PreviousLink(d))))
    {
      at := at - 1;
      BeforeStep(d, at);
      var lines := FileAt(d, at);
      LastItemConcat(Before(d, at), lines);
      LastParsedConcat(Before(d, at), lines);
      var upTo := |lines|;
      if tail.None? {
        var found := LastLineOf(lines);
        if found.Some? {
          var content := lines[found.value];
          var file := PlaceAt(d, at);
          var valid := Parses(content);
          tail := Some(ChainTail(file, found.value + 1, content, found.value + 1 < |lines|, valid,
                                 if valid then Some(Of(content)) else None, None));
          FoundEnd(d, at, found.value, tail.value);
          if valid {
            return;
          }
          BlankEnd(lines, found.value);
          upTo := found.value;
        } else {
          NoItemNoParsed(lines);
        }
      }
      if tail.Some? {
        var before := LastParsedOf(lines, upTo);
        if upTo == |lines| {
          assert lines[..upTo] == lines;
        }
        if before.Some? {
          tail := Some(tail.value.(previousDigest := Some(Of(before.value))));
          return;
        }
      }
    }
    if tail.Some? {
      var cutLink := ReadCutLink(d);
      tail := Some(tail.value.(previousDigest := cutLink));
    }
  }

  // ---------------------------------------------------------------------------
  // The link chosen agrees with the walk.
  // ---------------------------------------------------------------------------

  /** What the next row, or the damage row for a damaged end, is linked to. */
  function ChosenLink(d: Disk): Digest {
    PreviousLink(d).GetOr(Genesis)
  }

  /** After lines without cuts the walk stands at the last line that parses. */
  lemma {:induction false} StandsAtLastParsed(rigour: Rigour, probe: Option<Digest>, w: Walk, lines: seq<Line>)
    requires PendingIsTorn(w) && w.Walking? && NoCuts(lines) && Fold(rigour, probe, w, lines).Walking?
    ensures var s, last := Fold(rigour, probe, w, lines).standing, LastParsed(lines);
            if last.None? then s == w.standing else Link(s) == Of(last.value)
    decreases |lines|
  {
    if |lines| > 0 {
      var n := |lines| - 1;
      assert lines[..n] + [lines[n]] == lines;
      WalkingBefore(rigour, probe, w, lines[..n], [lines[n]]);
      StandsAtLastParsed(rigour, probe, w, lines[..n]);
    }
  }

  /** The link chosen from the end of the files is where the walk of every line stands. */
  lemma LinkChoiceAgrees(d: Disk)
    requires CutsApart(d) && Fold(Tolerant, None, START, AllLines(d)).Walking?
    ensures ChosenLink(d) == Link(Fold(Tolerant, None, START, AllLines(d)).standing)
  {
    hide Fold;
    WalkingBefore(Tolerant, None, START, CutFile(d), Entries(d));
    FoldConcat(Tolerant, None, START, CutFile(d), Entries(d));
    CutLinkIsLink(Tolerant, None, CutFile(d));
    StandsAtLastParsed(Tolerant, None, Fold(Tolerant, None, START, CutFile(d)), Entries(d));
  }

  /** The pending damaged line is the last non-blank one. */
  lemma {:induction false} PendingIsLastItem(rigour: Rigour, probe: Option<Digest>, lines: seq<Line>)
    requires Fold(rigour, probe, START, lines).Walking?
    ensures var w, last := Fold(rigour, probe, START, lines), LastItem(lines);
            if last.Some? && last.value.Torn? then w.pending.Some? && w.pending.value.line == last.value
            else w.pending.None?
    decreases |lines|
  {
    if |lines| > 0 {
      var n := |lines| - 1;
      assert lines[..n] + [lines[n]] == lines;
      WalkingBefore(rigour, probe, START, lines[..n], [lines[n]]);
      PendingIsLastItem(rigour, probe, lines[..n]);
    }
  }

  /** What is written after the last line: any row, or after a damaged line the row that diagnoses it. */
  predicate Answers(body: Body, lines: seq<Line>) {
    var last := LastItem(lines);
    last.Some? && last.value.Torn? ==>
      && body.Integrity?
      && body.condition == DamagedTail(CONDITION_VERSION, ByteLength(last.value), Of(last.value))
  }

  /** On an accepted log, and on one that is accepted up to a last damaged line, the row written next with
      the chosen link makes or keeps the log accepted. */
  lemma ChosenLinkIsAccepted(d: Disk, body: Body)
    requires CutsApart(d) && Fold(Strict, None, START, AllLines(d)).Walking? && Answers(body, AllLines(d))
    ensures Verify(AllLines(d) + [Row(body, ChosenLink(d))], None).Intact?
  {
    StrictOrTolerant(None, AllLines(d));
    LinkChoiceAgrees(d);
    PendingIsLastItem(Strict, None, AllLines(d));
    FoldSnoc(Strict, None, START, AllLines(d), Row(body, ChosenLink(d)));
  }
}
