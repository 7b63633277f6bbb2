/** What a reader of a packed diff can count and see for himself: the statistics are those of
    the text, the files come in order, and where the list stops tells why. */
module DiffSummary {
  import opened EditScript
  import opened Hunks
  import opened Filter
  import opened FileDiff
  import Text
  import opened Packing
  import opened R = ReadDiff

  // ----- the statistics and the text -----

  /** How many printed lines start with a mark. */
  function Marked(c: char, lines: seq<DiffLine>): nat {
    if lines == [] then 0
    else Marked(c, lines[..|lines| - 1]) + if [c] <= lines[|lines| - 1].text then 1 else 0
  }

  function MarkedIn(c: char, hunks: seq<Hunk>): nat {
    if hunks == [] then 0 else MarkedIn(c, hunks[..|hunks| - 1]) + Marked(c, hunks[|hunks| - 1].lines)
  }

  /** The '+' and '-' lines an entry of the text shows. */
  function PlusLines(e: Entry): nat {
    match e
    case AddedFile(_, lines) => |lines|
    case RemovedFile(_, _) => 0
    case ModifiedFile(_, hunks) => MarkedIn('+', hunks)
  }

  function MinusLines(e: Entry): nat {
    match e
    case AddedFile(_, _) => 0
    case RemovedFile(_, lines) => |lines|
    case ModifiedFile(_, hunks) => MarkedIn('-', hunks)
  }

  function AllPlus(es: seq<Entry>): nat {
    if es == [] then 0 else AllPlus(es[..|es| - 1]) + PlusLines(es[|es| - 1])
  }

  function AllMinus(es: seq<Entry>): nat {
    if es == [] then 0 else AllMinus(es[..|es| - 1]) + MinusLines(es[|es| - 1])
  }

  lemma {:induction false} PrintedMarks(ops: seq<EditOp>)
    ensures Marked('+', PrintAll(ops)) == KindCount(PrintAll(ops), Add)
    ensures Marked('-', PrintAll(ops)) == KindCount(PrintAll(ops), Del)
  {
    if ops != [] {
      var lines, init := PrintAll(ops), ops[..|ops| - 1];
      PrintedMarks(init);
      assert lines[..|lines| - 1] == PrintAll(init);
      assert lines[|lines| - 1].text[0] == Prefix(ops[|ops| - 1].kind);
    }
  }

  lemma {:induction false} HunkMarks(ops: seq<EditOp>, bs: seq<Block>)
    requires Within(bs, |ops|)
    ensures MarkedIn('+', HunksAt(ops, bs)) == HunkCount(HunksAt(ops, bs), Add)
    ensures MarkedIn('-', HunksAt(ops, bs)) == HunkCount(HunksAt(ops, bs), Del)
  {
    hide PrintAll, OldSide, NewSide;
    if bs != [] {
      var init, last := bs[..|bs| - 1], bs[|bs| - 1];
      HunkMarks(ops, init);
      assert HunksAt(ops, bs)[..|bs| - 1] == HunksAt(ops, init);
      PrintedMarks(ops[last.lo..last.hi]);
    }
  }

  lemma FileMarks(o: string, n: string)
    ensures MarkedIn('+', FileHunks(o, n)) == HunkCount(FileHunks(o, n), Add)
    ensures MarkedIn('-', FileHunks(o, n)) == HunkCount(FileHunks(o, n), Del)
  {
    hide Lines, Script, Mask, Runs, HunksAt, HunkCount, MarkedIn;
    var ops := Script(Lines(o), Lines(n), MAX_CELLS);
    HunkMarks(ops, Runs(Mask(ops, CONTEXT_LINES), |ops|));
  }

  /** The two counts of a changed file are the numbers of its '+' and '-' lines. */
  lemma SectionMatchesEntry(path: string, oldFiles: Files, newFiles: Files)
    requires SectionOf(path, oldFiles, newFiles).changed == 1
    ensures SectionOf(path, oldFiles, newFiles).added == PlusLines(EntryOf(path, oldFiles, newFiles))
    ensures SectionOf(path, oldFiles, newFiles).removed == MinusLines(EntryOf(path, oldFiles, newFiles))
  {
    hide FileHunks, HunkCount, MarkedIn, Text.Unlines, SectionLines, Lines;
    FileMarks(Content(oldFiles, path), Content(newFiles, path));
  }

  lemma {:induction false} TotalsMatchEntries(all: seq<FileSection>, n: nat, oldFiles: Files, newFiles: Files)
    requires n <= |all| && Genuine(all, oldFiles, newFiles)
    ensures var es := Entries(Paths(all, n), oldFiles, newFiles);
            |es| == n && AddedTotal(all, n) == AllPlus(es) && RemovedTotal(all, n) == AllMinus(es)
  {
    hide SectionOf, EntryOf, PlusLines, MinusLines;
    if n > 0 {
      var last := all[n - 1];
      TotalsMatchEntries(all, n - 1, oldFiles, newFiles);
      assert Paths(all, n) == Paths(all, n - 1) + [last.path];
      AllLinesSnoc(Paths(all, n - 1), last.path, oldFiles, newFiles);
      SectionMatchesEntry(last.path, oldFiles, newFiles);
    }
  }

  /** The statistics can be checked against the text: as many files as it shows, as many lines
      added and removed as it has '+' and '-' lines, truncated if it carries the marker. */
  lemma StatsMatchText(oldFiles: Files, newFiles: Files, limit: int, diff: string, stats: Stats, n: nat)
    requires PackedDiff(oldFiles, newFiles, limit, diff, stats, n)
    requires forall p :: p in oldFiles || p in newFiles ==> '\n' !in p
    ensures R.ReadDiff(diff).Some?
    ensures var (entries, truncated) := R.ReadDiff(diff).value;
            && stats == Stats(|entries|, AllPlus(entries), AllMinus(entries), truncated)
  {
    hide PackedDiff, AllSections, Genuine, AddedTotal, RemovedTotal, AllPlus, AllMinus, Entries, R.ReadDiff, Paths;
    SectionsGenuine(oldFiles, newFiles);
    PackedTotals(oldFiles, newFiles, limit, diff, stats, n);
    DiffReadsBack(oldFiles, newFiles, limit, diff, stats, n);
    TotalsMatchEntries(AllSections(oldFiles, newFiles), n, oldFiles, newFiles);
  }

  // ----- the order of the files -----

  function Rank(t: Tier): nat {
    match t
    case Tier1 => 1
    case Tier2 => 2
    case Tier3 => 3
    case Tier4 => 4
  }

  /** Code before configuration before documentation, and within a tier by bytes, no path twice. */
  ghost predicate Before(p: string, q: string) {
    || Rank(Classify(p)) < Rank(Classify(q))
    || (Classify(p) == Classify(q) && p != q && BytewiseUpTo(p, q))
  }

  /** The listed sections are of one tier, in order. */
  ghost predicate InOrder(ss: seq<FileSection>, t: Tier) {
    && (forall i :: 0 <= i < |ss| ==> Classify(ss[i].path) == t)
    && forall i, j :: 0 <= i < j < |ss| ==> Before(ss[i].path, ss[j].path)
  }

  lemma TierPathsAscend(oldFiles: Files, newFiles: Files, t: Tier)
    ensures var paths := TierPaths(oldFiles, newFiles, t);
            && (forall i :: 0 <= i < |paths| ==> Classify(paths[i]) == t)
            && forall i, j :: 0 <= i < j < |paths| ==> Before(paths[i], paths[j])
  {
    hide Classify, BytewiseUpTo, Sort, Rank;
    var walked, paths := SetToSeq(oldFiles.Keys + newFiles.Keys), TierPaths(oldFiles, newFiles, t);
    OfTierContents(walked, t);
    SortAscends(OfTier(walked, t));
    forall i | 0 <= i < |paths|
      ensures Classify(paths[i]) == t
    {
      assert paths[i] in multiset(paths);
    }
    forall i, j | 0 <= i < j < |paths|
      ensures paths[i] != paths[j]
    {
      assert multiset(paths)[paths[i]] <= 1;
      OnceOnly(paths, i, j);
    }
  }

  lemma OnceOnly(paths: seq<string>, i: nat, j: nat)
    requires i < j < |paths| && multiset(paths)[paths[i]] <= 1
    ensures paths[i] != paths[j]
  {
    assert paths == paths[..j] + paths[j..];
    assert paths[..j][i] in multiset(paths[..j]) && paths[j..][0] in multiset(paths[j..]);
    assert multiset(paths)[paths[i]] == multiset(paths[..j])[paths[i]] + multiset(paths[j..])[paths[i]];
  }

  lemma {:induction false} ChangedInOrder(paths: seq<string>, i: nat, oldFiles: Files, newFiles: Files, t: Tier)
    requires i <= |paths|
    requires forall i :: 0 <= i < |paths| ==> Classify(paths[i]) == t
    requires forall i, j :: 0 <= i < j < |paths| ==> Before(paths[i], paths[j])
    ensures InOrder(Changed(paths, i, oldFiles, newFiles), t)
    ensures forall k :: 0 <= k < |Changed(paths, i, oldFiles, newFiles)| ==>
              Changed(paths, i, oldFiles, newFiles)[k].path in paths[..i]
  {
    hide SectionOf, Classify, Before;
    if i > 0 {
      ChangedInOrder(paths, i - 1, oldFiles, newFiles, t);
      assert paths[..i] == paths[..i - 1] + [paths[i - 1]];
    }
  }

  lemma TierInOrder(oldFiles: Files, newFiles: Files, t: Tier)
    ensures InOrder(TierSections(oldFiles, newFiles, t), t)
  {
    hide Classify, Before, Sort;
    TierPathsAscend(oldFiles, newFiles, t);
    var paths := TierPaths(oldFiles, newFiles, t);
    ChangedInOrder(paths, |paths|, oldFiles, newFiles, t);
  }

  /** The changed files in the order a diff shows them. */
  lemma ShownInOrder(oldFiles: Files, newFiles: Files, i: nat, j: nat)
    requires i < j < |AllSections(oldFiles, newFiles)|
    ensures Before(AllSections(oldFiles, newFiles)[i].path, AllSections(oldFiles, newFiles)[j].path)
  {
    hide TierSections, Classify;
    TierInOrder(oldFiles, newFiles, Tier1);
    TierInOrder(oldFiles, newFiles, Tier2);
    TierInOrder(oldFiles, newFiles, Tier3);
  }

  // ----- where the list stops -----

  /** The bytes of the limit, and what they let through. The first code file is always shown,
      alone and marked if it is over the limit. Otherwise what is shown stays within the limit,
      a marked diff stops before a file that would exceed it, and documentation is shown only
      while code and configuration leave a fifth of the limit and more; without that room it is
      left out unmarked. */
  lemma WhereItStops(oldFiles: Files, newFiles: Files, limit: int, diff: string, stats: Stats, n: nat)
    requires PackedDiff(oldFiles, newFiles, limit, diff, stats, n)
    ensures var all := AllSections(oldFiles, newFiles);
            var c1 := |TierSections(oldFiles, newFiles, Tier1)|;
            var c2 := c1 + |TierSections(oldFiles, newFiles, Tier2)|;
            && n <= |all| && (c1 > 0 ==> n > 0)
            && (n > 0 && Used(all, n) > limit ==> n == 1 <= c1 && stats.truncated)
            && (stats.truncated && (n == 0 || Used(all, n) <= limit) ==> n < |all| && Used(all, n + 1) > limit)
            && (!stats.truncated && n < |all| ==> n == c2)
            && (n > c2 ==> 5 * Used(all, c2) + 5 <= 4 * limit)
            && (n == c2 < |all| && (n == 0 || Used(all, n) <= limit) ==>
                  (stats.truncated <==> 5 * Used(all, c2) + 5 <= 4 * limit))
  {
    var all := AllSections(oldFiles, newFiles);
    var c2 := |TierSections(oldFiles, newFiles, Tier1)| + |TierSections(oldFiles, newFiles, Tier2)|;
    hide TierSections, Body;
    FourFifths(limit, Used(all, c2));
  }

  /** The documentation budget is four fifths of the limit in whole bytes. */
  lemma FourFifths(limit: int, used: nat)
    ensures used < DocsBudget(limit) <==> 5 * used + 5 <= 4 * limit
  {
  }
}
