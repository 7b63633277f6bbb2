/** Packing the changed files of a release into one diff under a byte budget. */
module Packing {
  import opened Filter
  import opened FileDiff

  datatype Stats = Stats(filesChanged: nat, linesAdded: nat, linesRemoved: nat, truncated: bool)

  const MARKER_LINE: string :=
    "--- DIFF TRUNCATED (" + "exceeded size limit, " + "more files not shown - " + "recommend manual audit) ---"
  const MARKER: string := "\n" + MARKER_LINE + "\n"

  /** Go's integer division: it truncates towards zero. */
  function Quotient(a: int, b: int): int
    requires b > 0
  {
    if a >= 0 then a / b else -(-a / b)
  }

  function DocsBudget(sizeLimit: int): int {
    Quotient(sizeLimit * 80, 100)
  }

  datatype FileSection = FileSection(path: string, section: Section)

  /** The changed files among the first i paths, in that order. */
  ghost function Changed(paths: seq<string>, i: nat, oldFiles: Files, newFiles: Files): seq<FileSection>
    requires i <= |paths|
  {
    if i == 0 then []
    else
      var s := SectionOf(paths[i - 1], oldFiles, newFiles);
      Changed(paths, i - 1, oldFiles, newFiles) + if s.changed == 0 then [] else [FileSection(paths[i - 1], s)]
  }

  /** The text of the first n sections, and their totals. */
  function Body(all: seq<FileSection>, n: nat): string
    requires n <= |all|
  {
    if n == 0 then "" else Body(all, n - 1) + all[n - 1].section.text
  }

  function AddedTotal(all: seq<FileSection>, n: nat): nat
    requires n <= |all|
  {
    if n == 0 then 0 else AddedTotal(all, n - 1) + all[n - 1].section.added
  }

  function RemovedTotal(all: seq<FileSection>, n: nat): nat
    requires n <= |all|
  {
    if n == 0 then 0 else RemovedTotal(all, n - 1) + all[n - 1].section.removed
  }

  ghost function SetToSeq(s: set<string>): (r: seq<string>)
    ensures multiset(r) == multiset(s)
  {
    if s == {} then []
    else
      var x :| x in s;
      assert s == (s - {x}) + {x};
      SetToSeq(s - {x}) + [x]
  }

  /** All paths of one tier in either release, sorted. */
  ghost function TierPaths(oldFiles: Files, newFiles: Files, t: Tier): seq<string> {
    Sort(OfTier(SetToSeq(oldFiles.Keys + newFiles.Keys), t))
  }

  /** The changed files of one tier, in sorted order. */
  ghost function TierSections(oldFiles: Files, newFiles: Files, t: Tier): seq<FileSection> {
    var paths := TierPaths(oldFiles, newFiles, t);
    Changed(paths, |paths|, oldFiles, newFiles)
  }

  /** The changed files of tiers 1, 2 and 3. */
  ghost function AllSections(oldFiles: Files, newFiles: Files): seq<FileSection> {
    TierSections(oldFiles, newFiles, Tier1) + TierSections(oldFiles, newFiles, Tier2)
    + TierSections(oldFiles, newFiles, Tier3)
  }

  /** Bytes of the first n sections. */
  function Used(all: seq<FileSection>, n: nat): nat
    requires n <= |all|
  {
    |Body(all, n)|
  }

  /** The first n files fit the limit. */
  ghost predicate Fits(all: seq<FileSection>, n: nat, limit: int) {
    n <= |all| && (n == 0 || Used(all, n) <= limit)
  }

  /** File n, one of the first `to`, does not fit after those before it. */
  ghost predicate Full(all: seq<FileSection>, n: nat, to: nat, limit: int) {
    n < to <= |all| && Used(all, n + 1) > limit
  }

  /** The first n of the changed files are emitted under `limit`. `all` lists the changed
      files of tiers 1, 2 and 3; the first c1 are tier 1 and the first c2 tiers 1 and 2. */
  ghost predicate Budgeted(all: seq<FileSection>, c1: nat, c2: nat, limit: int, n: nat, truncated: bool)
    requires c1 <= c2 <= |all|
  {
    if Full(all, 0, c1, limit) then
      // the first file alone is over the limit: it is shown anyway, and nothing else
      n == 1 && truncated
    else
      && Fits(all, n, limit)
      && (n > c2 ==> Used(all, c2) < DocsBudget(limit))
      && (truncated ==> Full(all, n, |all|, limit) && (n == c2 ==> Used(all, c2) < DocsBudget(limit)))
      && (!truncated ==> n == |all| || (n == c2 && Used(all, c2) >= DocsBudget(limit)))
  }

  // ----- facts about bodies -----

  lemma {:induction false} BodyGrows(all: seq<FileSection>, n: nat, m: nat)
    requires n <= m <= |all|
    ensures Used(all, n) <= Used(all, m)
    decreases m - n
  {
    if n < m {
      BodyGrows(all, n, m - 1);
    }
  }

  lemma {:induction false} ChangedPrefix(paths: seq<string>, i: nat, j: nat, oldFiles: Files, newFiles: Files)
    requires i <= j <= |paths|
    ensures Changed(paths, i, oldFiles, newFiles) <= Changed(paths, j, oldFiles, newFiles)
    decreases j - i
  {
    if i < j {
      ChangedPrefix(paths, i, j - 1, oldFiles, newFiles);
    }
  }

  /** Path i is the next changed file, or is not a changed file. */
  lemma NextChanged(paths: seq<string>, i: nat, oldFiles: Files, newFiles: Files)
    requires i < |paths|
    ensures var s := SectionOf(paths[i], oldFiles, newFiles);
            var n, all := |Changed(paths, i, oldFiles, newFiles)|, Changed(paths, |paths|, oldFiles, newFiles);
            if s.changed == 0 then |Changed(paths, i + 1, oldFiles, newFiles)| == n
            else |Changed(paths, i + 1, oldFiles, newFiles)| == n + 1 && n < |all| && all[n] == FileSection(paths[i], s)
  {
    ChangedPrefix(paths, i + 1, |paths|, oldFiles, newFiles);
  }

  // ----- the source's loops -----

  /** What the output holds: the first n sections, and their totals. */
  ghost predicate Holds(out: string, stats: Stats, all: seq<FileSection>, n: nat) {
    && n <= |all| && out == Body(all, n)
    && stats.filesChanged == n
    && stats.linesAdded == AddedTotal(all, n) && stats.linesRemoved == RemovedTotal(all, n)
  }

  method Append(out: string, stats: Stats, s: Section, ghost all: seq<FileSection>, ghost n: nat)
      returns (out': string, stats': Stats)
    requires n < |all| && all[n].section == s && s.changed == 1 && Holds(out, stats, all, n)
    ensures Holds(out', stats', all, n + 1) && stats'.truncated == stats.truncated
  {
    out' := out + s.text;
    stats' := stats.(filesChanged := stats.filesChanged + s.changed,
                     linesAdded := stats.linesAdded + s.added,
                     linesRemoved := stats.linesRemoved + s.removed);
  }

  /** The changed files of this tier are those from position `from` on. */
  ghost predicate TierAt(all: seq<FileSection>, from: nat, ss: seq<FileSection>) {
    from + |ss| <= |all| && forall k :: 0 <= k < |ss| ==> all[from + k] == ss[k]
  }

  /** How one pass ends: n of the first `to` files are emitted, and it was cut short or not. */
  ghost predicate Passed(all: seq<FileSection>, from: nat, to: nat, limit: int, exception: bool, n: nat,
      truncated: bool) {
    && from <= n <= to <= |all|
    && if exception && Full(all, from, to, limit) then n == from + 1 && truncated
       else Fits(all, n, limit) && if truncated then Full(all, n, to, limit) else n == to
  }

  /** One pass over the sorted paths of a tier; only the first pass has the first-file exception. */
  method EmitTier(paths: seq<string>, oldFiles: Files, newFiles: Files, sizeLimit: int, exception: bool,
                  out: string, stats: Stats, ghost all: seq<FileSection>, ghost from: nat)
      returns (out': string, stats': Stats)
    requires TierAt(all, from, Changed(paths, |paths|, oldFiles, newFiles))
    requires Fits(all, from, sizeLimit) && Holds(out, stats, all, from) && !stats.truncated
    ensures Holds(out', stats', all, stats'.filesChanged)
    ensures Passed(all, from, from + |Changed(paths, |paths|, oldFiles, newFiles)|, sizeLimit, exception,
              stats'.filesChanged, stats'.truncated)
  {
    hide SectionOf;
    out', stats' := out, stats;
    ghost var n := from;
    ghost var to := from + |Changed(paths, |paths|, oldFiles, newFiles)|;
    var firstFile := exception;
    for i := 0 to |paths|
      invariant n == from + |Changed(paths, i, oldFiles, newFiles)| && from <= n <= to
      invariant Fits(all, n, sizeLimit) && Holds(out', stats', all, n) && !stats'.truncated
      invariant firstFile <==> exception && n == from
      invariant n > from ==> !Full(all, from, to, sizeLimit)
    {
      var s := GenerateFileDiff(paths[i], oldFiles, newFiles);
      SectionBalance(paths[i], oldFiles, newFiles);
      NextChanged(paths, i, oldFiles, newFiles);
      if s.changed == 0 {
        continue;
      }
      if |out'| + |s.text| > sizeLimit {
        if firstFile {
          out', stats' := Append(out', stats', s, all, n);
          stats' := stats'.(truncated := true);
          return;
        }
        stats' := stats'.(truncated := true);
        return;
      }
      out', stats' := Append(out', stats', s, all, n);
      n := n + 1;
      firstFile := false;
    }
  }

  /** Walking one map's keys, in any order, skipping the paths already seen. */
  method WalkKeys(files: Files, seen: set<string>, paths: seq<string>) returns (seen': set<string>, paths': seq<string>)
    requires multiset(paths) == multiset(seen)
    ensures seen' == seen + files.Keys && multiset(paths') == multiset(seen')
  {
    seen', paths' := seen, paths;
    var todo := files.Keys;
    while todo != {}
      invariant seen <= seen' && seen' + todo == seen + files.Keys
      invariant multiset(paths') == multiset(seen')
      decreases todo
    {
      var p :| p in todo;
      todo := todo - {p};
      if p !in seen' {
        seen', paths' := seen' + {p}, paths' + [p];
      }
    }
  }

  /** The first n of the changed files s1, s2, s3 are what the budget selects, and
      `body` and the statistics describe them. */
  ghost predicate Packs(s1: seq<FileSection>, s2: seq<FileSection>, s3: seq<FileSection>, limit: int,
                        body: string, stats: Stats, n: nat)
  {
    Holds(body, stats, s1 + s2 + s3, n) && Budgeted(s1 + s2 + s3, |s1|, |s1| + |s2|, limit, n, stats.truncated)
  }

  /** The result for two releases: the selected files in order tier 1, tier 2, tier 3,
      each sorted, and the marker when some were left out. */
  ghost predicate PackedDiff(oldFiles: Files, newFiles: Files, limit: int, diff: string, stats: Stats, n: nat) {
    exists body ::
      && Packs(TierSections(oldFiles, newFiles, Tier1), TierSections(oldFiles, newFiles, Tier2),
               TierSections(oldFiles, newFiles, Tier3), limit, body, stats, n)
      && diff == body + if stats.truncated then MARKER else ""
  }

  method GenerateDiff(oldFiles: Files, newFiles: Files, ecosystem: string, sizeLimit: int)
      returns (diff: string, stats: Stats)
    ensures PackedDiff(oldFiles, newFiles, sizeLimit, diff, stats, stats.filesChanged)
  {
    hide SectionOf, Classify, Packs, PackedDiff;
    var seen, allPaths := WalkKeys(oldFiles, {}, []);
    seen, allPaths := WalkKeys(newFiles, seen, allPaths);
    WalkOrderIrrelevant(allPaths, oldFiles, newFiles);
    var tier1, tier2, tier3, _ := PartitionPaths(allPaths, ecosystem);
    diff, stats := EmitTiers(tier1, tier2, tier3, oldFiles, newFiles, sizeLimit);
    ghost var body := diff;
    if stats.truncated {
      diff := diff + MARKER;
    } else {
      assert body == body + "";
    }
    Reported(oldFiles, newFiles, sizeLimit, body, diff, stats, stats.filesChanged);
  }

  lemma Reported(oldFiles: Files, newFiles: Files, limit: int, body: string, diff: string, stats: Stats, n: nat)
    requires Packs(TierSections(oldFiles, newFiles, Tier1), TierSections(oldFiles, newFiles, Tier2),
                   TierSections(oldFiles, newFiles, Tier3), limit, body, stats, n)
    requires diff == body + if stats.truncated then MARKER else ""
    ensures PackedDiff(oldFiles, newFiles, limit, diff, stats, n)
  {
  }

  lemma WalkOrderIrrelevant(paths: seq<string>, oldFiles: Files, newFiles: Files)
    requires multiset(paths) == multiset(oldFiles.Keys + newFiles.Keys)
    ensures forall t :: Sort(OfTier(paths, t)) == TierPaths(oldFiles, newFiles, t)
  {
    forall t
      ensures Sort(OfTier(paths, t)) == TierPaths(oldFiles, newFiles, t)
    {
      OrderIrrelevant(paths, SetToSeq(oldFiles.Keys + newFiles.Keys), t);
    }
  }

  lemma TiersInOrder(s1: seq<FileSection>, s2: seq<FileSection>, s3: seq<FileSection>)
    ensures var all := s1 + s2 + s3;
            TierAt(all, 0, s1) && TierAt(all, |s1|, s2) && TierAt(all, |s1| + |s2|, s3)
  {
  }

  lemma Start(all: seq<FileSection>, limit: int)
    ensures Fits(all, 0, limit) && Holds("", Stats(0, 0, 0, false), all, 0)
  {
  }

  lemma PassComplete(all: seq<FileSection>, from: nat, to: nat, limit: int, exception: bool, n: nat)
    requires Passed(all, from, to, limit, exception, n, false)
    ensures n == to <= |all| && Fits(all, n, limit)
  {
  }

  lemma HeldBytes(out: string, stats: Stats, all: seq<FileSection>, n: nat)
    requires Holds(out, stats, all, n)
    ensures n <= |all| && |out| == Used(all, n)
  {
  }

  /** The three passes together meet the budget rule. */
  lemma ThreePasses(all: seq<FileSection>, c1: nat, c2: nat, limit: int, n: nat, t: bool, pass: nat, used: nat)
    requires c1 <= c2 <= |all|
    requires pass == 1 ==> t && Passed(all, 0, c1, limit, true, n, t)
    requires pass > 1 ==> Passed(all, 0, c1, limit, true, c1, false)
    requires pass == 2 ==> Passed(all, c1, c2, limit, false, n, t) && (t || used >= DocsBudget(limit))
    requires pass > 2 ==> Passed(all, c1, c2, limit, false, c2, false) && used < DocsBudget(limit)
    requires pass == 3 ==> Passed(all, c2, |all|, limit, false, n, t)
    requires 1 <= pass <= 3 && (pass > 1 && !(pass == 2 && t) ==> used == Used(all, c2))
    ensures Budgeted(all, c1, c2, limit, n, t)
  {
  }

  method EmitTiers(tier1: seq<string>, tier2: seq<string>, tier3: seq<string>,
                   oldFiles: Files, newFiles: Files, sizeLimit: int)
      returns (diff: string, stats: Stats)
    ensures Packs(Changed(tier1, |tier1|, oldFiles, newFiles), Changed(tier2, |tier2|, oldFiles, newFiles),
                  Changed(tier3, |tier3|, oldFiles, newFiles), sizeLimit, diff, stats, stats.filesChanged)
  {
    hide SectionOf, Budgeted, Changed, Passed, Holds, Fits, Used;
    ghost var s1, s2, s3 := Changed(tier1, |tier1|, oldFiles, newFiles), Changed(tier2, |tier2|, oldFiles, newFiles),
        Changed(tier3, |tier3|, oldFiles, newFiles);
    ghost var all, c1, c2 := s1 + s2 + s3, |s1|, |s1| + |s2|;
    TiersInOrder(s1, s2, s3);
    Start(all, sizeLimit);
    diff, stats := "", Stats(0, 0, 0, false);
    // Pass 1: code
    diff, stats := EmitTier(tier1, oldFiles, newFiles, sizeLimit, true, diff, stats, all, 0);
    if stats.truncated {
      ThreePasses(all, c1, c2, sizeLimit, stats.filesChanged, true, 1, 0);
      return;
    }
    PassComplete(all, 0, c1, sizeLimit, true, stats.filesChanged);
    // Pass 2: CI configuration, unless the output is already cut
    diff, stats := EmitTier(tier2, oldFiles, newFiles, sizeLimit, false, diff, stats, all, stats.filesChanged);
    if stats.truncated {
      ThreePasses(all, c1, c2, sizeLimit, stats.filesChanged, true, 2, 0);
      return;
    }
    PassComplete(all, c1, c2, sizeLimit, false, stats.filesChanged);
    HeldBytes(diff, stats, all, stats.filesChanged);
    // Pass 3: documentation, if nothing was cut and less than 80% of the budget is used
    if |diff| < DocsBudget(sizeLimit) {
      ghost var used := |diff|;
      diff, stats := EmitTier(tier3, oldFiles, newFiles, sizeLimit, false, diff, stats, all, stats.filesChanged);
      ThreePasses(all, c1, c2, sizeLimit, stats.filesChanged, stats.truncated, 3, used);
    } else {
      ThreePasses(all, c1, c2, sizeLimit, stats.filesChanged, false, 2, |diff|);
    }
  }

  // ----- what the contract of GenerateDiff determines -----

  /** `Budgeted` leaves no choice: how many files are emitted, and the flag, are determined. */
  lemma BudgetedIsUnique(all: seq<FileSection>, c1: nat, c2: nat, limit: int, n: nat, t: bool, n': nat, t': bool)
    requires c1 <= c2 <= |all|
    requires Budgeted(all, c1, c2, limit, n, t) && Budgeted(all, c1, c2, limit, n', t')
    ensures n == n' && t == t'
  {
    if n < n' <= |all| {
      BodyGrows(all, n + 1, n');
    }
    if n' < n <= |all| {
      BodyGrows(all, n' + 1, n);
    }
  }

  /** What a reader of an untruncated diff may conclude: no changed code or configuration
      file is missing, and documentation is missing only if 80% of the budget was used up. */
  lemma UntruncatedIsComplete(all: seq<FileSection>, c1: nat, c2: nat, limit: int, n: nat)
    requires c1 <= c2 <= |all| && Budgeted(all, c1, c2, limit, n, false)
    ensures c2 <= n <= |all|
    ensures n < |all| ==> n == c2 && Used(all, n) >= DocsBudget(limit)
    ensures n > 0 ==> Used(all, n) <= limit
  {
  }

  /** Exactly when files are left out without the diff being marked as truncated: there is
      documentation, all code and configuration fits, and 80% of the limit is used by it. */
  lemma LeftOutUnmarkedIff(all: seq<FileSection>, c1: nat, c2: nat, limit: int, n: nat, truncated: bool)
    requires c1 <= c2 <= |all| && Budgeted(all, c1, c2, limit, n, truncated)
    ensures !truncated && n < |all| <==>
              c2 < |all| && !Full(all, 0, c1, limit) && Fits(all, c2, limit) && Used(all, c2) >= DocsBudget(limit)
  {
    if n < c2 {
      BodyGrows(all, n + 1, c2);
    }
  }

  function LineTotal(all: seq<FileSection>, n: nat, files: Files): nat
    requires n <= |all|
  {
    if n == 0 then 0 else LineTotal(all, n - 1, files) + LineCount(files, all[n - 1].path)
  }

  /** Each listed section is that of its path, and says the file changed. */
  ghost predicate Genuine(all: seq<FileSection>, oldFiles: Files, newFiles: Files) {
    forall i :: 0 <= i < |all| ==>
      all[i].section == SectionOf(all[i].path, oldFiles, newFiles) && all[i].section.changed == 1
  }

  lemma {:induction false} ChangedAreGenuine(paths: seq<string>, i: nat, oldFiles: Files, newFiles: Files)
    requires i <= |paths|
    ensures Genuine(Changed(paths, i, oldFiles, newFiles), oldFiles, newFiles)
  {
    hide SectionOf, LineCount, Content;
    if i > 0 {
      ChangedAreGenuine(paths, i - 1, oldFiles, newFiles);
      SectionBalance(paths[i - 1], oldFiles, newFiles);
    }
  }

  lemma {:induction false} GenuineTotals(all: seq<FileSection>, n: nat, oldFiles: Files, newFiles: Files)
    requires n <= |all| && Genuine(all, oldFiles, newFiles)
    ensures AddedTotal(all, n) - RemovedTotal(all, n) == LineTotal(all, n, newFiles) - LineTotal(all, n, oldFiles)
  {
    hide SectionOf, LineCount, Content;
    if n > 0 {
      GenuineTotals(all, n - 1, oldFiles, newFiles);
      SectionBalance(all[n - 1].path, oldFiles, newFiles);
    }
  }

  /** Over any number of emitted files, the reported totals account for the change in line counts. */
  lemma TotalsBalance(oldFiles: Files, newFiles: Files, limit: int, diff: string, stats: Stats, n: nat)
    requires PackedDiff(oldFiles, newFiles, limit, diff, stats, n)
    ensures var all := AllSections(oldFiles, newFiles);
            n <= |all| && stats.linesAdded - stats.linesRemoved
                == LineTotal(all, n, newFiles) - LineTotal(all, n, oldFiles)
  {
    hide PackedDiff, AllSections, Genuine, AddedTotal, RemovedTotal, LineTotal;
    SectionsGenuine(oldFiles, newFiles);
    PackedTotals(oldFiles, newFiles, limit, diff, stats, n);
    GenuineTotals(AllSections(oldFiles, newFiles), n, oldFiles, newFiles);
  }

  lemma PackedTotals(oldFiles: Files, newFiles: Files, limit: int, diff: string, stats: Stats, n: nat)
    requires PackedDiff(oldFiles, newFiles, limit, diff, stats, n)
    ensures var all := AllSections(oldFiles, newFiles);
            n <= |all| && stats.filesChanged == n && stats.linesAdded == AddedTotal(all, n)
            && stats.linesRemoved == RemovedTotal(all, n)
  {
    hide TierSections, Budgeted;
  }

  lemma SectionsGenuine(oldFiles: Files, newFiles: Files)
    ensures Genuine(AllSections(oldFiles, newFiles), oldFiles, newFiles)
  {
    hide TierSections, Genuine;
    var s1, s2, s3 := TierSections(oldFiles, newFiles, Tier1), TierSections(oldFiles, newFiles, Tier2),
        TierSections(oldFiles, newFiles, Tier3);
    TierIsGenuine(oldFiles, newFiles, Tier1);
    TierIsGenuine(oldFiles, newFiles, Tier2);
    TierIsGenuine(oldFiles, newFiles, Tier3);
    GenuineConcat(s1, s2, oldFiles, newFiles);
    GenuineConcat(s1 + s2, s3, oldFiles, newFiles);
  }

  lemma TierIsGenuine(oldFiles: Files, newFiles: Files, t: Tier)
    ensures Genuine(TierSections(oldFiles, newFiles, t), oldFiles, newFiles)
  {
    hide Genuine;
    ChangedAreGenuine(TierPaths(oldFiles, newFiles, t), |TierPaths(oldFiles, newFiles, t)|, oldFiles, newFiles);
  }

  lemma GenuineConcat(a: seq<FileSection>, b: seq<FileSection>, oldFiles: Files, newFiles: Files)
    requires Genuine(a, oldFiles, newFiles) && Genuine(b, oldFiles, newFiles)
    ensures Genuine(a + b, oldFiles, newFiles)
  {
    hide SectionOf;
  }

  ghost predicate Lists(ss: seq<FileSection>, p: string) {
    exists i :: 0 <= i < |ss| && ss[i].path == p
  }

  lemma {:induction false} ChangedLists(paths: seq<string>, i: nat, oldFiles: Files, newFiles: Files, p: string)
    requires i <= |paths|
    ensures Lists(Changed(paths, i, oldFiles, newFiles), p) <==>
              p in paths[..i] && Content(oldFiles, p) != Content(newFiles, p)
  {
    hide SectionOf, LineCount, Content;
    if i > 0 {
      ChangedLists(paths, i - 1, oldFiles, newFiles, p);
      SectionBalance(paths[i - 1], oldFiles, newFiles);
      assert paths[..i] == paths[..i - 1] + [paths[i - 1]];
      var before, ss := Changed(paths, i - 1, oldFiles, newFiles), Changed(paths, i, oldFiles, newFiles);
      if k :| 0 <= k < |before| && before[k].path == p {
        assert ss[k].path == p;
      }
      if |ss| > |before| {
        assert ss[|before|].path == paths[i - 1];
      }
      if k :| 0 <= k < |ss| && ss[k].path == p {
        assert k < |before| ==> before[k].path == p;
      }
    }
  }

  /** A tier's list holds exactly the paths of that tier, in either release, whose
      contents differ (a missing file reads as empty). */
  lemma TierListsChangedFiles(oldFiles: Files, newFiles: Files, t: Tier, p: string)
    ensures Lists(TierSections(oldFiles, newFiles, t), p) <==>
            (p in oldFiles || p in newFiles) && Classify(p) == t && Content(oldFiles, p) != Content(newFiles, p)
  {
    var paths := TierPaths(oldFiles, newFiles, t);
    ChangedLists(paths, |paths|, oldFiles, newFiles, p);
    assert paths[..|paths|] == paths;
    var walked := SetToSeq(oldFiles.Keys + newFiles.Keys);
    SortIsSorted(OfTier(walked, t));
    OfTierContents(walked, t);
    assert p in paths <==> p in multiset(paths);
    assert p in multiset(oldFiles.Keys + newFiles.Keys) <==> p in oldFiles || p in newFiles;
  }
}
