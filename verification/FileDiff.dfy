/** The diff of one file between two releases, and what its printed text tells. */
module FileDiff {
  import opened EditScript
  import opened Hunks
  import opened HunkShape
  import opened Patch
  import opened Text

  const CONTEXT_LINES: nat := 3
  const MAX_CELLS: nat := 10_000_000

  type Files = map<string, string>

  /** A Go map read: a missing key reads as the empty string. */
  function Content(files: Files, path: string): string {
    if path in files then files[path] else ""
  }

  function Lines(content: string): seq<string> {
    Split(content, '\n')
  }

  datatype Section = Section(text: string, changed: nat, added: nat, removed: nat)

  const UNCHANGED := Section("", 0, 0, 0)

  function Prefixed(c: char, lines: seq<string>): seq<string> {
    seq(|lines|, i requires 0 <= i < |lines| => [c] + lines[i])
  }

  function Texts(lines: seq<DiffLine>): seq<string> {
    seq(|lines|, i requires 0 <= i < |lines| => lines[i].text)
  }

  /** "start,count" and what follows; printed starts count from one. */
  function Range(start: nat, count: nat, rest: string): string {
    Decimal(start + 1) + ("," + (Decimal(count) + rest))
  }

  function Header(h: Hunk): string {
    "@@ -" + Range(h.oldStart, h.oldCount, " +" + Range(h.newStart, h.newCount, " @@"))
  }

  function HunkLines(hs: seq<Hunk>): seq<string>
  {
    if hs == [] then []
    else HunkLines(hs[..|hs| - 1]) + [Header(hs[|hs| - 1])] + Texts(hs[|hs| - 1].lines)
  }

  function KindCount(lines: seq<DiffLine>, kind: OpKind): nat {
    if lines == [] then 0
    else KindCount(lines[..|lines| - 1], kind) + if lines[|lines| - 1].kind == kind then 1 else 0
  }

  function HunkCount(hs: seq<Hunk>, kind: OpKind): nat {
    if hs == [] then 0 else HunkCount(hs[..|hs| - 1], kind) + KindCount(hs[|hs| - 1].lines, kind)
  }

  ghost function FileHunks(oldContent: string, newContent: string): seq<Hunk> {
    UnifiedHunks(Lines(oldContent), Lines(newContent), CONTEXT_LINES, MAX_CELLS)
  }

  /** The printed lines of a changed file's section; a blank line ends it. */
  ghost function SectionLines(path: string, oldFiles: Files, newFiles: Files): seq<string> {
    var o, n := Content(oldFiles, path), Content(newFiles, path);
    if path !in oldFiles then ["--- /dev/null", "+++ b/" + path] + Prefixed('+', Lines(n)) + [""]
    else if path !in newFiles then ["--- a/" + path, "+++ /dev/null"] + Prefixed('-', Lines(o)) + [""]
    else ["--- a/" + path, "+++ b/" + path] + HunkLines(FileHunks(o, n)) + [""]
  }

  ghost function SectionOf(path: string, oldFiles: Files, newFiles: Files): Section {
    var o, n := Content(oldFiles, path), Content(newFiles, path);
    if o == n then UNCHANGED
    else
      var text := Unlines(SectionLines(path, oldFiles, newFiles));
      if path !in oldFiles then Section(text, 1, |Lines(n)|, 0)
      else if path !in newFiles then Section(text, 1, 0, |Lines(o)|)
      else Section(text, 1, HunkCount(FileHunks(o, n), Add), HunkCount(FileHunks(o, n), Del))
  }

  // ----- counting changes through the hunks -----

  lemma {:induction false} PrintedCount(ops: seq<EditOp>, kind: OpKind)
    ensures KindCount(PrintAll(ops), kind) == Count(ops, kind)
  {
    if ops != [] {
      var lines, rest := PrintAll(ops), ops[..|ops| - 1];
      assert lines[..|lines| - 1] == PrintAll(rest);
      PrintedCount(rest, kind);
    }
  }

  lemma {:induction false} NoneOfKind(ops: seq<EditOp>, kind: OpKind)
    requires forall i :: 0 <= i < |ops| ==> ops[i].kind != kind
    ensures Count(ops, kind) == 0
  {
    if ops != [] {
      NoneOfKind(ops[..|ops| - 1], kind);
    }
  }

  lemma HunkCountSnoc(hs: seq<Hunk>, h: Hunk, kind: OpKind)
    ensures HunkCount(hs + [h], kind) == HunkCount(hs, kind) + KindCount(h.lines, kind)
  {
    assert (hs + [h])[..|hs + [h]| - 1] == hs;
  }

  lemma CountThreeParts(ops: seq<EditOp>, b: Block, n: nat, kind: OpKind)
    requires b.lo <= b.hi <= n <= |ops|
    ensures Count(ops[..n], kind) == Count(ops[..b.lo], kind) + Count(ops[b.lo..b.hi], kind) + Count(ops[b.hi..n], kind)
  {
    assert ops[..n] == ops[..b.lo] + ops[b.lo..b.hi] + ops[b.hi..n];
    CountConcat(ops[..b.lo], ops[b.lo..b.hi], kind);
    CountConcat(ops[..b.lo] + ops[b.lo..b.hi], ops[b.hi..n], kind);
  }

  ghost predicate CoveredBelow(ops: seq<EditOp>, bs: seq<Block>, n: nat)
    requires n <= |ops|
  {
    forall i :: 0 <= i < n && ops[i].kind != Ctx ==> Covered(bs, i)
  }

  lemma DropLastBlock(ops: seq<EditOp>, bs: seq<Block>, n: nat)
    requires bs != [] && n <= |ops| && OrderedBlocks(bs, 0, n) && CoveredBelow(ops, bs, n)
    ensures OrderedBlocks(bs[..|bs| - 1], 0, bs[|bs| - 1].lo)
    ensures CoveredBelow(ops, bs[..|bs| - 1], bs[|bs| - 1].lo)
    ensures forall i :: bs[|bs| - 1].hi <= i < n ==> ops[i].kind == Ctx
  {
    var b, rest := bs[|bs| - 1], bs[..|bs| - 1];
    forall i | 0 <= i < b.lo && ops[i].kind != Ctx
      ensures Covered(rest, i)
    {
      var k :| 0 <= k < |bs| && bs[k].lo <= i < bs[k].hi;
      assert rest[k] == bs[k];
    }
  }

  lemma NothingToCount(ops: seq<EditOp>, n: nat, kind: OpKind)
    requires n <= |ops| && kind != Ctx && CoveredBelow(ops, [], n)
    ensures Count(ops[..n], kind) == 0 && HunkCount([], kind) == 0
  {
    NoneOfKind(ops[..n], kind);
  }

  /** The hunks of blocks that cover the changes print each change once. */
  lemma {:induction false} BlocksCount(ops: seq<EditOp>, bs: seq<Block>, n: nat, kind: OpKind)
    requires n <= |ops| && OrderedBlocks(bs, 0, n) && kind != Ctx && CoveredBelow(ops, bs, n)
    ensures HunkCount(HunksAt(ops, bs), kind) == Count(ops[..n], kind)
    decreases |bs|
  {
    hide Count, HunkCount, HunksAt, CoveredBelow, KindCount, PrintAll, OldSide, NewSide;
    if bs == [] {
      NothingToCount(ops, n, kind);
      NoHunks(ops);
    } else {
      var b, rest := bs[|bs| - 1], bs[..|bs| - 1];
      DropLastBlock(ops, bs, n);
      BlocksCount(ops, rest, b.lo, kind);
      NoneOfKind(ops[b.hi..n], kind);
      CountThreeParts(ops, b, n, kind);
      PrintedCount(ops[b.lo..b.hi], kind);
      HunksSnoc(ops, rest, b);
      HunkCountSnoc(HunksAt(ops, rest), HunkAt(ops, b), kind);
      assert rest + [b] == bs;
    }
  }

  /** The +/- totals of a modified file are those of its edit script. */
  lemma HunksCountChanges(a: seq<string>, b: seq<string>, c: nat, maxCells: nat)
    ensures HunkCount(UnifiedHunks(a, b, c, maxCells), Add) == Count(Script(a, b, maxCells), Add)
    ensures HunkCount(UnifiedHunks(a, b, c, maxCells), Del) == Count(Script(a, b, maxCells), Del)
  {
    var ops := Script(a, b, maxCells);
    KeptBlocks(ops, c);
    assert ops[..|ops|] == ops;
    BlocksCount(ops, Runs(Mask(ops, c), |ops|), |ops|, Add);
    BlocksCount(ops, Runs(Mask(ops, c), |ops|), |ops|, Del);
  }

  /** Number of lines a side of the comparison has; a missing file has none. */
  function LineCount(files: Files, path: string): nat {
    if path in files then |Lines(files[path])| else 0
  }

  /** A file is reported exactly when its two contents differ, and then the added and
      removed lines account for the change in its line count. */
  lemma SectionBalance(path: string, oldFiles: Files, newFiles: Files)
    ensures var s := SectionOf(path, oldFiles, newFiles);
            && s.changed == (if Content(oldFiles, path) != Content(newFiles, path) then 1 else 0)
            && (s.changed == 0 ==> s == UNCHANGED)
            && (s.changed == 1 ==> s.added + s.removed > 0
                                   && s.added - s.removed == LineCount(newFiles, path) - LineCount(oldFiles, path))
  {
    var o, n := Content(oldFiles, path), Content(newFiles, path);
    if o != n && path in oldFiles && path in newFiles {
      var a, b := Lines(o), Lines(n);
      JoinSplit(o, '\n');
      JoinSplit(n, '\n');
      HunksCountChanges(a, b, CONTEXT_LINES, MAX_CELLS);
      ChangesIffDifferent(a, b, MAX_CELLS);
      ScriptTurns(a, b, MAX_CELLS);
      SideLengths(Script(a, b, MAX_CELLS));
    }
  }

  /** A modified file is reported exactly if its content differs, an added or removed one
      exactly if it is not empty. */
  lemma ReportedIff(path: string, oldFiles: Files, newFiles: Files)
    ensures var s := SectionOf(path, oldFiles, newFiles);
            && (s.changed == 0 <==> s == UNCHANGED)
            && (s.changed == 1 <==>
                  if path in oldFiles && path in newFiles then oldFiles[path] != newFiles[path]
                  else (path in oldFiles && oldFiles[path] != "") || (path in newFiles && newFiles[path] != ""))
  {
    hide Lines, HunkCount, Unlines, SectionLines, FileHunks;
  }

  /** What the two counts of a changed file are. Added and removed files count all their
      lines. A modified file counts the lines outside a longest common subsequence, or, when
      the table would have more than ten million cells, all lines of both sides. */
  lemma SectionCounts(path: string, oldFiles: Files, newFiles: Files)
    requires Content(oldFiles, path) != Content(newFiles, path)
    ensures var s := SectionOf(path, oldFiles, newFiles);
            var a, b := Lines(Content(oldFiles, path)), Lines(Content(newFiles, path));
            && s.changed == 1
            && (path !in oldFiles ==> s.added == |b| && s.removed == 0)
            && (path !in newFiles ==> s.added == 0 && s.removed == |a|)
            && (path in oldFiles && path in newFiles && |a| * |b| <= 10_000_000 ==>
                  s.added == |b| - Lcs(a, b) && s.removed == |a| - Lcs(a, b))
            && (path in oldFiles && path in newFiles && |a| * |b| > 10_000_000 ==>
                  s.added == |b| && s.removed == |a|)
  {
    hide Lcs, Count, HunkCount, Unlines, SectionLines;
    if path in oldFiles && path in newFiles {
      var a, b := Lines(Content(oldFiles, path)), Lines(Content(newFiles, path));
      HunksCountChanges(a, b, CONTEXT_LINES, MAX_CELLS);
      ScriptCounts(a, b, MAX_CELLS);
    }
  }

  // ----- the hunks of a file -----

  /** The first change of a hunk is its line p, and the last one has r lines after it. */
  ghost predicate ContextAround(h: Hunk, p: nat, r: nat) {
    && p + r < |h.lines| && h.lines[p].kind != Ctx && h.lines[|h.lines| - 1 - r].kind != Ctx
    && (forall i :: 0 <= i < p ==> h.lines[i].kind == Ctx)
    && (forall i :: |h.lines| - r <= i < |h.lines| ==> h.lines[i].kind == Ctx)
  }

  /** Every hunk of a modified file shows three lines before its first change, fewer only if
      it begins at the first line of both versions, and three after its last change, fewer
      only if it ends at the last line of both. */
  lemma ThreeLinesOfContext(o: string, n: string, k: nat) returns (p: nat, r: nat)
    requires k < |FileHunks(o, n)|
    ensures var h := FileHunks(o, n)[k];
            && ContextAround(h, p, r) && p <= 3 && r <= 3
            && (p < 3 ==> h.oldStart == 0 && h.newStart == 0)
            && (r < 3 ==> h.oldStart + h.oldCount == |Lines(o)| && h.newStart + h.newCount == |Lines(n)|)
  {
    hide UnifiedHunks, Lines, ContextAround, Script, Mask, Runs, Turns;
    HunksOf(Lines(o), Lines(n), CONTEXT_LINES, MAX_CELLS);
    p, r := ContextOfHunk(Script(Lines(o), Lines(n), MAX_CELLS), CONTEXT_LINES, k, Lines(o), Lines(n));
  }

  lemma HunksOf(a: seq<string>, b: seq<string>, c: nat, maxCells: nat)
    ensures var ops := Script(a, b, maxCells);
            Turns(ops, a, b) && UnifiedHunks(a, b, c, maxCells) == HunksAt(ops, Runs(Mask(ops, c), |ops|))
  {
    ScriptTurns(a, b, maxCells);
  }

  lemma ContextOfHunk(ops: seq<EditOp>, c: nat, k: nat, o: seq<string>, n: seq<string>) returns (p: nat, r: nat)
    requires Turns(ops, o, n) && k < |Runs(Mask(ops, c), |ops|)|
    ensures var h := HunksAt(ops, Runs(Mask(ops, c), |ops|))[k];
            && ContextAround(h, p, r) && p <= c && r <= c
            && (p < c ==> h.oldStart == 0 && h.newStart == 0)
            && (r < c ==> h.oldStart + h.oldCount == |o| && h.newStart + h.newCount == |n|)
  {
    hide Mask, Runs, HunkAt, ContextAround, Turns;
    var b := Runs(Mask(ops, c), |ops|)[k];
    var first, last := ExactContext(ops, c, k);
    p, r := first - b.lo, b.hi - 1 - last;
    BlockContext(ops, b, first, last);
    BlockAtEdges(ops, b, o, n);
  }

  lemma BlockContext(ops: seq<EditOp>, b: Block, first: nat, last: nat)
    requires b.lo <= first <= last < b.hi <= |ops| && ops[first].kind != Ctx && ops[last].kind != Ctx
    requires forall i :: b.lo <= i < b.hi && ChangeAt(ops, i) ==> first <= i <= last
    ensures ContextAround(HunkAt(ops, b), first - b.lo, b.hi - 1 - last)
  {
    hide OldSide, NewSide;
    var lines := HunkAt(ops, b).lines;
    forall i | 0 <= i < |lines|
      ensures lines[i].kind == ops[b.lo + i].kind && (lines[i].kind != Ctx ==> first - b.lo <= i <= last - b.lo)
    {
      assert ops[b.lo..b.hi][i] == ops[b.lo + i];
      assert ops[b.lo + i].kind != Ctx ==> ChangeAt(ops, b.lo + i);
    }
  }

  lemma BlockAtEdges(ops: seq<EditOp>, b: Block, o: seq<string>, n: seq<string>)
    requires b.lo <= b.hi <= |ops| && Turns(ops, o, n)
    ensures b.lo == 0 ==> HunkAt(ops, b).oldStart == 0 && HunkAt(ops, b).newStart == 0
    ensures b.hi == |ops| ==> HunkAt(ops, b).oldStart + HunkAt(ops, b).oldCount == |o|
    ensures b.hi == |ops| ==> HunkAt(ops, b).newStart + HunkAt(ops, b).newCount == |n|
  {
    hide PrintAll;
    if b.hi == |ops| {
      assert ops == ops[..b.lo] + ops[b.lo..b.hi];
      SidesConcat(ops[..b.lo], ops[b.lo..b.hi]);
    }
  }

  // ----- the source's loops -----

  method WritePrefixed(fb: string, c: char, lines: seq<string>) returns (fb': string)
    ensures fb' == fb + Unlines(Prefixed(c, lines))
  {
    fb' := fb;
    for i := 0 to |lines|
      invariant fb' == fb + Unlines(Prefixed(c, lines[..i]))
    {
      fb' := fb' + ([c] + lines[i] + "\n");
      var next := Prefixed(c, lines[..i + 1]);
      assert next[..|next| - 1] == Prefixed(c, lines[..i]);
    }
    assert lines[..|lines|] == lines;
  }

  lemma UnlinesSnoc(lines: seq<string>, line: string)
    ensures Unlines(lines + [line]) == Unlines(lines) + line + "\n"
  {
    assert (lines + [line])[..|lines + [line]| - 1] == lines;
  }

  /** The strings a builder has received, one write after another. */
  lemma Appended(a: string, b: string, c: string)
    ensures (a + b) + c == a + (b + c)
  {
  }

  function HunkText(h: Hunk, n: nat): string
    requires n <= |h.lines|
  {
    Unlines([Header(h)] + Texts(h.lines[..n]))
  }

  lemma NextLine(h: Hunk, i: nat)
    requires i < |h.lines|
    ensures HunkText(h, i + 1) == HunkText(h, i) + (h.lines[i].text + "\n")
    ensures forall kind :: KindCount(h.lines[..i + 1], kind)
                           == KindCount(h.lines[..i], kind) + if h.lines[i].kind == kind then 1 else 0
  {
    assert h.lines[..i + 1][..i] == h.lines[..i];
    assert [Header(h)] + Texts(h.lines[..i + 1]) == [Header(h)] + Texts(h.lines[..i]) + [h.lines[i].text];
    UnlinesSnoc([Header(h)] + Texts(h.lines[..i]), h.lines[i].text);
    Appended(HunkText(h, i), h.lines[i].text, "\n");
  }

  lemma NoLines(h: Hunk)
    ensures HunkText(h, 0) == Header(h) + "\n"
    ensures h.lines[..|h.lines|] == h.lines
  {
    assert [Header(h)] + Texts(h.lines[..0]) == [Header(h)] + [];
    UnlinesCons(Header(h), []);
  }

  method WriteHunk(fb: string, h: Hunk, added: nat, removed: nat) returns (fb': string, added': nat, removed': nat)
    ensures fb' == fb + HunkText(h, |h.lines|)
    ensures added' == added + KindCount(h.lines, Add) && removed' == removed + KindCount(h.lines, Del)
  {
    NoLines(h);
    fb' := fb + (Header(h) + "\n");
    added', removed' := added, removed;
    for i := 0 to |h.lines|
      invariant fb' == fb + HunkText(h, i)
      invariant added' == added + KindCount(h.lines[..i], Add)
      invariant removed' == removed + KindCount(h.lines[..i], Del)
    {
      NextLine(h, i);
      Appended(fb, HunkText(h, i), h.lines[i].text + "\n");
      Appended(fb', h.lines[i].text, "\n");
      fb' := fb' + h.lines[i].text;
      fb' := fb' + "\n";
      match h.lines[i].kind {
        case Add => added' := added' + 1;
        case Del => removed' := removed' + 1;
        case Ctx =>
      }
    }
  }

  lemma NextHunk(hunks: seq<Hunk>, i: nat)
    requires i < |hunks|
    ensures Unlines(HunkLines(hunks[..i + 1])) == Unlines(HunkLines(hunks[..i])) + HunkText(hunks[i], |hunks[i].lines|)
    ensures forall kind :: HunkCount(hunks[..i + 1], kind)
              == HunkCount(hunks[..i], kind) + KindCount(hunks[i].lines, kind)
  {
    assert hunks[..i + 1][..i] == hunks[..i];
    assert hunks[i].lines[..|hunks[i].lines|] == hunks[i].lines;
    var before, more := HunkLines(hunks[..i]), [Header(hunks[i])] + Texts(hunks[i].lines);
    assert HunkLines(hunks[..i + 1]) == before + more;
    UnlinesConcat(before, more);
  }

  method WriteHunks(fb: string, hunks: seq<Hunk>) returns (fb': string, added: nat, removed: nat)
    ensures fb' == fb + Unlines(HunkLines(hunks))
    ensures added == HunkCount(hunks, Add) && removed == HunkCount(hunks, Del)
  {
    fb', added, removed := fb, 0, 0;
    for i := 0 to |hunks|
      invariant fb' == fb + Unlines(HunkLines(hunks[..i]))
      invariant added == HunkCount(hunks[..i], Add) && removed == HunkCount(hunks[..i], Del)
    {
      fb', added, removed := WriteHunk(fb', hunks[i], added, removed);
      NextHunk(hunks, i);
      Appended(fb, Unlines(HunkLines(hunks[..i])), HunkText(hunks[i], |hunks[i].lines|));
    }
    assert hunks[..|hunks|] == hunks;
  }

  lemma FramedText(l0: string, l1: string, body: seq<string>)
    ensures Unlines([l0, l1] + body + [""]) == l0 + "\n" + l1 + "\n" + Unlines(body) + "\n"
  {
    UnlinesSnoc([l0, l1] + body, "");
    UnlinesConcat([l0, l1], body);
    UnlinesCons(l0, [l1]);
    UnlinesCons(l1, []);
    assert [l0] + [l1] == [l0, l1];
    assert [l1] + [] == [l1];
  }

  method GenerateFileDiff(path: string, oldFiles: Files, newFiles: Files) returns (r: Section)
    ensures r == SectionOf(path, oldFiles, newFiles)
  {
    var oldContent, newContent := Content(oldFiles, path), Content(newFiles, path);
    if oldContent == newContent {
      return UNCHANGED;
    }
    SectionBalance(path, oldFiles, newFiles);
    var fb, added, removed := "", 0, 0;
    if path !in oldFiles {
      var lines := Lines(newContent);
      FramedText("--- /dev/null", "+++ b/" + path, Prefixed('+', lines));
      fb := "--- /dev/null" + "\n" + ("+++ b/" + path) + "\n";
      added := added + |lines|;
      fb := WritePrefixed(fb, '+', lines);
    } else if path !in newFiles {
      var lines := Lines(oldContent);
      FramedText("--- a/" + path, "+++ /dev/null", Prefixed('-', lines));
      fb := ("--- a/" + path) + "\n" + "+++ /dev/null" + "\n";
      removed := removed + |lines|;
      fb := WritePrefixed(fb, '-', lines);
    } else {
      FramedText("--- a/" + path, "+++ b/" + path, HunkLines(FileHunks(oldContent, newContent)));
      fb := ("--- a/" + path) + "\n" + ("+++ b/" + path) + "\n";
      var hunks := ComputeUnifiedHunks(Lines(oldContent), Lines(newContent), CONTEXT_LINES, MAX_CELLS);
      fb, added, removed := WriteHunks(fb, hunks);
    }
    fb := fb + "\n";
    if added == 0 && removed == 0 {
      return UNCHANGED;
    }
    return Section(fb, 1, added, removed);
  }
}
