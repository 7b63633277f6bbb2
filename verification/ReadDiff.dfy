/** Reading a whole diff back: from the text alone, every file it shows and whether it was cut. */
module ReadDiff {
  import opened EditScript
  import opened Options
  import opened Hunks
  import opened Patch
  import opened Text
  import opened FileDiff
  import opened ReadPatch
  import opened Packing

  /** What a section shows of its file. */
  datatype Entry =
    | AddedFile(path: string, lines: seq<string>)
    | RemovedFile(path: string, lines: seq<string>)
    | ModifiedFile(path: string, hunks: seq<Hunk>)

  // ----- the reader -----

  /** The leading lines that start with c, without it, and the rest. */
  function ReadPrefixed(c: char, lines: seq<string>): (seq<string>, seq<string>) {
    if lines == [] || lines[0] == [] || lines[0][0] != c then ([], lines)
    else
      var (more, rest) := ReadPrefixed(c, lines[1..]);
      ([lines[0][1..]] + more, rest)
  }

  /** All lines of an added or removed file, up to the blank line that ends its section. */
  function ReadWhole(c: char, lines: seq<string>): Option<(seq<string>, seq<string>)> {
    var (content, rest) := ReadPrefixed(c, lines);
    if rest == [] || rest[0] != "" then None else Some((content, rest[1..]))
  }

  function ReadEntry(lines: seq<string>): Option<(Entry, seq<string>)>
    requires |lines| >= 2
  {
    if lines[0] == "--- /dev/null" then
      var path :- Expect(lines[1], "+++ b/");
      var (content, rest) :- ReadWhole('+', lines[2..]);
      Some((AddedFile(path, content), rest))
    else
      var path :- Expect(lines[0], "--- a/");
      if lines[1] == "+++ /dev/null" then
        var (content, rest) :- ReadWhole('-', lines[2..]);
        Some((RemovedFile(path, content), rest))
      else if lines[1] == "+++ b/" + path then
        var (hunks, rest) :- ReadHunks(lines[2..]);
        Some((ModifiedFile(path, hunks), rest))
      else None
  }

  lemma {:induction false} PrefixedConsumes(c: char, lines: seq<string>)
    ensures |ReadPrefixed(c, lines).1| <= |lines|
  {
    if lines != [] && lines[0] != [] && lines[0][0] == c {
      PrefixedConsumes(c, lines[1..]);
    }
  }

  lemma EntryConsumes(lines: seq<string>)
    requires |lines| >= 2
    ensures ReadEntry(lines).Some? ==> |ReadEntry(lines).value.1| < |lines|
  {
    PrefixedConsumes('+', lines[2..]);
    PrefixedConsumes('-', lines[2..]);
    HunksConsume(lines[2..]);
  }

  function ReadEntries(lines: seq<string>): Option<(seq<Entry>, bool)>
    decreases |lines|
  {
    if lines == [""] then Some(([], false))
    else if lines == ["", MARKER_LINE, ""] then Some(([], true))
    else if |lines| < 2 then None
    else
      var (entry, rest) :- ReadEntry(lines);
      EntryConsumes(lines);
      var (more, truncated) :- ReadEntries(rest);
      Some(([entry] + more, truncated))
  }

  /** The files a diff shows, in order, and whether it carries the truncation marker. */
  function ReadDiff(text: string): Option<(seq<Entry>, bool)> {
    ReadEntries(Split(text, '\n'))
  }

  // ----- what is to be read -----

  ghost function EntryOf(path: string, oldFiles: Files, newFiles: Files): Entry {
    var o, n := Content(oldFiles, path), Content(newFiles, path);
    if path !in oldFiles then AddedFile(path, Lines(n))
    else if path !in newFiles then RemovedFile(path, Lines(o))
    else ModifiedFile(path, FileHunks(o, n))
  }

  ghost function Entries(paths: seq<string>, oldFiles: Files, newFiles: Files): seq<Entry> {
    if paths == [] then [] else [EntryOf(paths[0], oldFiles, newFiles)] + Entries(paths[1..], oldFiles, newFiles)
  }

  ghost function AllLines(paths: seq<string>, oldFiles: Files, newFiles: Files): seq<string> {
    if paths == [] then [] else SectionLines(paths[0], oldFiles, newFiles) + AllLines(paths[1..], oldFiles, newFiles)
  }

  /** What an entry is worth: together with the old content it gives the new one, and back. */
  lemma EntryRebuilds(path: string, oldFiles: Files, newFiles: Files)
    ensures var o, n := Content(oldFiles, path), Content(newFiles, path);
            match EntryOf(path, oldFiles, newFiles)
            case AddedFile(p, lines) => p == path && path !in oldFiles && lines != [] && Join(lines, '\n') == n
            case RemovedFile(p, lines) => p == path && path !in newFiles && lines != [] && Join(lines, '\n') == o
            case ModifiedFile(p, hunks) =>
              && p == path && Apply(Lines(o), hunks, 0, 0) == Some(Lines(n))
              && Apply(Lines(n), FlipHunks(hunks), 0, 0) == Some(Lines(o))
              && Join(Lines(n), '\n') == n && Join(Lines(o), '\n') == o
  {
    var o, n := Content(oldFiles, path), Content(newFiles, path);
    JoinSplit(o, '\n');
    JoinSplit(n, '\n');
    PatchForward(Lines(o), Lines(n), CONTEXT_LINES, MAX_CELLS);
    PatchBackward(Lines(o), Lines(n), CONTEXT_LINES, MAX_CELLS);
  }

  // ----- reading one section -----

  lemma {:induction false} PrefixedRead(c: char, lines: seq<string>, more: seq<string>)
    ensures ReadPrefixed(c, Prefixed(c, lines) + ([""] + more)) == (lines, [""] + more)
  {
    var all := Prefixed(c, lines) + ([""] + more);
    if lines == [] {
      assert all == [""] + more;
    } else {
      PrefixedRead(c, lines[1..], more);
      assert all[0] == [c] + lines[0];
      assert all[1..] == Prefixed(c, lines[1..]) + ([""] + more);
      assert [lines[0]] + lines[1..] == lines;
    }
  }

  lemma WholeRead(c: char, lines: seq<string>, more: seq<string>)
    ensures ReadWhole(c, Prefixed(c, lines) + ([""] + more)) == Some((lines, more))
  {
    PrefixedRead(c, lines, more);
    assert ([""] + more)[1..] == more;
  }

  /** A section's lines give its entry, and what follows them is left. */
  lemma EntryRead(path: string, oldFiles: Files, newFiles: Files, more: seq<string>)
    ensures |SectionLines(path, oldFiles, newFiles) + more| >= 2
    ensures ReadEntry(SectionLines(path, oldFiles, newFiles) + more) == Some((EntryOf(path, oldFiles, newFiles), more))
  {
    hide Prefixed, ReadWhole, HunkLines, ReadHunks, FileHunks, Split;
    var o, n := Content(oldFiles, path), Content(newFiles, path);
    if path !in oldFiles {
      WholeRead('+', Lines(n), more);
      TokenRead("+++ b/", path);
      AfterHeads("--- /dev/null", "+++ b/" + path, Prefixed('+', Lines(n)), more);
    } else if path !in newFiles {
      WholeRead('-', Lines(o), more);
      TokenRead("--- a/", path);
      AfterHeads("--- a/" + path, "+++ /dev/null", Prefixed('-', Lines(o)), more);
      NotDevNull(path);
    } else {
      FileHunkLines(o, n);
      TokenRead("--- a/", path);
      AfterHeads("--- a/" + path, "+++ b/" + path, HunkLines(FileHunks(o, n)), more);
      NotDevNull(path);
    }
  }

  lemma NotDevNull(path: string)
    ensures "--- a/" + path != "--- /dev/null" && "+++ b/" + path != "+++ /dev/null"
  {
    assert ("--- a/" + path)[4] == 'a' && ("+++ b/" + path)[4] == 'b';
  }

  lemma AfterHeads(a: string, b: string, body: seq<string>, more: seq<string>)
    ensures var lines := [a, b] + body + [""] + more;
            |lines| >= 2 && lines[0] == a && lines[1] == b && lines[2..] == body + ([""] + more)
  {
  }

  // ----- reading all of them -----

  lemma {:induction false} EntriesRead(paths: seq<string>, oldFiles: Files, newFiles: Files, truncated: bool)
    ensures ReadEntries(AllLines(paths, oldFiles, newFiles) + if truncated then ["", MARKER_LINE, ""] else [""])
            == Some((Entries(paths, oldFiles, newFiles), truncated))
    decreases |paths|
  {
    hide SectionLines, EntryOf, ReadEntry;
    var end := if truncated then ["", MARKER_LINE, ""] else [""];
    if paths == [] {
      assert AllLines(paths, oldFiles, newFiles) + end == end;
    } else {
      var more := AllLines(paths[1..], oldFiles, newFiles) + end;
      EntriesRead(paths[1..], oldFiles, newFiles, truncated);
      EntryRead(paths[0], oldFiles, newFiles, more);
      FirstIsNotBlank(paths[0], oldFiles, newFiles, more);
      assert AllLines(paths, oldFiles, newFiles) + end == SectionLines(paths[0], oldFiles, newFiles) + more;
    }
  }

  lemma FirstIsNotBlank(path: string, oldFiles: Files, newFiles: Files, more: seq<string>)
    ensures (SectionLines(path, oldFiles, newFiles) + more)[0] != ""
  {
  }

  // ----- from the text to the lines -----

  lemma SectionOneLine(path: string, oldFiles: Files, newFiles: Files)
    requires '\n' !in path
    ensures OneLineEach(SectionLines(path, oldFiles, newFiles))
  {
    hide HunkLines, FileHunks, Split;
    var o, n := Content(oldFiles, path), Content(newFiles, path);
    JoinSplit(o, '\n');
    JoinSplit(n, '\n');
    FileHunkLines(o, n);
    PrefixedOneLine('+', Lines(n));
    PrefixedOneLine('-', Lines(o));
    HeadsAreOneLine(path);
  }

  lemma PrefixedOneLine(c: char, lines: seq<string>)
    requires c != '\n' && OneLineEach(lines)
    ensures OneLineEach(Prefixed(c, lines))
  {
    forall l | l in Prefixed(c, lines)
      ensures '\n' !in l
    {
      var i :| 0 <= i < |lines| && l == [c] + lines[i];
      assert lines[i] in lines;
    }
  }

  lemma HeadsAreOneLine(path: string)
    requires '\n' !in path
    ensures OneLineEach(["--- /dev/null", "+++ b/" + path]) && OneLineEach(["--- a/" + path, "+++ /dev/null"])
    ensures OneLineEach(["--- a/" + path, "+++ b/" + path])
  {
  }

  lemma {:induction false} AllOneLine(paths: seq<string>, oldFiles: Files, newFiles: Files)
    requires forall p :: p in paths ==> '\n' !in p
    ensures OneLineEach(AllLines(paths, oldFiles, newFiles))
  {
    hide SectionLines;
    if paths != [] {
      SectionOneLine(paths[0], oldFiles, newFiles);
      AllOneLine(paths[1..], oldFiles, newFiles);
      OneLineConcat(SectionLines(paths[0], oldFiles, newFiles), AllLines(paths[1..], oldFiles, newFiles));
    }
  }

  lemma {:induction false} AllLinesSnoc(paths: seq<string>, p: string, oldFiles: Files, newFiles: Files)
    ensures AllLines(paths + [p], oldFiles, newFiles)
              == AllLines(paths, oldFiles, newFiles) + SectionLines(p, oldFiles, newFiles)
    ensures Entries(paths + [p], oldFiles, newFiles)
              == Entries(paths, oldFiles, newFiles) + [EntryOf(p, oldFiles, newFiles)]
  {
    hide SectionLines, EntryOf;
    if paths == [] {
      assert [] + [p] == [p] && [p][1..] == [];
    } else {
      AllLinesSnoc(paths[1..], p, oldFiles, newFiles);
      assert (paths + [p])[1..] == paths[1..] + [p];
    }
  }

  function Paths(all: seq<FileSection>, n: nat): seq<string>
    requires n <= |all|
  {
    seq(n, i requires 0 <= i < n => all[i].path)
  }

  lemma {:induction false} BodyIsLines(all: seq<FileSection>, n: nat, oldFiles: Files, newFiles: Files)
    requires n <= |all| && Genuine(all, oldFiles, newFiles)
    ensures Body(all, n) == Unlines(AllLines(Paths(all, n), oldFiles, newFiles))
  {
    hide SectionOf, SectionLines;
    if n > 0 {
      var last := all[n - 1];
      BodyIsLines(all, n - 1, oldFiles, newFiles);
      assert Paths(all, n) == Paths(all, n - 1) + [last.path];
      AllLinesSnoc(Paths(all, n - 1), last.path, oldFiles, newFiles);
      ChangedText(last.path, oldFiles, newFiles);
      UnlinesConcat(AllLines(Paths(all, n - 1), oldFiles, newFiles), SectionLines(last.path, oldFiles, newFiles));
    }
  }

  lemma ChangedText(path: string, oldFiles: Files, newFiles: Files)
    ensures SectionOf(path, oldFiles, newFiles).changed == 1 ==>
              SectionOf(path, oldFiles, newFiles).text == Unlines(SectionLines(path, oldFiles, newFiles))
  {
  }

  lemma TwoLines(a: string, b: string)
    ensures Unlines([a, b]) == a + "\n" + b + "\n"
  {
    assert [a, b][..1] == [a] && [a][..0] == [];
    assert Unlines([a]) == a + "\n";
  }

  lemma BlankThenLine(line: string)
    ensures Unlines(["", line]) == "\n" + line + "\n"
  {
    TwoLines("", line);
    assert "" + "\n" + line + "\n" == "\n" + line + "\n";
  }

  lemma MarkerLines()
    ensures MARKER == Unlines(["", MARKER_LINE])
  {
    hide Unlines;
    BlankThenLine(MARKER_LINE);
  }

  lemma MarkerIsOneLine()
    ensures '\n' !in MARKER_LINE
  {
    assert '\n' !in "--- DIFF TRUNCATED (" && '\n' !in "exceeded size limit, ";
    assert '\n' !in "more files not shown - " && '\n' !in "recommend manual audit) ---";
  }

  /** Splitting the text of a diff gives its lines. */
  lemma SplitDiff(lines: seq<string>, truncated: bool)
    requires OneLineEach(lines)
    ensures Split(Unlines(lines) + (if truncated then MARKER else ""), '\n')
            == lines + if truncated then ["", MARKER_LINE, ""] else [""]
  {
    hide Split, Unlines;
    if truncated {
      MarkerLines();
      MarkerIsOneLine();
      UnlinesConcat(lines, ["", MARKER_LINE]);
      OneLineConcat(lines, ["", MARKER_LINE]);
      SplitUnlines(lines + ["", MARKER_LINE]);
      assert lines + ["", MARKER_LINE] + [""] == lines + ["", MARKER_LINE, ""];
    } else {
      SplitUnlines(lines);
      assert Unlines(lines) + "" == Unlines(lines);
    }
  }

  /** From the text of a diff alone, whatever the files contain: the files it shows, in
      order, each as added, removed or modified with its lines or hunks, and whether it was
      cut. Only paths with a newline in them are beyond the format. */
  lemma DiffReadsBack(oldFiles: Files, newFiles: Files, limit: int, diff: string, stats: Stats, n: nat)
    requires PackedDiff(oldFiles, newFiles, limit, diff, stats, n)
    requires forall p :: p in oldFiles || p in newFiles ==> '\n' !in p
    ensures n <= |AllSections(oldFiles, newFiles)|
    ensures ReadDiff(diff) == Some((Entries(Paths(AllSections(oldFiles, newFiles), n), oldFiles, newFiles),
              stats.truncated))
  {
    hide PackedDiff, AllSections, Split, AllLines, Entries, ReadEntries, Genuine, Unlines;
    var all := AllSections(oldFiles, newFiles);
    BodyShown(oldFiles, newFiles, limit, diff, stats, n);
    SectionsGenuine(oldFiles, newFiles);
    BodyIsLines(all, n, oldFiles, newFiles);
    ListedPaths(oldFiles, newFiles, n);
    AllOneLine(Paths(all, n), oldFiles, newFiles);
    SplitDiff(AllLines(Paths(all, n), oldFiles, newFiles), stats.truncated);
    EntriesRead(Paths(all, n), oldFiles, newFiles, stats.truncated);
  }

  lemma BodyShown(oldFiles: Files, newFiles: Files, limit: int, diff: string, stats: Stats, n: nat)
    requires PackedDiff(oldFiles, newFiles, limit, diff, stats, n)
    ensures n <= |AllSections(oldFiles, newFiles)|
    ensures diff == Body(AllSections(oldFiles, newFiles), n) + if stats.truncated then MARKER else ""
  {
    hide TierSections, Budgeted;
  }

  lemma ListedPaths(oldFiles: Files, newFiles: Files, n: nat)
    requires n <= |AllSections(oldFiles, newFiles)|
    requires forall p :: p in oldFiles || p in newFiles ==> '\n' !in p
    ensures forall p :: p in Paths(AllSections(oldFiles, newFiles), n) ==> '\n' !in p
  {
    hide SectionOf;
    SectionsGenuine(oldFiles, newFiles);
    var all := AllSections(oldFiles, newFiles);
    forall i | 0 <= i < n
      ensures '\n' !in all[i].path
    {
      ChangedIsThere(all[i].path, oldFiles, newFiles);
    }
  }

  lemma ChangedIsThere(path: string, oldFiles: Files, newFiles: Files)
    ensures SectionOf(path, oldFiles, newFiles).changed == 1 ==> path in oldFiles || path in newFiles
  {
    hide Unlines, SectionLines, HunkCount, FileHunks;
  }
}
