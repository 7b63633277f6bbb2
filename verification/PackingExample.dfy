/** Two releases for which a changed documentation file is left out of a diff that is not
    marked as truncated. */
module PackingExample {
  import opened Text
  import opened FileDiff
  import opened Filter
  import opened Packing

  const BEFORE: Files := map[]
  const AFTER: Files := map["m.go" := "x", "a.md" := "y"]
  const LIMIT := 29
  const SHOWN: string := "--- /dev/null\n+++ b/m.go\n+x\n\n"

  lemma {:induction false} SplitWhole(s: string, sep: char)
    requires sep !in s
    ensures Split(s, sep) == [s]
  {
    if s != [] {
      assert forall c :: c in s[1..] ==> c in s;
      SplitWhole(s[1..], sep);
      assert [s[0]] + s[1..] == s && s[0] in s;
    }
  }

  lemma LowerCase(s: string)
    requires forall c :: c in s ==> !('A' <= c <= 'Z')
    ensures ToLower(s) == s
  {
    assert forall i :: 0 <= i < |s| ==> s[i] in s;
  }

  /** A plain file name is classified by its extension. */
  lemma ByExtension(path: string, ext: string)
    requires path != [] && '/' !in path && !Tier4Dir(path) && !Tier2Dir(path)
    requires forall c :: c in path ==> !('A' <= c <= 'Z')
    requires Ext(path) == ext && (forall c :: c in ext ==> !('A' <= c <= 'Z')) && !Tier4Basename(path)
               && !Tier4Extension(ext)
    ensures Classify(path) == if Tier3Extension(ext) then Tier3 else Tier1
  {
    hide Tier4Dir, Tier2Dir, Tier4Basename, Tier4Extension, Tier3Extension, Ext;
    SplitWhole(path, '/');
    assert path[|path| - 1] in path;
    assert Base(path) == path;
    assert DirectoryTier([path], 1) == Tier1;
    assert DirectoryTier([path], 0) == Tier1;
    LowerCase(path);
    LowerCase(ext);
  }

  lemma CodeIsTier1()
    ensures Classify("m.go") == Tier1
  {
    hide Tier4Dir, Tier2Dir, Tier4Basename, Tier4Extension, Tier3Extension, Classify;
    assert Ext("m.") == "." && "m.g"[..2] == "m." && "m.go"[..3] == "m.g";
    assert Ext("m.g") == ".g";
    GoIsInNoTable();
    ByExtension("m.go", ".go");
  }

  lemma GoIsInNoTable()
    ensures !Tier4Dir("m.go") && !Tier2Dir("m.go") && !Tier4Basename("m.go") && !Tier4Extension(".go")
              && !Tier3Extension(".go")
  {
  }

  lemma MdIsInOneTable()
    ensures !Tier4Dir("a.md") && !Tier2Dir("a.md") && !Tier4Basename("a.md") && !Tier4Extension(".md")
              && Tier3Extension(".md")
  {
  }

  lemma NotesAreTier3()
    ensures Classify("a.md") == Tier3
  {
    hide Tier4Dir, Tier2Dir, Tier4Basename, Tier4Extension, Tier3Extension, Classify;
    assert Ext("a.") == "." && "a.m"[..2] == "a." && "a.md"[..3] == "a.m";
    assert Ext("a.m") == ".m";
    MdIsInOneTable();
    ByExtension("a.md", ".md");
  }

  /** What the three tiers list. */
  lemma TierLists()
    ensures TierPaths(BEFORE, AFTER, Tier1) == ["m.go"] && TierPaths(BEFORE, AFTER, Tier2) == []
    ensures TierPaths(BEFORE, AFTER, Tier3) == ["a.md"]
  {
    hide Classify, Sort, OfTier, TierPaths;
    CodeIsTier1();
    NotesAreTier3();
    BothPaths();
    WalkOrderIrrelevant(["m.go", "a.md"], BEFORE, AFTER);
    TwoPaths("m.go", "a.md", Tier1);
    TwoPaths("m.go", "a.md", Tier2);
    TwoPaths("m.go", "a.md", Tier3);
    SortOne("m.go");
    SortOne("a.md");
    SortNone();
    var paths := ["m.go", "a.md"];
    assert OfTier(paths, Tier1) == ["m.go"] && OfTier(paths, Tier2) == [] && OfTier(paths, Tier3) == ["a.md"];
    assert TierPaths(BEFORE, AFTER, Tier1) == Sort(OfTier(paths, Tier1));
    assert TierPaths(BEFORE, AFTER, Tier2) == Sort(OfTier(paths, Tier2));
    assert TierPaths(BEFORE, AFTER, Tier3) == Sort(OfTier(paths, Tier3));
  }

  lemma BothPaths()
    ensures multiset(["m.go", "a.md"]) == multiset(BEFORE.Keys + AFTER.Keys)
  {
    assert BEFORE.Keys + AFTER.Keys == {"m.go", "a.md"};
  }

  lemma SortNone()
    ensures Sort([]) == []
  {
  }

  lemma SortOne(p: string)
    ensures Sort([p]) == [p]
  {
    assert [p][1..] == [];
  }

  lemma TwoPaths(p: string, q: string, t: Tier)
    ensures OfTier([p, q], t) == (if Classify(p) == t then [p] else []) + (if Classify(q) == t then [q] else [])
  {
    hide Classify;
    assert [p, q][..1] == [p] && [p][..0] == [];
    assert OfTier([p], t) == if Classify(p) == t then [p] else [];
  }

  /** The section of a file that only the new release has, with one line in it. */
  lemma AddedSection(path: string, line: string)
    requires path !in BEFORE && path in AFTER && AFTER[path] == line && line != "" && '\n' !in line
    ensures SectionOf(path, BEFORE, AFTER) == Section("--- /dev/null\n+++ b/" + path + "\n+" + line + "\n\n", 1, 1, 0)
  {
    hide Unlines, Split, FileHunks;
    SplitWhole(line, '\n');
    var h := ["--- /dev/null", "+++ b/" + path];
    assert SectionLines(path, BEFORE, AFTER) == h + ["+" + line] + [""] by {
      assert Prefixed('+', [line]) == ["+" + line];
    }
    FourLines("--- /dev/null", "+++ b/" + path, "+" + line, "");
    assert h + ["+" + line] + [""] == ["--- /dev/null", "+++ b/" + path, "+" + line, ""];
    assert Unlines(SectionLines(path, BEFORE, AFTER)) == "--- /dev/null\n+++ b/" + path + "\n+" + line + "\n\n";
  }

  lemma FourLines(a: string, b: string, c: string, d: string)
    ensures Unlines([a, b, c, d]) == a + "\n" + b + "\n" + c + "\n" + d + "\n"
  {
    assert [a, b, c, d][..3] == [a, b, c] && [a, b, c][..2] == [a, b] && [a, b][..1] == [a] && [a][..0] == [];
    assert Unlines([a]) == a + "\n";
    assert Unlines([a, b]) == a + "\n" + b + "\n";
    assert Unlines([a, b, c]) == a + "\n" + b + "\n" + c + "\n";
  }

  lemma OneChanged(path: string)
    requires SectionOf(path, BEFORE, AFTER).changed == 1
    ensures Changed([path], 1, BEFORE, AFTER) == [FileSection(path, SectionOf(path, BEFORE, AFTER))]
  {
    hide SectionOf;
    assert Changed([path], 0, BEFORE, AFTER) == [];
  }

  function Code(): FileSection { FileSection("m.go", Section(SHOWN, 1, 1, 0)) }

  function Notes(): FileSection { FileSection("a.md", Section("--- /dev/null\n+++ b/a.md\n+y\n\n", 1, 1, 0)) }

  lemma Sections()
    ensures TierSections(BEFORE, AFTER, Tier1) == [Code()] && TierSections(BEFORE, AFTER, Tier2) == []
    ensures TierSections(BEFORE, AFTER, Tier3) == [Notes()]
  {
    hide TierPaths, SectionOf;
    TierLists();
    AddedSection("m.go", "x");
    AddedSection("a.md", "y");
    assert "--- /dev/null\n+++ b/" + "m.go" + "\n+" + "x" + "\n\n" == SHOWN;
    assert "--- /dev/null\n+++ b/" + "a.md" + "\n+" + "y" + "\n\n" == Notes().section.text;
    OneChanged("m.go");
    OneChanged("a.md");
  }

  lemma BodyOfOne()
    ensures Body([Code(), Notes()], 1) == SHOWN && AddedTotal([Code(), Notes()], 1) == 1
              && RemovedTotal([Code(), Notes()], 1) == 0
  {
    var all := [Code(), Notes()];
    assert Body(all, 0) == "" && AddedTotal(all, 0) == 0 && RemovedTotal(all, 0) == 0;
  }

  /** The diff shows the code file and nothing else, unmarked, although "a.md" changed: that is
      a result the packing contract allows, and the only one. */
  lemma NotesLeftOutUnmarked(diff: string, stats: Stats, n: nat)
    ensures PackedDiff(BEFORE, AFTER, LIMIT, SHOWN, Stats(1, 1, 0, false), 1)
    ensures PackedDiff(BEFORE, AFTER, LIMIT, diff, stats, n) ==>
              diff == SHOWN && stats == Stats(1, 1, 0, false) && n == 1
    ensures Lists(TierSections(BEFORE, AFTER, Tier3), "a.md") && !Lists([Code()], "a.md")
  {
    hide TierSections, Changed;
    Sections();
    var all := [Code()] + [] + [Notes()];
    assert all == [Code(), Notes()];
    BodyOfOne();
    assert Holds(SHOWN, Stats(1, 1, 0, false), all, 1);
    assert Budgeted(all, 1, 1, LIMIT, 1, false);
    assert SHOWN + "" == SHOWN;
    Reported(BEFORE, AFTER, LIMIT, SHOWN, SHOWN, Stats(1, 1, 0, false), 1);
    if PackedDiff(BEFORE, AFTER, LIMIT, diff, stats, n) {
      var body :|
        && Packs([Code()], [], [Notes()], LIMIT, body, stats, n)
            && diff == body + if stats.truncated then MARKER else "";
      BudgetedIsUnique(all, 1, 1, LIMIT, n, stats.truncated, 1, false);
      assert body + "" == body;
    }
    assert [Notes()][0].path == "a.md";
  }
}
