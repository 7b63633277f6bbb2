/** Which tier a changed file belongs to, and the sorted lists the packer consumes. */
module Filter {
  import opened Text

  datatype Tier = Tier1 | Tier2 | Tier3 | Tier4

  /** Media, binary documents and source maps. */
  predicate Tier4Extension(ext: string) {
    ext in {".png", ".jpg", ".jpeg", ".gif", ".ico", ".webp", ".bmp", ".tiff",
            ".woff", ".woff2", ".ttf", ".eot", ".otf", ".mp3", ".mp4", ".wav", ".avi", ".mov",
            ".pdf", ".doc", ".docx", ".xls", ".xlsx", ".ppt", ".pptx", ".map"}
  }

  /** Licences, notices, changelogs, lock files and inert dot-files. */
  predicate Tier4Basename(base: string) {
    base in {"license", "license.md", "license.txt", "license-mit", "license-apache", "licence", "licence.md",
             "notice", "notice.md", "authors", "authors.md", "contributors", "contributors.md",
             "changelog.md", "changelog.txt", "changes.md", "changes.txt", "history.md", "history.txt",
             "package-lock.json", "yarn.lock", "pnpm-lock.yaml", "pipfile.lock", "poetry.lock",
             "composer.lock", "cargo.lock", "gemfile.lock",
             ".gitignore", ".gitattributes", ".editorconfig",
             ".prettierrc", ".prettierignore", ".prettierrc.json", ".prettierrc.yml", ".prettierrc.yaml",
             ".eslintrc", ".eslintrc.json", ".eslintrc.yml", ".eslintrc.yaml", ".eslintignore",
             ".npmignore", ".npmrc", ".dockerignore", ".golangci.yml", ".golangci.yaml",
             ".gitpod.yml", ".codeclimate.yml", ".travis.yml", ".stylelintrc", ".stylelintrc.json",
             ".babelrc", ".babelrc.json", ".browserslistrc", ".nvmrc", ".node-version", ".python-version",
             ".ruby-version", ".flowconfig", ".watchmanconfig", ".yamllint.yml", ".yamllint.yaml",
             ".markdownlint.json", ".markdownlint.yml", ".markdownlintignore",
             ".commitlintrc.json", ".commitlintrc.yml", ".lintstagedrc", ".lintstagedrc.json", ".lintstagedrc.yml",
             ".releaserc", ".releaserc.json", ".releaserc.yml", ".coveragerc", ".nycrc", ".nycrc.json",
             ".dependabot.yml", "codecov.yml", ".codecov.yml", "renovate.json", ".renovaterc", ".renovaterc.json"}
  }

  predicate Tier4Dir(seg: string) {
    seg in {"__pycache__", "node_modules", ".git"}
  }

  predicate Tier2Dir(seg: string) {
    seg in {".github", ".circleci", ".gitlab", ".travis", ".buildkite", ".jenkins", ".gitea", ".forgejo",
            ".woodpecker", ".drone"}
  }

  predicate Tier3Extension(ext: string) {
    ext in {".md", ".txt", ".rst", ".adoc", ".log"}
  }

  /** strings.ToLower on ASCII letters. */
  function ToLower(s: string): string {
    seq(|s|, i requires 0 <= i < |s| => if 'A' <= s[i] <= 'Z' then s[i] - 'A' + 'a' else s[i])
  }

  function TrimSlashes(path: string): string {
    if path != [] && path[|path| - 1] == '/' then TrimSlashes(path[..|path| - 1]) else path
  }

  /** filepath.Base: the last element, with trailing slashes removed first. */
  function Base(path: string): string {
    if path == [] then "."
    else
      var trimmed := TrimSlashes(path);
      if trimmed == [] then "/"
      else
        var pieces := Split(trimmed, '/');
        pieces[|pieces| - 1]
  }

  /** filepath.Ext: from the last dot of the last element on, or nothing. */
  function Ext(path: string): string {
    if path == [] || path[|path| - 1] == '/' then ""
    else if path[|path| - 1] == '.' then "."
    else
      var rest := Ext(path[..|path| - 1]);
      if rest == "" then "" else rest + [path[|path| - 1]]
  }

  /** The first directory component that is in one of the two tables decides. */
  function DirectoryTier(segments: seq<string>, i: nat): (t: Tier)
    requires i <= |segments|
    ensures t in {Tier1, Tier2, Tier4}
    decreases |segments| - i
  {
    if i == |segments| then Tier1
    else if Tier4Dir(segments[i]) then Tier4
    else if Tier2Dir(segments[i]) then Tier2
    else DirectoryTier(segments, i + 1)
  }

  function Segments(path: string): seq<string> {
    Split(path, '/')
  }

  function DirTier(path: string): Tier {
    DirectoryTier(Segments(path), 0)
  }

  function Classify(path: string): Tier {
    var byDir := DirTier(path);
    if byDir != Tier1 then byDir
    else if Tier4Basename(ToLower(Base(path))) then Tier4
    else if Tier4Extension(ToLower(Ext(path))) then Tier4
    else if Tier3Extension(ToLower(Ext(path))) then Tier3
    else Tier1
  }

  method ClassifyFile(path: string, ecosystem: string) returns (t: Tier)
    ensures t == Classify(path)
  {
    var segments := Segments(path);
    for i := 0 to |segments|
      invariant DirTier(path) == DirectoryTier(segments, i)
    {
      if Tier4Dir(segments[i]) {
        return Tier4;
      }
      if Tier2Dir(segments[i]) {
        return Tier2;
      }
    }
    var base := ToLower(Base(path));
    if Tier4Basename(base) {
      return Tier4;
    }
    var ext := ToLower(Ext(path));
    if Tier4Extension(ext) {
      return Tier4;
    }
    if Tier3Extension(ext) {
      return Tier3;
    }
    return Tier1;
  }

  /** Component i is a CI directory, and no excluded directory comes before it. */
  ghost predicate CiDirectoryAt(segs: seq<string>, from: nat, i: nat) {
    from <= i < |segs| && Tier2Dir(segs[i]) && forall j :: from <= j <= i ==> !Tier4Dir(segs[j])
  }

  /** Directories beat names: a path is CI configuration exactly when a CI directory
      appears in it before any excluded directory. */
  lemma Tier2IffCiDirectoryFirst(path: string)
    ensures Classify(path) == Tier2 <==> exists i: nat :: CiDirectoryAt(Segments(path), 0, i)
  {
    var segs := Segments(path);
    if Classify(path) == Tier2 {
      assert DirectoryTier(segs, 0) == Tier2;
      var i := CiWitness(segs, 0);
      assert CiDirectoryAt(Segments(path), 0, i);
    }
    if i: nat :| CiDirectoryAt(Segments(path), 0, i) {
      CiDecides(segs, 0, i);
    }
  }

  lemma {:induction false} CiWitness(segs: seq<string>, from: nat) returns (i: nat)
    requires from <= |segs| && DirectoryTier(segs, from) == Tier2
    ensures CiDirectoryAt(segs, from, i)
    decreases |segs| - from
  {
    if Tier2Dir(segs[from]) {
      i := from;
    } else {
      i := CiWitness(segs, from + 1);
    }
  }

  lemma {:induction false} CiDecides(segs: seq<string>, from: nat, i: nat)
    requires CiDirectoryAt(segs, from, i)
    ensures DirectoryTier(segs, from) == Tier2
    decreases i - from
  {
    assert !Tier4Dir(segs[from]);
    if from < i && !Tier2Dir(segs[from]) {
      CiDecides(segs, from + 1, i);
    }
  }

  // ----- sorted tiers -----

  /** Byte order, as sort.Strings compares. */
  predicate LessEq(a: string, b: string) {
    if a == [] then true
    else if b == [] then false
    else a[0] < b[0] || (a[0] == b[0] && LessEq(a[1..], b[1..]))
  }

  lemma {:induction false} LessEqTotal(a: string, b: string)
    ensures LessEq(a, b) || LessEq(b, a)
    ensures LessEq(a, b) && LessEq(b, a) ==> a == b
  {
    if a != [] && b != [] && a[0] == b[0] {
      LessEqTotal(a[1..], b[1..]);
      assert [a[0]] + a[1..] == a && [b[0]] + b[1..] == b;
    }
  }

  lemma {:induction false} LessEqTransitive(a: string, b: string, c: string)
    requires LessEq(a, b) && LessEq(b, c)
    ensures LessEq(a, c)
  {
    if a != [] && b != [] && c != [] && a[0] == b[0] && b[0] == c[0] {
      LessEqTransitive(a[1..], b[1..], c[1..]);
    }
  }

  /** The two strings agree on their first k bytes, and byte k of the first is the smaller one. */
  ghost predicate SmallerAt(a: string, b: string, k: nat) {
    k < |a| && k < |b| && a[..k] == b[..k] && a[k] < b[k]
  }

  /** A string comes before its extensions, and before what has a greater byte at the first difference. */
  ghost predicate BytewiseUpTo(a: string, b: string) {
    a <= b || exists k: nat :: SmallerAt(a, b, k)
  }

  lemma {:induction false} LessEqIsByteOrder(a: string, b: string)
    ensures LessEq(a, b) <==> BytewiseUpTo(a, b)
  {
    if a != [] && b != [] {
      LessEqIsByteOrder(a[1..], b[1..]);
      if a[0] == b[0] {
        SameFirstByte(a, b);
      } else if a[0] < b[0] {
        assert SmallerAt(a, b, 0);
      } else {
        GreaterFirstByte(a, b);
      }
    }
  }

  lemma GreaterFirstByte(a: string, b: string)
    requires a != [] && b != [] && a[0] > b[0]
    ensures !BytewiseUpTo(a, b)
  {
    forall k: nat
      ensures !SmallerAt(a, b, k)
    {
      if 0 < k <= |a| && k <= |b| {
        assert a[..k][0] == a[0] && b[..k][0] == b[0];
      }
    }
  }

  lemma SameFirstByte(a: string, b: string)
    requires a != [] && b != [] && a[0] == b[0]
    ensures BytewiseUpTo(a, b) <==> BytewiseUpTo(a[1..], b[1..])
  {
    if k: nat :| SmallerAt(a[1..], b[1..], k) {
      assert a[..k + 1] == [a[0]] + a[1..][..k] && b[..k + 1] == [b[0]] + b[1..][..k];
      assert SmallerAt(a, b, k + 1);
    }
    if k: nat :| SmallerAt(a, b, k) {
      assert k > 0 && a[1..][..k - 1] == a[..k][1..] && b[1..][..k - 1] == b[..k][1..];
      assert SmallerAt(a[1..], b[1..], k - 1);
    }
    if a[1..] <= b[1..] {
      assert a == [a[0]] + a[1..] && b == [b[0]] + b[1..];
    }
  }

  ghost predicate Sorted(s: seq<string>) {
    forall i, j :: 0 <= i < j < |s| ==> LessEq(s[i], s[j])
  }

  function Insert(x: string, s: seq<string>): seq<string> {
    if s == [] then [x]
    else if LessEq(x, s[0]) then [x] + s
    else [s[0]] + Insert(x, s[1..])
  }

  /** sort.Strings. */
  function Sort(s: seq<string>): seq<string> {
    if s == [] then [] else Insert(s[0], Sort(s[1..]))
  }

  lemma {:induction false} InsertSorted(x: string, s: seq<string>)
    requires Sorted(s)
    ensures Sorted(Insert(x, s)) && multiset(Insert(x, s)) == multiset(s) + multiset{x}
  {
    if s == [] {
    } else if LessEq(x, s[0]) {
      forall j | 0 <= j < |s|
        ensures LessEq(x, s[j])
      {
        LessEqTotal(s[0], s[0]);
        LessEqTransitive(x, s[0], s[j]);
      }
      assert multiset([x] + s) == multiset{x} + multiset(s);
    } else {
      var tail := Insert(x, s[1..]);
      InsertSorted(x, s[1..]);
      assert s == [s[0]] + s[1..];
      LessEqTotal(x, s[0]);
      forall j | 0 <= j < |tail|
        ensures LessEq(s[0], tail[j])
      {
        assert tail[j] in multiset(tail);
        if tail[j] != x {
          assert tail[j] in multiset(s[1..]);
          var k :| 0 <= k < |s[1..]| && s[1..][k] == tail[j];
          assert LessEq(s[0], s[k + 1]);
        }
      }
    }
  }

  lemma {:induction false} SortIsSorted(s: seq<string>)
    ensures Sorted(Sort(s)) && multiset(Sort(s)) == multiset(s)
  {
    if s != [] {
      SortIsSorted(s[1..]);
      InsertSorted(s[0], Sort(s[1..]));
      assert s == [s[0]] + s[1..];
    }
  }

  /** In ascending byte order, with the same contents. */
  ghost predicate AscendingArrangement(s: seq<string>, contents: multiset<string>) {
    multiset(s) == contents && forall i, j :: 0 <= i < j < |s| ==> BytewiseUpTo(s[i], s[j])
  }

  lemma SortAscends(s: seq<string>)
    ensures AscendingArrangement(Sort(s), multiset(s))
  {
    hide BytewiseUpTo;
    SortIsSorted(s);
    forall i, j | 0 <= i < j < |Sort(s)|
      ensures BytewiseUpTo(Sort(s)[i], Sort(s)[j])
    {
      LessEqIsByteOrder(Sort(s)[i], Sort(s)[j]);
    }
  }

  lemma LeastIsFirst(s: seq<string>, x: string)
    requires Sorted(s) && x in multiset(s)
    ensures LessEq(s[0], x)
  {
    var i :| 0 <= i < |s| && s[i] == x;
    LessEqTotal(x, x);
  }

  lemma TailContents(s: seq<string>)
    requires s != []
    ensures multiset(s[1..]) == multiset(s) - multiset{s[0]}
  {
    assert s == [s[0]] + s[1..];
  }

  /** A sorted list is determined by what it contains. */
  lemma {:induction false} SortedUnique(s: seq<string>, t: seq<string>)
    requires Sorted(s) && Sorted(t) && multiset(s) == multiset(t)
    ensures s == t
  {
    assert |multiset(s)| == |multiset(t)|;
    if s != [] {
      assert s[0] in multiset(s) && t[0] in multiset(t);
      LeastIsFirst(s, t[0]);
      LeastIsFirst(t, s[0]);
      LessEqTotal(s[0], t[0]);
      TailContents(s);
      TailContents(t);
      SortedUnique(s[1..], t[1..]);
      assert s == [s[0]] + s[1..] && t == [t[0]] + t[1..];
    }
  }

  lemma SortDependsOnContents(s: seq<string>, t: seq<string>)
    requires multiset(s) == multiset(t)
    ensures Sort(s) == Sort(t)
  {
    SortIsSorted(s);
    SortIsSorted(t);
    SortedUnique(Sort(s), Sort(t));
  }

  function OfTier(paths: seq<string>, t: Tier): seq<string> {
    if paths == [] then []
    else OfTier(paths[..|paths| - 1], t) + if Classify(paths[|paths| - 1]) == t then [paths[|paths| - 1]] else []
  }

  lemma {:induction false} OfTierContents(paths: seq<string>, t: Tier)
    ensures forall p :: multiset(OfTier(paths, t))[p] == if Classify(p) == t then multiset(paths)[p] else 0
  {
    if paths != [] {
      var init, last := paths[..|paths| - 1], paths[|paths| - 1];
      OfTierContents(init, t);
      assert paths == init + [last];
    }
  }

  /** The sorted tiers depend only on which paths there are, not on the order the
      file maps were walked in. */
  lemma OrderIrrelevant(paths: seq<string>, paths': seq<string>, t: Tier)
    requires multiset(paths) == multiset(paths')
    ensures Sort(OfTier(paths, t)) == Sort(OfTier(paths', t))
  {
    OfTierContents(paths, t);
    OfTierContents(paths', t);
    assert forall p :: multiset(OfTier(paths, t))[p] == multiset(OfTier(paths', t))[p];
    SortDependsOnContents(OfTier(paths, t), OfTier(paths', t));
  }

  /** The list of one tier: each path of that tier as often as it was given, in ascending byte order. */
  ghost predicate TierList(paths: seq<string>, t: Tier, list: seq<string>) {
    && (forall p :: multiset(list)[p] == if Classify(p) == t then multiset(paths)[p] else 0)
    && forall i, j :: 0 <= i < j < |list| ==> BytewiseUpTo(list[i], list[j])
  }

  lemma SortedTier(paths: seq<string>, t: Tier)
    ensures TierList(paths, t, Sort(OfTier(paths, t)))
  {
    hide Classify, BytewiseUpTo, Sort;
    OfTierContents(paths, t);
    SortAscends(OfTier(paths, t));
  }

  method PartitionPaths(paths: seq<string>, ecosystem: string)
      returns (tier1: seq<string>, tier2: seq<string>, tier3: seq<string>, tier4: seq<string>)
    ensures tier1 == Sort(OfTier(paths, Tier1)) && tier2 == Sort(OfTier(paths, Tier2))
    ensures tier3 == Sort(OfTier(paths, Tier3)) && tier4 == Sort(OfTier(paths, Tier4))
    ensures TierList(paths, Tier1, tier1) && TierList(paths, Tier2, tier2)
    ensures TierList(paths, Tier3, tier3) && TierList(paths, Tier4, tier4)
  {
    hide TierList;
    SortedTier(paths, Tier1);
    SortedTier(paths, Tier2);
    SortedTier(paths, Tier3);
    SortedTier(paths, Tier4);
    tier1, tier2, tier3, tier4 := [], [], [], [];
    for i := 0 to |paths|
      invariant tier1 == OfTier(paths[..i], Tier1) && tier2 == OfTier(paths[..i], Tier2)
      invariant tier3 == OfTier(paths[..i], Tier3) && tier4 == OfTier(paths[..i], Tier4)
    {
      assert paths[..i + 1][..i] == paths[..i];
      var t := ClassifyFile(paths[i], ecosystem);
      match t
      case Tier1 => tier1 := tier1 + [paths[i]];
      case Tier2 => tier2 := tier2 + [paths[i]];
      case Tier3 => tier3 := tier3 + [paths[i]];
      case Tier4 => tier4 := tier4 + [paths[i]];
    }
    assert paths[..|paths|] == paths;
    tier1, tier2, tier3, tier4 := Sort(tier1), Sort(tier2), Sort(tier3), Sort(tier4);
  }
}
