/** What decides the tier of a path, said without the order of the checks: its first listed
    directory, or else its last element and that element's extension. */
module TierRules {
  import opened Text
  import opened Filter

  // ----- names -----

  ghost predicate AllSlashes(s: string) {
    forall i :: 0 <= i < |s| ==> s[i] == '/'
  }

  /** A directory part: empty, or up to a slash. */
  ghost predicate IsDirPart(dir: string) {
    dir == "" || dir[|dir| - 1] == '/'
  }

  /** A name between slashes. */
  ghost predicate IsElement(name: string) {
    name != "" && '/' !in name
  }

  lemma {:induction false} SlashesTrimmed(path: string, slashes: string)
    requires AllSlashes(slashes) && (path == "" || path[|path| - 1] != '/')
    ensures TrimSlashes(path + slashes) == path
  {
    if slashes == "" {
      assert path + slashes == path;
    } else {
      SlashesTrimmed(path, slashes[..|slashes| - 1]);
      assert (path + slashes)[..|path + slashes| - 1] == path + slashes[..|slashes| - 1];
    }
  }

  lemma {:induction false} OnePiece(name: string)
    requires '/' !in name
    ensures Split(name, '/') == [name]
  {
    if name != "" {
      OnePiece(name[1..]);
      assert [name[0]] + name[1..] == name;
    }
  }

  lemma {:induction false} LastPiece(dir: string, name: string)
    requires IsDirPart(dir) && '/' !in name
    ensures var pieces := Split(dir + name, '/');
            pieces[|pieces| - 1] == name && (dir != "" ==> |pieces| >= 2)
  {
    if dir == "" {
      OnePiece(name);
      assert dir + name == name;
    } else {
      LastPiece(dir[1..], name);
      assert (dir + name)[1..] == dir[1..] + name;
    }
  }

  /** The base of a path is its last element, whatever slashes follow it. */
  lemma BaseIsLastElement(dir: string, name: string, slashes: string)
    requires IsDirPart(dir) && IsElement(name) && AllSlashes(slashes)
    ensures Base(dir + name + slashes) == name
  {
    var path := dir + name;
    assert path[|path| - 1] == name[|name| - 1];
    SlashesTrimmed(path, slashes);
    LastPiece(dir, name);
  }

  /** A path without any element: the root, or nothing. */
  lemma BaseOfNoElement(slashes: string)
    requires AllSlashes(slashes)
    ensures Base(slashes) == if slashes == "" then "." else "/"
  {
    SlashesTrimmed("", slashes);
    assert "" + slashes == slashes;
  }

  /** There is no third kind of path. */
  lemma {:induction false} PathKinds(path: string) returns (dir: string, name: string, slashes: string)
    ensures path == dir + name + slashes && AllSlashes(slashes)
    ensures (dir == "" && name == "") || (IsDirPart(dir) && IsElement(name))
  {
    if path == "" {
      dir, name, slashes := "", "", "";
    } else {
      var init, c := path[..|path| - 1], path[|path| - 1];
      dir, name, slashes := PathKinds(init);
      if c == '/' {
        slashes := slashes + [c];
      } else if slashes == "" {
        name := name + [c];
      } else {
        dir, name, slashes := dir + name + slashes, [c], "";
      }
      assert path == init + [c];
    }
  }

  /** The extension is what follows the last dot of the last element, with the dot. */
  lemma {:induction false} ExtAfterLastDot(stem: string, e: string)
    requires '.' !in e && '/' !in e
    ensures Ext(stem + "." + e) == "." + e
  {
    var path := stem + "." + e;
    if e != "" {
      ExtAfterLastDot(stem, e[..|e| - 1]);
      assert path[..|path| - 1] == stem + "." + e[..|e| - 1];
      assert path[|path| - 1] == e[|e| - 1] && e[|e| - 1] in e;
    }
  }

  lemma {:induction false} NoDotNoExt(dir: string, name: string)
    requires IsDirPart(dir) && '/' !in name && '.' !in name
    ensures Ext(dir + name) == ""
  {
    var path := dir + name;
    if name == "" {
      assert path == dir;
    } else {
      NoDotNoExt(dir, name[..|name| - 1]);
      assert path[..|path| - 1] == dir + name[..|name| - 1];
      assert path[|path| - 1] == name[|name| - 1] && name[|name| - 1] in name;
    }
  }

  /** Lower case is 32 above upper case; everything else stays. */
  lemma LowerCase(s: string, i: nat)
    requires i < |s|
    ensures |ToLower(s)| == |s|
    ensures ToLower(s)[i] as int == if 65 <= s[i] as int <= 90 then s[i] as int + 32 else s[i] as int
  {
  }

  // ----- tiers -----

  /** Component i is the first one that either table lists. */
  ghost predicate FirstListed(segs: seq<string>, i: nat) {
    && i < |segs| && (Tier4Dir(segs[i]) || Tier2Dir(segs[i]))
    && forall j :: 0 <= j < i ==> !Tier4Dir(segs[j]) && !Tier2Dir(segs[j])
  }

  ghost predicate NoneListed(segs: seq<string>) {
    forall j :: 0 <= j < |segs| ==> !Tier4Dir(segs[j]) && !Tier2Dir(segs[j])
  }

  lemma {:induction false} FirstListedDecides(segs: seq<string>, from: nat, i: nat)
    requires from <= i && FirstListed(segs, i)
    ensures DirectoryTier(segs, from) == if Tier4Dir(segs[i]) then Tier4 else Tier2
    decreases i - from
  {
    if from < i {
      FirstListedDecides(segs, from + 1, i);
    }
  }

  lemma {:induction false} NoneListedDecides(segs: seq<string>, from: nat)
    requires from <= |segs| && NoneListed(segs)
    ensures DirectoryTier(segs, from) == Tier1
    decreases |segs| - from
  {
    if from < |segs| {
      NoneListedDecides(segs, from + 1);
    }
  }

  lemma {:induction false} ListedOrNot(segs: seq<string>) returns (i: nat)
    ensures FirstListed(segs, i) || NoneListed(segs)
  {
    if segs == [] {
      i := 0;
    } else {
      var init := segs[..|segs| - 1];
      i := ListedOrNot(init);
      if NoneListed(init) {
        i := |init|;
        assert forall j :: 0 <= j < |init| ==> segs[j] == init[j];
      }
    }
  }

  ghost predicate Excluded(path: string) {
    Tier4Basename(ToLower(Base(path))) || Tier4Extension(ToLower(Ext(path)))
  }

  /** The first listed directory decides alone. Without one, a path is excluded by its name or
      extension, documentation by its extension unless excluded, and code if it is neither. */
  lemma TierIff(path: string)
    ensures Classify(path) == Tier4 <==>
            || (exists i: nat :: FirstListed(Segments(path), i) && Tier4Dir(Segments(path)[i]))
            || (NoneListed(Segments(path)) && Excluded(path))
    ensures Classify(path) == Tier2 <==>
            exists i: nat :: FirstListed(Segments(path), i) && !Tier4Dir(Segments(path)[i])
    ensures Classify(path) == Tier3 <==>
            NoneListed(Segments(path)) && !Excluded(path) && Tier3Extension(ToLower(Ext(path)))
    ensures Classify(path) == Tier1 <==>
            NoneListed(Segments(path)) && !Excluded(path) && !Tier3Extension(ToLower(Ext(path)))
  {
    hide Tier4Dir, Tier2Dir, Tier4Basename, Tier4Extension, Tier3Extension, Segments, Base, Ext, ToLower;
    var segs := Segments(path);
    forall i: nat | FirstListed(segs, i)
      ensures DirTier(path) == if Tier4Dir(segs[i]) then Tier4 else Tier2
    {
      FirstListedDecides(segs, 0, i);
    }
    if NoneListed(segs) {
      NoneListedDecides(segs, 0);
    }
    var i := ListedOrNot(segs);
  }
}
