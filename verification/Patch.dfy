/** Applying a list of hunks the way a strict patch tool does, and the round trip:
    the hunks rebuild the new file from the old one, and the old one from the new. */
module Patch {
  import opened EditScript
  import opened Options
  import opened Hunks
  import opened HunkShape

  /** The lines a printed hunk expects to find, read off the prefixes. */
  function Expected(lines: seq<DiffLine>): seq<string> {
    if lines == [] then []
    else
      var text := lines[|lines| - 1].text;
      Expected(lines[..|lines| - 1]) + if text != [] && text[0] in {' ', '-'} then [text[1..]] else []
  }

  /** The lines a printed hunk puts in their place. */
  function Replacement(lines: seq<DiffLine>): seq<string> {
    if lines == [] then []
    else
      var text := lines[|lines| - 1].text;
      Replacement(lines[..|lines| - 1]) + if text != [] && text[0] in {' ', '+'} then [text[1..]] else []
  }

  /** Apply hunks in order to `src[pos..]`, with `out` lines already written. A hunk is
      refused when it reaches back over an earlier one, when the counts or the start
      positions in its header are off, or when the lines it expects are not there. */
  function Apply(src: seq<string>, hs: seq<Hunk>, pos: nat, out: nat): Option<seq<string>>
    requires pos <= |src|
  {
    if hs == [] then Some(src[pos..])
    else
      var h := hs[0];
      var end := h.oldStart + h.oldCount;
      if h.oldStart < pos || end > |src|
         || h.newStart != out + (h.oldStart - pos)
         || h.newCount != |Replacement(h.lines)|
         || src[h.oldStart..end] != Expected(h.lines)
      then None
      else
        match Apply(src, hs[1..], end, h.newStart + h.newCount)
        case None => None
        case Some(rest) => Some(src[pos..h.oldStart] + Replacement(h.lines) + rest)
  }

  function FlipKind(kind: OpKind): OpKind {
    match kind
    case Ctx => Ctx
    case Add => Del
    case Del => Add
  }

  function FlipOps(ops: seq<EditOp>): seq<EditOp> {
    seq(|ops|, i requires 0 <= i < |ops| => EditOp(FlipKind(ops[i].kind), ops[i].line))
  }

  function FlipPrefix(c: char): char {
    if c == '+' then '-' else if c == '-' then '+' else c
  }

  /** The reverse of a hunk, as `patch -R` reads it: '+' and '-' trade places. */
  function FlipHunk(h: Hunk): Hunk {
    Hunk(h.newStart, h.newCount, h.oldStart, h.oldCount,
         seq(|h.lines|, i requires 0 <= i < |h.lines| =>
           var l := h.lines[i];
           DiffLine(FlipKind(l.kind),
                    if l.text == [] then []
                    else [FlipPrefix(l.text[0])] + l.text[1..])))
  }

  function FlipHunks(hs: seq<Hunk>): seq<Hunk> {
    seq(|hs|, i requires 0 <= i < |hs| => FlipHunk(hs[i]))
  }

  // ----- proofs -----

  lemma {:induction false} PrintedSides(ops: seq<EditOp>)
    ensures Expected(PrintAll(ops)) == OldSide(ops)
    ensures Replacement(PrintAll(ops)) == NewSide(ops)
  {
    if ops != [] {
      var lines, rest := PrintAll(ops), ops[..|ops| - 1];
      assert lines[..|lines| - 1] == PrintAll(rest);
      PrintedSides(rest);
    }
  }

  /** Cutting a script at lo and hi cuts both files accordingly. */
  lemma SidesCut(ops: seq<EditOp>, lo: nat, hi: nat)
    requires lo <= hi <= |ops|
    ensures var o, n := OldSide(ops), NewSide(ops);
            var a, b := |OldSide(ops[..lo])|, |OldSide(ops[..hi])|;
            var p, q := |NewSide(ops[..lo])|, |NewSide(ops[..hi])|;
            && a <= b <= |o| && p <= q <= |n|
            && o[a..b] == OldSide(ops[lo..hi]) && n[p..q] == NewSide(ops[lo..hi])
            && b == a + |OldSide(ops[lo..hi])| && q == p + |NewSide(ops[lo..hi])|
  {
    assert ops[..hi] == ops[..lo] + ops[lo..hi];
    assert ops == ops[..hi] + ops[hi..];
    SidesConcat(ops[..lo], ops[lo..hi]);
    SidesConcat(ops[..hi], ops[hi..]);
  }

  lemma {:induction false} ContextReadsAndWritesTheSame(ops: seq<EditOp>)
    requires forall i :: 0 <= i < |ops| ==> ops[i].kind == Ctx
    ensures OldSide(ops) == NewSide(ops)
  {
    if ops != [] {
      ContextReadsAndWritesTheSame(ops[..|ops| - 1]);
    }
  }

  ghost predicate OrderedBlocks(bs: seq<Block>, from: nat, n: nat) {
    && Within(bs, n)
    && (forall j, k :: 0 <= j < k < |bs| ==> bs[j].hi <= bs[k].lo)
    && (forall k :: 0 <= k < |bs| ==> from <= bs[k].lo)
  }

  /** The blocks hold every change from operation `from` on. */
  ghost predicate CoversChanges(ops: seq<EditOp>, bs: seq<Block>, from: nat) {
    forall i :: from <= i < |ops| && ops[i].kind != Ctx ==> Covered(bs, i)
  }

  /** One hunk that fits, followed by hunks that fit. */
  lemma ApplyStep(src: seq<string>, h: Hunk, hs: seq<Hunk>, pos: nat, out: nat, rest: seq<string>)
    requires pos <= h.oldStart && h.oldStart + h.oldCount <= |src|
    requires h.newStart == out + (h.oldStart - pos) && h.newCount == |Replacement(h.lines)|
    requires src[h.oldStart..h.oldStart + h.oldCount] == Expected(h.lines)
    requires Apply(src, hs, h.oldStart + h.oldCount, h.newStart + h.newCount) == Some(rest)
    ensures Apply(src, [h] + hs, pos, out) == Some(src[pos..h.oldStart] + Replacement(h.lines) + rest)
  {
    assert ([h] + hs)[1..] == hs;
  }

  lemma ThreeParts(ops: seq<EditOp>, from: nat, b: Block)
    requires from <= b.lo <= b.hi <= |ops|
    ensures NewSide(ops[from..]) == NewSide(ops[from..b.lo]) + NewSide(ops[b.lo..b.hi]) + NewSide(ops[b.hi..])
  {
    assert ops[from..] == ops[from..b.lo] + ops[b.lo..b.hi] + ops[b.hi..];
    SidesConcat(ops[from..b.lo], ops[b.lo..b.hi]);
    SidesConcat(ops[from..b.lo] + ops[b.lo..b.hi], ops[b.hi..]);
  }

  /** Between two blocks only context is skipped, and the block's own hunk fits. */
  lemma HunkFits(ops: seq<EditOp>, from: nat, b: Block)
    requires from <= b.lo < b.hi <= |ops|
    requires forall i :: from <= i < b.lo ==> ops[i].kind == Ctx
    ensures var src, h := OldSide(ops), HunkAt(ops, b);
            var pos, out := |OldSide(ops[..from])|, |NewSide(ops[..from])|;
            && pos <= h.oldStart && h.oldStart + h.oldCount <= |src|
            && h.newStart == out + (h.oldStart - pos) && h.newCount == |Replacement(h.lines)|
            && src[h.oldStart..h.oldStart + h.oldCount] == Expected(h.lines)
            && h.oldStart + h.oldCount == |OldSide(ops[..b.hi])|
            && h.newStart + h.newCount == |NewSide(ops[..b.hi])|
            && src[pos..h.oldStart] == NewSide(ops[from..b.lo])
            && Replacement(h.lines) == NewSide(ops[b.lo..b.hi])
  {
    SidesCut(ops, from, b.lo);
    SidesCut(ops, b.lo, b.hi);
    PrintedSides(ops[b.lo..b.hi]);
    ContextReadsAndWritesTheSame(ops[from..b.lo]);
  }

  /** Hunks cut from any ordered blocks that cover the changes are a patch. */
  lemma {:induction false} BlocksApply(ops: seq<EditOp>, bs: seq<Block>, from: nat)
    requires from <= |ops| && OrderedBlocks(bs, from, |ops|) && CoversChanges(ops, bs, from)
    ensures |OldSide(ops[..from])| <= |OldSide(ops)|
    ensures Apply(OldSide(ops), HunksAt(ops, bs), |OldSide(ops[..from])|, |NewSide(ops[..from])|)
              == Some(NewSide(ops[from..]))
    decreases |bs|
  {
    hide OldSide, NewSide, CoversChanges, HunkAt, HunksAt, Apply;
    SidesCut(ops, from, |ops|);
    assert ops[..|ops|] == ops && ops[from..|ops|] == ops[from..];
    if bs == [] {
      OnlyContextLeft(ops, from);
      NoHunks(ops);
      NothingToApply(OldSide(ops), |OldSide(ops[..from])|, |NewSide(ops[..from])|);
    } else {
      var b, rest := bs[0], bs[1..];
      RestIsOrdered(ops, bs, from);
      BlocksApply(ops, rest, b.hi);
      HunkFits(ops, from, b);
      ThreeParts(ops, from, b);
      HunksCons(ops, bs);
      ApplyStep(OldSide(ops), HunkAt(ops, b), HunksAt(ops, rest), |OldSide(ops[..from])|, |NewSide(ops[..from])|,
          NewSide(ops[b.hi..]));
    }
  }

  lemma OnlyContextLeft(ops: seq<EditOp>, from: nat)
    requires from <= |ops| && CoversChanges(ops, [], from)
    ensures OldSide(ops[from..]) == NewSide(ops[from..])
  {
    ContextReadsAndWritesTheSame(ops[from..]);
  }

  lemma NoHunks(ops: seq<EditOp>)
    ensures HunksAt(ops, []) == []
  {
  }

  lemma NothingToApply(src: seq<string>, pos: nat, out: nat)
    requires pos <= |src|
    ensures Apply(src, [], pos, out) == Some(src[pos..|src|])
  {
    assert src[pos..] == src[pos..|src|];
  }

  lemma HunksCons(ops: seq<EditOp>, bs: seq<Block>)
    requires bs != [] && Within(bs, |ops|)
    ensures HunksAt(ops, bs) == [HunkAt(ops, bs[0])] + HunksAt(ops, bs[1..])
  {
  }

  lemma RestIsOrdered(ops: seq<EditOp>, bs: seq<Block>, from: nat)
    requires bs != []
    requires from <= |ops| && OrderedBlocks(bs, from, |ops|) && CoversChanges(ops, bs, from)
    ensures OrderedBlocks(bs[1..], bs[0].hi, |ops|) && CoversChanges(ops, bs[1..], bs[0].hi)
    ensures forall i :: from <= i < bs[0].lo ==> ops[i].kind == Ctx
  {
    forall i | bs[0].hi <= i < |ops| && ops[i].kind != Ctx
      ensures Covered(bs[1..], i)
    {
      var k :| 0 <= k < |bs| && bs[k].lo <= i < bs[k].hi;
      assert bs[1..][k - 1] == bs[k];
    }
  }

  lemma KeptBlocks(ops: seq<EditOp>, c: nat)
    ensures var bs := Runs(Mask(ops, c), |ops|);
            OrderedBlocks(bs, 0, |ops|) && CoversChanges(ops, bs, 0)
  {
    var bs := Runs(Mask(ops, c), |ops|);
    RunsAreSeparated(Mask(ops, c), |ops|);
    Ordered(bs, |ops|);
    forall i | 0 <= i < |ops| && ops[i].kind != Ctx
      ensures Covered(bs, i)
    {
      assert ChangeAt(ops, i) && Near(ops, c, i);
      MaskRuns(ops, c, i);
    }
  }

  /** The hunks are a patch from the old file to the new one. */
  lemma PatchForward(a: seq<string>, b: seq<string>, c: nat, maxCells: nat)
    ensures Apply(a, UnifiedHunks(a, b, c, maxCells), 0, 0) == Some(b)
  {
    var ops := Script(a, b, maxCells);
    ScriptTurns(a, b, maxCells);
    KeptBlocks(ops, c);
    BlocksApply(ops, Runs(Mask(ops, c), |ops|), 0);
    assert ops[..0] == [] && ops[0..] == ops;
  }

  lemma {:induction false} FlipSides(ops: seq<EditOp>)
    ensures OldSide(FlipOps(ops)) == NewSide(ops)
    ensures NewSide(FlipOps(ops)) == OldSide(ops)
  {
    if ops != [] {
      var rest, f := ops[..|ops| - 1], FlipOps(ops);
      assert f[..|f| - 1] == FlipOps(rest);
      FlipSides(rest);
    }
  }

  lemma FlipHunkAt(ops: seq<EditOp>, b: Block)
    requires b.lo <= b.hi <= |ops|
    ensures FlipHunk(HunkAt(ops, b)) == HunkAt(FlipOps(ops), b)
  {
    hide OldSide, NewSide, PrintAll, FlipHunk;
    var f := FlipOps(ops);
    FlipSides(ops[..b.lo]);
    FlipSides(ops[b.lo..b.hi]);
    assert f[..b.lo] == FlipOps(ops[..b.lo]) && f[b.lo..b.hi] == FlipOps(ops[b.lo..b.hi]);
    FlipLines(HunkAt(ops, b), ops[b.lo..b.hi]);
  }

  lemma FlipLines(h: Hunk, ops: seq<EditOp>)
    requires h.lines == PrintAll(ops)
    ensures FlipHunk(h) == Hunk(h.newStart, h.newCount, h.oldStart, h.oldCount, PrintAll(FlipOps(ops)))
  {
    forall i | 0 <= i < |ops|
      ensures FlipHunk(h).lines[i] == PrintAll(FlipOps(ops))[i]
    {
      assert h.lines[i] == Print(ops[i]);
    }
  }

  lemma FlipHunksAt(ops: seq<EditOp>, bs: seq<Block>)
    requires Within(bs, |ops|)
    ensures FlipHunks(HunksAt(ops, bs)) == HunksAt(FlipOps(ops), bs)
  {
    forall k | 0 <= k < |bs|
      ensures FlipHunks(HunksAt(ops, bs))[k] == HunksAt(FlipOps(ops), bs)[k]
    {
      FlipHunkAt(ops, bs[k]);
    }
  }

  /** Read backwards, the same hunks are a patch from the new file to the old one. */
  lemma PatchBackward(a: seq<string>, b: seq<string>, c: nat, maxCells: nat)
    ensures Apply(b, FlipHunks(UnifiedHunks(a, b, c, maxCells)), 0, 0) == Some(a)
  {
    var ops := Script(a, b, maxCells);
    var f, bs := FlipOps(ops), Runs(Mask(ops, c), |ops|);
    ScriptTurns(a, b, maxCells);
    FlipSides(ops);
    KeptBlocks(ops, c);
    BlocksApply(f, bs, 0);
    assert f[..0] == [] && f[0..] == f;
    FlipHunksAt(ops, bs);
  }
}
