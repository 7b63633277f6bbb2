/** Grouping an edit script into unified-diff hunks, and what those hunks are:
    the maximal runs of the operations worth printing. */
module Hunks {
  import opened EditScript
  import opened Options

  /** A printed line; the text carries the prefix ' ', '+' or '-'. */
  datatype DiffLine = DiffLine(kind: OpKind, text: string)

  datatype Hunk = Hunk(oldStart: nat, oldCount: nat, newStart: nat, newCount: nat, lines: seq<DiffLine>)

  /** Operations lo .. hi - 1 of an edit script. */
  datatype Block = Block(lo: nat, hi: nat)

  function Prefix(kind: OpKind): char {
    match kind
    case Ctx => ' '
    case Add => '+'
    case Del => '-'
  }

  function Print(op: EditOp): DiffLine {
    DiffLine(op.kind, [Prefix(op.kind)] + op.line)
  }

  function PrintAll(ops: seq<EditOp>): seq<DiffLine> {
    seq(|ops|, i requires 0 <= i < |ops| => Print(ops[i]))
  }

  // ----- which operations are printed -----

  ghost predicate ChangeAt(ops: seq<EditOp>, i: int) {
    0 <= i < |ops| && ops[i].kind != Ctx
  }

  /** At most c operations away from a change. */
  ghost predicate Near(ops: seq<EditOp>, c: nat, i: int) {
    exists j :: ChangeAt(ops, j) && i - c <= j <= i + c
  }

  /** Between two changes with at most 3c + 1 operations between them. */
  ghost predicate Bridged(ops: seq<EditOp>, c: nat, i: int) {
    exists p, q :: p < i < q && ChangeAt(ops, p) && ChangeAt(ops, q) && q - p - 1 <= 3 * c + 1
  }

  ghost predicate Kept(ops: seq<EditOp>, c: nat, i: int) {
    Near(ops, c, i) || Bridged(ops, c, i)
  }

  /** For every operation, whether it is printed. */
  ghost function Mask(ops: seq<EditOp>, c: nat): (keep: seq<bool>)
    ensures |keep| == |ops| && forall i :: 0 <= i < |ops| ==> keep[i] == Kept(ops, c, i)
  {
    seq(|ops|, i => Kept(ops, c, i))
  }

  /** The maximal runs of `true` among the first n entries. */
  function Runs(keep: seq<bool>, n: nat): (bs: seq<Block>)
    requires n <= |keep|
    ensures n > 0 && keep[n - 1] ==> bs != [] && bs[|bs| - 1].hi == n
    ensures forall k :: 0 <= k < |bs| ==> bs[k].lo < bs[k].hi <= n
  {
    if n == 0 then []
    else
      var before := Runs(keep, n - 1);
      if !keep[n - 1] then before
      else if n == 1 || !keep[n - 2] then before + [Block(n - 1, n)]
      else before[|before| - 1 := Block(before[|before| - 1].lo, n)]
  }

  function HunkAt(ops: seq<EditOp>, b: Block): Hunk
    requires b.lo <= b.hi <= |ops|
  {
    Hunk(|OldSide(ops[..b.lo])|, |OldSide(ops[b.lo..b.hi])|,
         |NewSide(ops[..b.lo])|, |NewSide(ops[b.lo..b.hi])|, PrintAll(ops[b.lo..b.hi]))
  }

  ghost predicate Within(bs: seq<Block>, n: nat) {
    forall k :: 0 <= k < |bs| ==> bs[k].lo < bs[k].hi <= n
  }

  function HunksAt(ops: seq<EditOp>, bs: seq<Block>): seq<Hunk>
    requires Within(bs, |ops|)
  {
    seq(|bs|, k requires 0 <= k < |bs| => HunkAt(ops, bs[k]))
  }

  ghost function UnifiedHunks(a: seq<string>, b: seq<string>, c: nat, maxCells: nat): seq<Hunk> {
    var ops := Script(a, b, maxCells);
    HunksAt(ops, Runs(Mask(ops, c), |ops|))
  }

  ghost predicate Covered(bs: seq<Block>, i: int) {
    exists k :: 0 <= k < |bs| && bs[k].lo <= i < bs[k].hi
  }

  /** Two blocks never touch. */
  lemma {:induction false} RunsAreSeparated(keep: seq<bool>, n: nat)
    requires n <= |keep|
    ensures forall k :: 0 <= k < |Runs(keep, n)| - 1 ==> Runs(keep, n)[k].hi < Runs(keep, n)[k + 1].lo
    ensures n > 0 && !keep[n - 1] ==> forall k :: 0 <= k < |Runs(keep, n)| ==> Runs(keep, n)[k].hi < n
  {
    if n > 0 {
      RunsAreSeparated(keep, n - 1);
    }
  }

  /** One step of `Runs`, with the run it grows named. */
  lemma RunsStep(keep: seq<bool>, i: nat) returns (rest: seq<Block>, last: Block)
    requires i < |keep| && keep[i]
    ensures Runs(keep, i + 1) == rest + [Block(last.lo, i + 1)] && last.hi == i
    ensures Within(rest, i)
    ensures Runs(keep, i) == if i > 0 && keep[i - 1] then rest + [last] else rest
    ensures i == 0 || !keep[i - 1] ==> last.lo == i
    ensures last.lo <= i
  {
    var bs := Runs(keep, i);
    if i > 0 && keep[i - 1] {
      rest, last := bs[..|bs| - 1], bs[|bs| - 1];
    } else {
      rest, last := bs, Block(i, i);
    }
  }

  lemma CoveredSnoc(bs: seq<Block>, b: Block, i: int)
    ensures Covered(bs + [b], i) <==> Covered(bs, i) || b.lo <= i < b.hi
  {
    var all := bs + [b];
    if Covered(bs, i) {
      var k :| 0 <= k < |bs| && bs[k].lo <= i < bs[k].hi;
      assert all[k] == bs[k];
    }
    if b.lo <= i < b.hi {
      assert all[|bs|] == b;
    }
  }

  lemma RunsSkip(keep: seq<bool>, n: nat)
    requires n <= |keep|
    ensures n == 0 ==> Runs(keep, n) == []
    ensures n > 0 && !keep[n - 1] ==> Runs(keep, n) == Runs(keep, n - 1)
  {
  }

  lemma NoneCovered(i: int)
    ensures !Covered([], i)
  {
  }

  /** The blocks hold exactly the `true` entries. */
  lemma {:induction false} RunsCover(keep: seq<bool>, n: nat, i: nat)
    requires n <= |keep|
    ensures Covered(Runs(keep, n), i) <==> i < n && keep[i]
  {
    hide Covered, Runs;
    RunsSkip(keep, n);
    if n == 0 {
      NoneCovered(i);
    } else {
      RunsCover(keep, n - 1, i);
      if keep[n - 1] {
        var rest, last := RunsStep(keep, n - 1);
        GrownCovers(Runs(keep, n - 1), rest, last, i);
        assert Runs(keep, n) == rest + [Block(last.lo, last.hi + 1)];
      }
    }
  }

  /** A run grown by one entry, or begun, covers one entry more. */
  lemma GrownCovers(before: seq<Block>, rest: seq<Block>, last: Block, i: nat)
    requires last.lo <= last.hi && (before == rest + [last] || (before == rest && last.lo == last.hi))
    ensures Covered(rest + [Block(last.lo, last.hi + 1)], i) <==> Covered(before, i) || i == last.hi
  {
    hide Covered;
    CoveredSnoc(rest, last, i);
    CoveredSnoc(rest, Block(last.lo, last.hi + 1), i);
  }

  lemma HunksSnoc(ops: seq<EditOp>, bs: seq<Block>, b: Block)
    requires Within(bs, |ops|) && b.lo < b.hi <= |ops|
    ensures HunksAt(ops, bs + [b]) == HunksAt(ops, bs) + [HunkAt(ops, b)]
  {
  }

  // ----- the source's loops -----

  /** Look backward, then forward, for a change at most c operations away. */
  method IsNearChange(ops: seq<EditOp>, c: nat, i: nat) returns (near: bool)
    requires i < |ops| && ops[i].kind == Ctx
    ensures near <==> Near(ops, c, i)
  {
    near := false;
    var j := i - 1;
    while j >= 0 && i - j <= c
      invariant -1 <= j < i
      invariant forall k :: j < k <= i && i - k <= c ==> !ChangeAt(ops, k)
    {
      if ops[j].kind != Ctx {
        assert ChangeAt(ops, j);
        return true;
      }
      j := j - 1;
    }
    j := i + 1;
    while j < |ops| && j - i <= c
      invariant i < j <= |ops|
      invariant forall k :: i - c <= k < j && k - i <= c ==> !ChangeAt(ops, k)
    {
      if ops[j].kind != Ctx {
        assert ChangeAt(ops, j);
        return true;
      }
      j := j + 1;
    }
  }

  /** Distance to the next change after i, 0 when there is none. */
  method NextChangeDistance(ops: seq<EditOp>, i: nat) returns (d: nat)
    requires i < |ops|
    ensures d > 0 ==> ChangeAt(ops, i + d) && forall k :: i < k < i + d ==> !ChangeAt(ops, k)
    ensures d == 0 ==> forall k :: i < k ==> !ChangeAt(ops, k)
  {
    d := 0;
    var j := i + 1;
    while j < |ops|
      invariant i < j <= |ops|
      invariant forall k :: i < k < j ==> !ChangeAt(ops, k)
    {
      if ops[j].kind != Ctx {
        return j - i;
      }
      j := j + 1;
    }
  }

  /** The back-fill: up to c context lines that directly precede operation i. */
  method PrecedingContext(ops: seq<EditOp>, c: nat, i: nat) returns (ctx: seq<DiffLine>)
    requires i <= |ops|
    ensures |ctx| <= c && |ctx| <= i && ctx == PrintAll(ops[i - |ctx|..i])
    ensures forall k :: i - |ctx| <= k < i ==> ops[k].kind == Ctx
    ensures |ctx| < c && |ctx| < i ==> ops[i - |ctx| - 1].kind != Ctx
  {
    ctx := [];
    var j := i - 1;
    while j >= 0 && |ctx| < c
      invariant -1 <= j < i && |ctx| == i - 1 - j && |ctx| <= c
      invariant ctx == PrintAll(ops[i - |ctx|..i])
      invariant forall k :: i - |ctx| <= k < i ==> ops[k].kind == Ctx
    {
      if ops[j].kind == Ctx {
        ctx := [Print(ops[j])] + ctx;
        j := j - 1;
      } else {
        break;
      }
    }
  }

  /** The source's merge rule decides exactly whether a context line away from all
      changes is bridged. */
  lemma MergeRule(ops: seq<EditOp>, c: nat, i: nat, d: nat)
    requires i < |ops| && !Near(ops, c, i)
    requires d > 0 ==> ChangeAt(ops, i + d) && forall k :: i < k < i + d ==> !ChangeAt(ops, k)
    requires d == 0 ==> forall k :: i < k ==> !ChangeAt(ops, k)
    ensures Kept(ops, c, i) <==> i > 0 && Kept(ops, c, i - 1) && 0 < d <= 2 * c + 1
  {
    assert !ChangeAt(ops, i);
    if i > 0 && Kept(ops, c, i - 1) && 0 < d <= 2 * c + 1 {
      if Near(ops, c, i - 1) {
        var j :| ChangeAt(ops, j) && i - 1 - c <= j <= i - 1 + c;
        assert j == i - 1 - c;
        assert Bridged(ops, c, i) by { assert j < i < i + d; }
      } else {
        var p, q :| p < i - 1 < q && ChangeAt(ops, p) && ChangeAt(ops, q) && q - p - 1 <= 3 * c + 1;
        assert p < i < q;
      }
    }
    if Bridged(ops, c, i) {
      var p, q :| p < i < q && ChangeAt(ops, p) && ChangeAt(ops, q) && q - p - 1 <= 3 * c + 1;
      assert i + d <= q && p < i - c;
      if p < i - 1 {
        assert Bridged(ops, c, i - 1);
      }
    }
  }

  function Extend(h: Hunk, op: EditOp): Hunk {
    Hunk(h.oldStart, h.oldCount + if op.kind == Add then 0 else 1,
         h.newStart, h.newCount + if op.kind == Del then 0 else 1, h.lines + [Print(op)])
  }

  lemma ExtendHunk(ops: seq<EditOp>, b: Block)
    requires b.lo <= b.hi < |ops|
    ensures HunkAt(ops, Block(b.lo, b.hi + 1)) == Extend(HunkAt(ops, b), ops[b.hi])
  {
    var longer := ops[b.lo..b.hi + 1];
    assert longer == ops[b.lo..b.hi] + [ops[b.hi]];
    Snoc(ops[b.lo..b.hi], ops[b.hi]);
  }

  /** What the source holds after i operations: the finished hunks and the open one. */
  ghost predicate Progress(ops: seq<EditOp>, keep: seq<bool>, i: nat, hunks: seq<Hunk>, current: Option<Hunk>)
    requires i <= |ops| == |keep|
  {
    && (current.Some? <==> i > 0 && keep[i - 1])
    && HunksAt(ops, Runs(keep, i)) == if current.Some? then hunks + [current.value] else hunks
  }

  lemma Unsnoc<T>(a: seq<T>, x: T, b: seq<T>, y: T)
    requires a + [x] == b + [y]
    ensures a == b && x == y
  {
    assert (a + [x])[..|a|] == a && (b + [y])[..|b|] == b;
    assert (a + [x])[|a|] == x && (b + [y])[|b|] == y;
  }

  lemma Grow(ops: seq<EditOp>, keep: seq<bool>, i: nat, hunks: seq<Hunk>, current: Option<Hunk>)
    requires i < |ops| == |keep| && keep[i]
    requires Progress(ops, keep, i, hunks, current) && current.Some?
    ensures Progress(ops, keep, i + 1, hunks, Some(Extend(current.value, ops[i])))
  {
    hide HunkAt, HunksAt;
    var rest, last := RunsStep(keep, i);
    hide Runs;
    assert last == Runs(keep, i)[|rest|];
    ExtendHunk(ops, last);
    HunksSnoc(ops, rest, last);
    Unsnoc(HunksAt(ops, rest), HunkAt(ops, last), hunks, current.value);
    HunksSnoc(ops, rest, Block(last.lo, i + 1));
  }

  lemma EmptyHunk(ops: seq<EditOp>, i: nat)
    requires i <= |ops|
    ensures HunkAt(ops, Block(i, i)) == Hunk(|OldSide(ops[..i])|, 0, |NewSide(ops[..i])|, 0, [])
  {
    assert ops[i..i] == [];
  }

  lemma Open(ops: seq<EditOp>, keep: seq<bool>, i: nat, hunks: seq<Hunk>, h: Hunk)
    requires i < |ops| == |keep| && keep[i]
    requires Progress(ops, keep, i, hunks, None)
    requires h == Hunk(|OldSide(ops[..i])|, 0, |NewSide(ops[..i])|, 0, [])
    ensures Progress(ops, keep, i + 1, hunks, Some(Extend(h, ops[i])))
  {
    hide Runs, HunksAt;
    var rest, last := RunsStep(keep, i);
    EmptyHunk(ops, i);
    hide HunkAt;
    ExtendHunk(ops, Block(i, i));
    HunksSnoc(ops, rest, Block(i, i + 1));
  }

  lemma Skip(ops: seq<EditOp>, keep: seq<bool>, i: nat, hunks: seq<Hunk>, current: Option<Hunk>)
    requires i < |ops| == |keep| && !keep[i]
    requires Progress(ops, keep, i, hunks, current)
    ensures Progress(ops, keep, i + 1, if current.Some? then hunks + [current.value] else hunks, None)
  {
  }

  /** Where the back-fill runs there is nothing to fill in: a context line next
      to a change already opened the hunk, unless c is 0 and none is wanted. */
  lemma NoBackfill(ops: seq<EditOp>, c: nat, i: nat, filled: nat)
    requires i < |ops| && ChangeAt(ops, i)
    requires !(i > 0 && Kept(ops, c, i - 1))
    requires filled <= c && filled <= i
    ensures filled == 0
  {
    if filled > 0 {
      assert Near(ops, c, i - 1);
    }
  }

  /** The hunk a change opens when none is open. */
  method StartHunk(ops: seq<EditOp>, c: nat, i: nat, oldIdx: nat, newIdx: nat) returns (h: Hunk)
    requires i < |ops| && ChangeAt(ops, i) && !(i > 0 && Kept(ops, c, i - 1))
    ensures h == Hunk(oldIdx, 0, newIdx, 0, [])
  {
    var ctx := PrecedingContext(ops, c, i);
    NoBackfill(ops, c, i, |ctx|);
    h := Hunk(oldIdx - |ctx|, |ctx|, newIdx - |ctx|, |ctx|, ctx);
  }

  /** What the loop does with one context line. */
  method ContextLine(ops: seq<EditOp>, c: nat, i: nat, hunks: seq<Hunk>, current: Option<Hunk>, oldIdx: nat,
      newIdx: nat)
      returns (hunks': seq<Hunk>, current': Option<Hunk>)
    requires i < |ops| && ops[i].kind == Ctx
    requires oldIdx == |OldSide(ops[..i])| && newIdx == |NewSide(ops[..i])|
    requires Progress(ops, Mask(ops, c), i, hunks, current)
    ensures Progress(ops, Mask(ops, c), i + 1, hunks', current')
  {
    hunks', current' := hunks, current;
    ghost var keep := Mask(ops, c);
    var flushDistance := c * 2 + 1;
    var nearChange := IsNearChange(ops, c, i);
    if nearChange {
      if current' == None {
        current' := Some(Hunk(oldIdx, 0, newIdx, 0, []));
        Open(ops, keep, i, hunks, current'.value);
      } else {
        Grow(ops, keep, i, hunks, current);
      }
      current' := Some(Extend(current'.value, ops[i]));
    } else {
      var nextChangeDist := NextChangeDistance(ops, i);
      MergeRule(ops, c, i, nextChangeDist);
      if current' != None {
        if nextChangeDist > 0 && nextChangeDist <= flushDistance {
          Grow(ops, keep, i, hunks, current);
          current' := Some(Extend(current'.value, ops[i]));
        } else {
          Skip(ops, keep, i, hunks, current);
          hunks', current' := hunks' + [current'.value], None;
        }
      } else {
        Skip(ops, keep, i, hunks, current);
      }
    }
  }

  /** What the loop does with one added or deleted line. */
  method ChangedLine(ops: seq<EditOp>, c: nat, i: nat, hunks: seq<Hunk>, current: Option<Hunk>, oldIdx: nat,
      newIdx: nat)
      returns (current': Option<Hunk>)
    requires i < |ops| && ops[i].kind != Ctx
    requires oldIdx == |OldSide(ops[..i])| && newIdx == |NewSide(ops[..i])|
    requires Progress(ops, Mask(ops, c), i, hunks, current)
    ensures Progress(ops, Mask(ops, c), i + 1, hunks, current')
  {
    current' := current;
    assert ChangeAt(ops, i) && Near(ops, c, i);
    if current' == None {
      var h := StartHunk(ops, c, i, oldIdx, newIdx);
      current' := Some(h);
      Open(ops, Mask(ops, c), i, hunks, h);
    } else {
      Grow(ops, Mask(ops, c), i, hunks, current);
    }
    current' := Some(Extend(current'.value, ops[i]));
  }

  method GroupIntoHunks(ops: seq<EditOp>, contextLines: nat) returns (hunks: seq<Hunk>)
    ensures hunks == HunksAt(ops, Runs(Mask(ops, contextLines), |ops|))
  {
    hunks := [];
    var current: Option<Hunk> := None;
    var oldIdx, newIdx := 0, 0;
    for i := 0 to |ops|
      invariant Progress(ops, Mask(ops, contextLines), i, hunks, current)
      invariant oldIdx == |OldSide(ops[..i])| && newIdx == |NewSide(ops[..i])|
    {
      assert ops[..i + 1] == ops[..i] + [ops[i]];
      Snoc(ops[..i], ops[i]);
      match ops[i].kind
      case Ctx =>
        hunks, current := ContextLine(ops, contextLines, i, hunks, current, oldIdx, newIdx);
        oldIdx, newIdx := oldIdx + 1, newIdx + 1;
      case Del =>
        current := ChangedLine(ops, contextLines, i, hunks, current, oldIdx, newIdx);
        oldIdx := oldIdx + 1;
      case Add =>
        current := ChangedLine(ops, contextLines, i, hunks, current, oldIdx, newIdx);
        newIdx := newIdx + 1;
    }
    if current != None {
      hunks := hunks + [current.value];
    }
  }

  method ComputeUnifiedHunks(oldLines: seq<string>, newLines: seq<string>, contextLines: nat, maxCells: nat)
      returns (hunks: seq<Hunk>)
    ensures hunks == UnifiedHunks(oldLines, newLines, contextLines, maxCells)
  {
    var ops := ComputeEditScript(oldLines, newLines, maxCells);
    if |ops| == 0 {
      return [];
    }
    hunks := GroupIntoHunks(ops, contextLines);
  }
}
