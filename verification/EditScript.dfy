/** The edit script between two files, as lists of lines: the LCS table, the
    backtrack over it, the size cut-off, and why the result is minimal. */
module EditScript {
  import opened Slices

  datatype OpKind = Ctx | Add | Del

  datatype EditOp = EditOp(kind: OpKind, line: string)

  /** The lines a script reads: its context and deleted lines. */
  function OldSide(ops: seq<EditOp>): seq<string> {
    if ops == [] then []
    else
      var last := ops[|ops| - 1];
      OldSide(ops[..|ops| - 1]) + if last.kind == Add then [] else [last.line]
  }

  /** The lines a script writes: its context and added lines. */
  function NewSide(ops: seq<EditOp>): seq<string> {
    if ops == [] then []
    else
      var last := ops[|ops| - 1];
      NewSide(ops[..|ops| - 1]) + if last.kind == Del then [] else [last.line]
  }

  /** The lines a script keeps. */
  function Common(ops: seq<EditOp>): seq<string> {
    if ops == [] then []
    else
      var last := ops[|ops| - 1];
      Common(ops[..|ops| - 1]) + if last.kind == Ctx then [last.line] else []
  }

  /** How many lines a script adds, and how many it deletes. */
  function Count(ops: seq<EditOp>, kind: OpKind): nat {
    if ops == [] then 0
    else Count(ops[..|ops| - 1], kind) + if ops[|ops| - 1].kind == kind then 1 else 0
  }

  function Changes(ops: seq<EditOp>): nat {
    Count(ops, Add) + Count(ops, Del)
  }

  ghost predicate Turns(ops: seq<EditOp>, a: seq<string>, b: seq<string>) {
    OldSide(ops) == a && NewSide(ops) == b
  }

  // ----- longest common subsequences -----

  ghost predicate IsSubsequence(s: seq<string>, t: seq<string>) {
    if s == [] then true
    else if t == [] then false
    else
      || (s[|s| - 1] == t[|t| - 1] && IsSubsequence(s[..|s| - 1], t[..|t| - 1]))
      || IsSubsequence(s, t[..|t| - 1])
  }

  function Lcs(a: seq<string>, b: seq<string>): nat
    decreases |a| + |b|
  {
    if a == [] || b == [] then 0
    else if a[|a| - 1] == b[|b| - 1] then Lcs(a[..|a| - 1], b[..|b| - 1]) + 1
    else
      var up, left := Lcs(a[..|a| - 1], b), Lcs(a, b[..|b| - 1]);
      if up >= left then up else left
  }

  lemma {:induction false} SubsequenceInit(s: seq<string>, t: seq<string>)
    requires s != [] && IsSubsequence(s, t)
    ensures IsSubsequence(s[..|s| - 1], t)
  {
    var s', t' := s[..|s| - 1], t[..|t| - 1];
    if IsSubsequence(s, t') {
      SubsequenceInit(s, t');
    }
    assert IsSubsequence(s', t');
  }

  /** No common subsequence is longer than `Lcs`. */
  lemma {:induction false} LcsIsUpperBound(s: seq<string>, a: seq<string>, b: seq<string>)
    requires IsSubsequence(s, a) && IsSubsequence(s, b)
    ensures |s| <= Lcs(a, b)
    decreases |a| + |b|
  {
    if s != [] {
      var x, a', b', s' := s[|s| - 1], a[..|a| - 1], b[..|b| - 1], s[..|s| - 1];
      if a[|a| - 1] == b[|b| - 1] {
        if IsSubsequence(s, a') {
          SubsequenceInit(s, a');
        }
        if IsSubsequence(s, b') {
          SubsequenceInit(s, b');
        }
        LcsIsUpperBound(s', a', b');
      } else if x != a[|a| - 1] {
        LcsIsUpperBound(s, a', b);
      } else {
        LcsIsUpperBound(s, a, b');
      }
    }
  }

  // ----- the two ways the source builds a script -----

  /** The script that the backtrack over the LCS table reads off, from the end
      of both files towards their start. */
  function Backtrack(a: seq<string>, b: seq<string>): seq<EditOp>
    decreases |a| + |b|
  {
    if a == [] && b == [] then []
    else if a != [] && b != [] && a[|a| - 1] == b[|b| - 1] then
      Backtrack(a[..|a| - 1], b[..|b| - 1]) + [EditOp(Ctx, a[|a| - 1])]
    else if b != [] && (a == [] || Lcs(a, b[..|b| - 1]) >= Lcs(a[..|a| - 1], b)) then
      Backtrack(a, b[..|b| - 1]) + [EditOp(Add, b[|b| - 1])]
    else
      Backtrack(a[..|a| - 1], b) + [EditOp(Del, a[|a| - 1])]
  }

  function Tagged(kind: OpKind, lines: seq<string>): seq<EditOp> {
    seq(|lines|, i requires 0 <= i < |lines| => EditOp(kind, lines[i]))
  }

  /** Everything removed, then everything added: the script for files whose table would be too large. */
  function Fallback(a: seq<string>, b: seq<string>): seq<EditOp> {
    Tagged(Del, a) + Tagged(Add, b)
  }

  function Script(a: seq<string>, b: seq<string>, maxCells: nat): seq<EditOp> {
    if |a| * |b| > maxCells then Fallback(a, b) else Backtrack(a, b)
  }

  // ----- correctness and minimality -----

  lemma {:induction false} OldConcat(x: seq<EditOp>, y: seq<EditOp>)
    ensures OldSide(x + y) == OldSide(x) + OldSide(y)
  {
    if y == [] {
      assert x + y == x;
    } else {
      OldConcat(x, y[..|y| - 1]);
      assert (x + y)[..|x + y| - 1] == x + y[..|y| - 1];
    }
  }

  lemma {:induction false} NewConcat(x: seq<EditOp>, y: seq<EditOp>)
    ensures NewSide(x + y) == NewSide(x) + NewSide(y)
  {
    if y == [] {
      assert x + y == x;
    } else {
      NewConcat(x, y[..|y| - 1]);
      assert (x + y)[..|x + y| - 1] == x + y[..|y| - 1];
    }
  }

  lemma SidesConcat(x: seq<EditOp>, y: seq<EditOp>)
    ensures OldSide(x + y) == OldSide(x) + OldSide(y)
    ensures NewSide(x + y) == NewSide(x) + NewSide(y)
  {
    OldConcat(x, y);
    NewConcat(x, y);
  }

  lemma {:induction false} CountConcat(x: seq<EditOp>, y: seq<EditOp>, kind: OpKind)
    ensures Count(x + y, kind) == Count(x, kind) + Count(y, kind)
  {
    if y == [] {
      assert x + y == x;
    } else {
      CountConcat(x, y[..|y| - 1], kind);
      assert (x + y)[..|x + y| - 1] == x + y[..|y| - 1];
    }
  }

  lemma {:induction false} TaggedSides(kind: OpKind, lines: seq<string>)
    requires kind != Ctx
    ensures OldSide(Tagged(kind, lines)) == if kind == Del then lines else []
    ensures NewSide(Tagged(kind, lines)) == if kind == Add then lines else []
  {
    hide OldSide, NewSide, Common, Tagged;
    TaggedOneMore(kind, lines);
    EmptySides();
    if lines != [] {
      var init, last := lines[..|lines| - 1], lines[|lines| - 1];
      TaggedSides(kind, init);
      Snoc(Tagged(kind, init), EditOp(kind, last));
      assert init + [last] == lines;
    }
  }

  lemma TaggedOneMore(kind: OpKind, lines: seq<string>)
    ensures Tagged(kind, lines) ==
            if lines == [] then [] else Tagged(kind, lines[..|lines| - 1]) + [EditOp(kind, lines[|lines| - 1])]
  {
  }

  lemma EmptySides()
    ensures OldSide([]) == [] && NewSide([]) == []
  {
  }

  lemma Snoc(ops: seq<EditOp>, op: EditOp)
    ensures OldSide(ops + [op]) == OldSide(ops) + if op.kind == Add then [] else [op.line]
    ensures NewSide(ops + [op]) == NewSide(ops) + if op.kind == Del then [] else [op.line]
    ensures Common(ops + [op]) == Common(ops) + if op.kind == Ctx then [op.line] else []
  {
    assert (ops + [op])[..|ops + [op]| - 1] == ops;
  }

  lemma {:induction false} BacktrackTurns(a: seq<string>, b: seq<string>)
    ensures Turns(Backtrack(a, b), a, b)
    ensures |Common(Backtrack(a, b))| == Lcs(a, b)
    decreases |a| + |b|
  {
    if a == [] && b == [] {
    } else if a != [] && b != [] && a[|a| - 1] == b[|b| - 1] {
      KeepStep(a, b);
    } else if b != [] && (a == [] || Lcs(a, b[..|b| - 1]) >= Lcs(a[..|a| - 1], b)) {
      AddStep(a, b);
    } else {
      DelStep(a, b);
    }
  }

  lemma {:induction false} KeepStep(a: seq<string>, b: seq<string>)
    requires a != [] && b != [] && a[|a| - 1] == b[|b| - 1]
    ensures Turns(Backtrack(a, b), a, b)
    ensures |Common(Backtrack(a, b))| == Lcs(a, b)
    decreases |a| + |b|, 0
  {
    hide Common, OldSide, NewSide;
    var a', b' := a[..|a| - 1], b[..|b| - 1];
    assert Lcs(a, b) == Lcs(a', b') + 1;
    hide Lcs;
    BacktrackTurns(a', b');
    Snoc(Backtrack(a', b'), EditOp(Ctx, a[|a| - 1]));
    assert a' + [a[|a| - 1]] == a && b' + [b[|b| - 1]] == b;
  }

  lemma {:induction false} AddStep(a: seq<string>, b: seq<string>)
    requires b != [] && (a == [] || a[|a| - 1] != b[|b| - 1])
    requires a == [] || Lcs(a, b[..|b| - 1]) >= Lcs(a[..|a| - 1], b)
    ensures Turns(Backtrack(a, b), a, b)
    ensures |Common(Backtrack(a, b))| == Lcs(a, b)
    decreases |a| + |b|, 0
  {
    hide Common, OldSide, NewSide;
    var b' := b[..|b| - 1];
    assert Lcs(a, b) == Lcs(a, b');
    hide Lcs;
    BacktrackTurns(a, b');
    Snoc(Backtrack(a, b'), EditOp(Add, b[|b| - 1]));
    assert b' + [b[|b| - 1]] == b;
  }

  lemma {:induction false} DelStep(a: seq<string>, b: seq<string>)
    requires a != [] && (b == [] || a[|a| - 1] != b[|b| - 1])
    requires b == [] || Lcs(a, b[..|b| - 1]) < Lcs(a[..|a| - 1], b)
    ensures Turns(Backtrack(a, b), a, b)
    ensures |Common(Backtrack(a, b))| == Lcs(a, b)
    decreases |a| + |b|, 0
  {
    hide Common, OldSide, NewSide;
    var a' := a[..|a| - 1];
    assert Lcs(a, b) == Lcs(a', b);
    hide Lcs;
    BacktrackTurns(a', b);
    Snoc(Backtrack(a', b), EditOp(Del, a[|a| - 1]));
    assert a' + [a[|a| - 1]] == a;
  }

  /** Whichever branch is taken, the script turns the old file into the new one. */
  lemma ScriptTurns(a: seq<string>, b: seq<string>, maxCells: nat)
    ensures Turns(Script(a, b, maxCells), a, b)
  {
    hide OldSide, NewSide, Backtrack, Tagged;
    if |a| * |b| > maxCells {
      TaggedSides(Del, a);
      TaggedSides(Add, b);
      SidesConcat(Tagged(Del, a), Tagged(Add, b));
    } else {
      BacktrackTurns(a, b);
    }
  }

  lemma {:induction false} CommonIsCommon(ops: seq<EditOp>)
    ensures IsSubsequence(Common(ops), OldSide(ops))
    ensures IsSubsequence(Common(ops), NewSide(ops))
  {
    if ops != [] {
      var rest, last := ops[..|ops| - 1], ops[|ops| - 1];
      CommonIsCommon(rest);
      var o, n, c := OldSide(ops), NewSide(ops), Common(ops);
      if last.kind == Ctx {
        assert c[..|c| - 1] == Common(rest) && o[..|o| - 1] == OldSide(rest) && n[..|n| - 1] == NewSide(rest);
      } else if last.kind == Add {
        assert c == Common(rest) && o == OldSide(rest) && n[..|n| - 1] == NewSide(rest);
      } else {
        assert c == Common(rest) && n == NewSide(rest) && o[..|o| - 1] == OldSide(rest);
      }
    }
  }

  lemma {:induction false} SideLengths(ops: seq<EditOp>)
    ensures |OldSide(ops)| == Count(ops, Del) + |Common(ops)|
    ensures |NewSide(ops)| == Count(ops, Add) + |Common(ops)|
  {
    if ops != [] {
      SideLengths(ops[..|ops| - 1]);
    }
  }

  /** `Lcs` is the length of a longest common subsequence: one of that length
      exists and none is longer. */
  lemma LcsIsLongest(a: seq<string>, b: seq<string>)
    ensures exists s :: IsSubsequence(s, a) && IsSubsequence(s, b) && |s| == Lcs(a, b)
    ensures forall s :: IsSubsequence(s, a) && IsSubsequence(s, b) ==> |s| <= Lcs(a, b)
  {
    BacktrackTurns(a, b);
    CommonIsCommon(Backtrack(a, b));
    var kept := Common(Backtrack(a, b));
    assert IsSubsequence(kept, a) && IsSubsequence(kept, b);
    forall s | IsSubsequence(s, a) && IsSubsequence(s, b)
      ensures |s| <= Lcs(a, b)
    {
      LcsIsUpperBound(s, a, b);
    }
  }

  /** Below the cut-off the script has exactly m + n - 2 LCS changes, and no
      script that turns the old file into the new one has fewer. */
  lemma ScriptIsMinimal(a: seq<string>, b: seq<string>, maxCells: nat, other: seq<EditOp>)
    requires |a| * |b| <= maxCells
    requires Turns(other, a, b)
    ensures Changes(Script(a, b, maxCells)) == |a| + |b| - 2 * Lcs(a, b)
    ensures Changes(Script(a, b, maxCells)) <= Changes(other)
  {
    BacktrackTurns(a, b);
    SideLengths(Backtrack(a, b));
    SideLengths(other);
    CommonIsCommon(other);
    LcsIsUpperBound(Common(other), a, b);
  }

  /** A script between different files changes something; between equal files
      below the cut-off it changes nothing. */
  lemma ChangesIffDifferent(a: seq<string>, b: seq<string>, maxCells: nat)
    ensures a != b ==> Changes(Script(a, b, maxCells)) > 0
    ensures a == b && |a| * |b| <= maxCells ==> Changes(Script(a, b, maxCells)) == 0
  {
    var ops := Script(a, b, maxCells);
    ScriptTurns(a, b, maxCells);
    if Changes(ops) == 0 {
      NoChangesSameSides(ops);
    }
    if a == b && |a| * |b| <= maxCells {
      var same := Tagged(Ctx, a);
      ContextSides(a);
      ScriptIsMinimal(a, b, maxCells, same);
    }
  }

  lemma {:induction false} NoChangesSameSides(ops: seq<EditOp>)
    requires Changes(ops) == 0
    ensures OldSide(ops) == NewSide(ops)
  {
    if ops != [] {
      NoChangesSameSides(ops[..|ops| - 1]);
    }
  }

  lemma {:induction false} ContextSides(lines: seq<string>)
    ensures Turns(Tagged(Ctx, lines), lines, lines)
    ensures Changes(Tagged(Ctx, lines)) == 0
  {
    var ops := Tagged(Ctx, lines);
    if lines != [] {
      var init := lines[..|lines| - 1];
      assert ops[..|ops| - 1] == Tagged(Ctx, init);
      ContextSides(init);
      assert init + [lines[|lines| - 1]] == lines;
    }
  }

  /** Taking more of a file cannot shorten the longest common subsequence. */
  lemma LcsGrows(a: seq<string>, b: seq<string>)
    requires a != []
    ensures Lcs(a[..|a| - 1], b) <= Lcs(a, b)
  {
    var a' := a[..|a| - 1];
    LcsIsLongest(a', b);
    var s :| IsSubsequence(s, a') && IsSubsequence(s, b) && |s| == Lcs(a', b);
    LcsIsUpperBound(s, a, b);
  }

  /** An added line directly before a deleted one. */
  ghost predicate AddThenDel(ops: seq<EditOp>, i: int) {
    0 <= i < |ops| - 1 && ops[i].kind == Add && ops[i + 1].kind == Del
  }

  lemma {:induction false} BacktrackDeletesFirst(a: seq<string>, b: seq<string>, i: int)
    ensures !AddThenDel(Backtrack(a, b), i)
    decreases |a| + |b|
  {
    hide Lcs;
    if a == [] && b == [] {
    } else if a != [] && b != [] && a[|a| - 1] == b[|b| - 1] {
      BacktrackDeletesFirst(a[..|a| - 1], b[..|b| - 1], i);
    } else if b != [] && (a == [] || Lcs(a, b[..|b| - 1]) >= Lcs(a[..|a| - 1], b)) {
      BacktrackDeletesFirst(a, b[..|b| - 1], i);
    } else {
      BacktrackDeletesFirst(a[..|a| - 1], b, i);
      NoAddBeforeDel(a, b);
    }
  }

  /** When the last line read off is a deletion, the one before it is no addition. */
  lemma NoAddBeforeDel(a: seq<string>, b: seq<string>)
    requires a != [] && (b == [] || (a[|a| - 1] != b[|b| - 1] && Lcs(a, b[..|b| - 1]) < Lcs(a[..|a| - 1], b)))
    ensures var ops := Backtrack(a[..|a| - 1], b); ops != [] ==> ops[|ops| - 1].kind != Add
  {
    if b != [] {
      var a', b' := a[..|a| - 1], b[..|b| - 1];
      LcsGrows(a, b');
      assert a' == [] || a'[|a'| - 1] != b[|b| - 1] ==>
          a' == [] || Lcs(a', b) == Lcs(a'[..|a'| - 1], b) || Lcs(a', b) == Lcs(a', b');
    }
  }

  /** In every group of changed lines the deleted ones come first: ties in the table are
      broken towards the added line, which the backtrack reads off last to first. */
  lemma DeletionsFirst(a: seq<string>, b: seq<string>, maxCells: nat, i: int)
    ensures !AddThenDel(Script(a, b, maxCells), i)
  {
    if |a| * |b| <= maxCells {
      BacktrackDeletesFirst(a, b, i);
    }
  }

  lemma {:induction false} TaggedCount(kind: OpKind, lines: seq<string>, other: OpKind)
    ensures Count(Tagged(kind, lines), other) == if other == kind then |lines| else 0
  {
    if lines != [] {
      var ops := Tagged(kind, lines);
      assert ops[..|ops| - 1] == Tagged(kind, lines[..|lines| - 1]);
      TaggedCount(kind, lines[..|lines| - 1], other);
    }
  }

  /** How many lines a script adds and deletes: what is not common, and above the cut-off everything. */
  lemma ScriptCounts(a: seq<string>, b: seq<string>, maxCells: nat)
    ensures |a| * |b| <= maxCells ==> Count(Script(a, b, maxCells), Add) == |b| - Lcs(a, b)
                                      && Count(Script(a, b, maxCells), Del) == |a| - Lcs(a, b)
    ensures |a| * |b| > maxCells ==> Count(Script(a, b, maxCells), Add) == |b|
                                     && Count(Script(a, b, maxCells), Del) == |a|
  {
    if |a| * |b| <= maxCells {
      BacktrackTurns(a, b);
      SideLengths(Backtrack(a, b));
    } else {
      CountConcat(Tagged(Del, a), Tagged(Add, b), Add);
      CountConcat(Tagged(Del, a), Tagged(Add, b), Del);
      TaggedCount(Del, a, Add);
      TaggedCount(Del, a, Del);
      TaggedCount(Add, b, Add);
      TaggedCount(Add, b, Del);
    }
  }

  // ----- the loops of the source -----

  method FillTable(oldLines: seq<string>, newLines: seq<string>) returns (dp: array2<nat>)
    ensures fresh(dp) && dp.Length0 == |oldLines| + 1 && dp.Length1 == |newLines| + 1
    ensures forall i, j :: 0 <= i <= |oldLines| && 0 <= j <= |newLines| ==>
              dp[i, j] == Lcs(oldLines[..i], newLines[..j])
  {
    var m, n := |oldLines|, |newLines|;
    dp := new nat[m + 1, n + 1]((_, _) => 0);
    var i := 1;
    while i <= m
      invariant 1 <= i <= m + 1
      invariant forall p, q :: 0 <= p < i && 0 <= q <= n ==> dp[p, q] == Lcs(oldLines[..p], newLines[..q])
      invariant forall p :: i <= p <= m ==> dp[p, 0] == 0
    {
      var j := 1;
      while j <= n
        invariant 1 <= j <= n + 1
        invariant forall p, q :: 0 <= p < i && 0 <= q <= n ==> dp[p, q] == Lcs(oldLines[..p], newLines[..q])
        invariant forall q :: 0 <= q < j ==> dp[i, q] == Lcs(oldLines[..i], newLines[..q])
        invariant forall p :: i < p <= m ==> dp[p, 0] == 0
      {
        assert oldLines[..i][..i - 1] == oldLines[..i - 1];
        assert newLines[..j][..j - 1] == newLines[..j - 1];
        if oldLines[i - 1] == newLines[j - 1] {
          dp[i, j] := dp[i - 1, j - 1] + 1;
        } else if dp[i - 1, j] >= dp[i, j - 1] {
          dp[i, j] := dp[i - 1, j];
        } else {
          dp[i, j] := dp[i, j - 1];
        }
        j := j + 1;
      }
      i := i + 1;
    }
  }

  method FallbackScript(oldLines: seq<string>, newLines: seq<string>) returns (ops: seq<EditOp>)
    ensures ops == Fallback(oldLines, newLines)
  {
    ops := [];
    for i := 0 to |oldLines|
      invariant ops == Tagged(Del, oldLines[..i])
    {
      ops := ops + [EditOp(Del, oldLines[i])];
    }
    for i := 0 to |newLines|
      invariant ops == Tagged(Del, oldLines) + Tagged(Add, newLines[..i])
    {
      ops := ops + [EditOp(Add, newLines[i])];
    }
  }

  /** One turn of the backtrack, in terms of the positions i and j of the loop. */
  lemma BacktrackAt(a: seq<string>, b: seq<string>, i: nat, j: nat)
    requires i <= |a| && j <= |b| && i + j > 0
    ensures Backtrack(a[..i], b[..j]) ==
            if i > 0 && j > 0 && a[i - 1] == b[j - 1] then
              Backtrack(a[..i - 1], b[..j - 1]) + [EditOp(Ctx, a[i - 1])]
            else if j > 0 && (i == 0 || Lcs(a[..i], b[..j - 1]) >= Lcs(a[..i - 1], b[..j])) then
              Backtrack(a[..i], b[..j - 1]) + [EditOp(Add, b[j - 1])]
            else
              Backtrack(a[..i - 1], b[..j]) + [EditOp(Del, a[i - 1])]
  {
    assert i > 0 ==> a[..i][..i - 1] == a[..i - 1];
    assert j > 0 ==> b[..j][..j - 1] == b[..j - 1];
  }

  /** The backtrack loop. The first `len` cells of `buf` are the growing slice of
      operations, last one first; it never needs more than m + n cells. */
  method ReadOff(oldLines: seq<string>, newLines: seq<string>, dp: array2<nat>) returns (buf: array<EditOp>, len: nat)
    requires dp.Length0 == |oldLines| + 1 && dp.Length1 == |newLines| + 1
    requires forall i, j :: 0 <= i <= |oldLines| && 0 <= j <= |newLines| ==>
               dp[i, j] == Lcs(oldLines[..i], newLines[..j])
    ensures fresh(buf) && buf.Length == |oldLines| + |newLines| && len <= buf.Length
    ensures Reverse(buf[..len]) == Backtrack(oldLines, newLines)
  {
    hide Lcs, Backtrack, Reverse;
    NothingLeft();
    var m, n := |oldLines|, |newLines|;
    buf, len := new EditOp[m + n], 0;
    var i, j := m, n;
    ghost var goal := Backtrack(oldLines[..m], newLines[..n]);
    while i > 0 || j > 0
      invariant 0 <= i <= m && 0 <= j <= n && len + i + j <= m + n
      invariant goal == Backtrack(oldLines[..i], newLines[..j]) + Reverse(buf[..len])
      decreases i + j
    {
      BacktrackAt(oldLines, newLines, i, j);
      ghost var before := buf[..len];
      ghost var cut := Backtrack(oldLines[..i], newLines[..j]);
      if i > 0 && j > 0 && oldLines[i - 1] == newLines[j - 1] {
        buf[len] := EditOp(Ctx, oldLines[i - 1]);
        i, j := i - 1, j - 1;
      } else if j > 0 && (i == 0 || dp[i, j - 1] >= dp[i - 1, j]) {
        buf[len] := EditOp(Add, newLines[j - 1]);
        j := j - 1;
      } else {
        buf[len] := EditOp(Del, oldLines[i - 1]);
        i := i - 1;
      }
      len := len + 1;
      assert buf[..len] == before + [buf[len - 1]];
      ReverseSnoc(before, buf[len - 1]);
      assert cut == Backtrack(oldLines[..i], newLines[..j]) + [buf[len - 1]];
      Regroup(Backtrack(oldLines[..i], newLines[..j]), buf[len - 1], Reverse(before));
    }
    assert oldLines[..0] == [] && newLines[..0] == [];
    assert oldLines[..m] == oldLines && newLines[..n] == newLines;
  }

  lemma Regroup<T>(a: seq<T>, x: T, b: seq<T>)
    ensures (a + [x]) + b == a + ([x] + b)
  {
  }

  lemma NothingLeft()
    ensures Backtrack([], []) == [] && Reverse<EditOp>([]) == []
  {
  }

  method ComputeEditScript(oldLines: seq<string>, newLines: seq<string>, maxCells: nat) returns (ops: seq<EditOp>)
    ensures ops == Script(oldLines, newLines, maxCells)
  {
    if |oldLines| * |newLines| > maxCells {
      ops := FallbackScript(oldLines, newLines);
    } else {
      var dp := FillTable(oldLines, newLines);
      var buf, len := ReadOff(oldLines, newLines, dp);
      ReverseSlice(buf, len);
      ops := buf[..len];
    }
  }
}
