/** The shape of the hunks: what is merged, what is split, how much context is shown. */
module HunkShape {
  import opened EditScript
  import opened Hunks

  /** Two consecutive changes stay in one hunk exactly when at most 3c + 1 context
      lines lie between them. */
  lemma MergedIffClose(ops: seq<EditOp>, c: nat, p: nat, q: nat)
    requires p < q && ChangeAt(ops, p) && ChangeAt(ops, q)
    requires forall i :: p < i < q ==> !ChangeAt(ops, i)
    ensures (forall i :: p < i < q ==> Kept(ops, c, i)) <==> q - p - 1 <= 3 * c + 1
  {
    if q - p - 1 <= 3 * c + 1 {
      forall i | p < i < q
        ensures Kept(ops, c, i)
      {
        assert Bridged(ops, c, i);
      }
    } else {
      assert !Kept(ops, c, p + c + 1);
    }
  }

  lemma MaskRuns(ops: seq<EditOp>, c: nat, i: nat)
    ensures Covered(Runs(Mask(ops, c), |ops|), i) <==> i < |ops| && Kept(ops, c, i)
  {
    RunsCover(Mask(ops, c), |ops|, i);
  }

  lemma NeighboursUncovered(bs: seq<Block>, n: nat, k: nat)
    requires Within(bs, n) && k < |bs| && forall k :: 0 <= k < |bs| - 1 ==> bs[k].hi < bs[k + 1].lo
    ensures !Covered(bs, bs[k].lo - 1) && !Covered(bs, bs[k].hi)
    ensures forall i :: bs[k].lo <= i < bs[k].hi ==> Covered(bs, i)
    ensures forall j :: 0 <= j < |bs| && j != k ==> bs[j].hi < bs[k].lo || bs[k].hi < bs[j].lo
  {
    Ordered(bs, n);
  }

  lemma RunEdges(keep: seq<bool>, k: nat)
    requires k < |Runs(keep, |keep|)|
    ensures var b := Runs(keep, |keep|)[k];
            && (b.lo > 0 ==> !keep[b.lo - 1]) && (b.hi < |keep| ==> !keep[b.hi])
            && keep[b.lo] && keep[b.hi - 1]
  {
    var bs := Runs(keep, |keep|);
    RunsAreSeparated(keep, |keep|);
    forall i: nat
      ensures Covered(bs, i) <==> i < |keep| && keep[i]
    {
      RunsCover(keep, |keep|, i);
    }
    NeighboursUncovered(bs, |keep|, k);
  }

  /** The operation before a hunk, and the one after it, is not printed; the first and last are. */
  lemma Edges(ops: seq<EditOp>, c: nat, k: nat)
    requires k < |Runs(Mask(ops, c), |ops|)|
    ensures var b := Runs(Mask(ops, c), |ops|)[k];
            && (b.lo > 0 ==> !Kept(ops, c, b.lo - 1))
            && (b.hi < |ops| ==> !Kept(ops, c, b.hi))
            && Kept(ops, c, b.lo) && Kept(ops, c, b.hi - 1)
  {
    RunEdges(Mask(ops, c), k);
  }

  lemma Ordered(bs: seq<Block>, n: nat)
    requires Within(bs, n) && forall k :: 0 <= k < |bs| - 1 ==> bs[k].hi < bs[k + 1].lo
    ensures forall j, k :: 0 <= j < k < |bs| ==> bs[j].hi < bs[k].lo
  {
    forall j, k | 0 <= j < k < |bs|
      ensures bs[j].hi < bs[k].lo
    {
      OrderedAt(bs, n, j, k);
    }
  }

  lemma {:induction false} OrderedAt(bs: seq<Block>, n: nat, j: nat, k: nat)
    requires Within(bs, n) && forall k :: 0 <= k < |bs| - 1 ==> bs[k].hi < bs[k + 1].lo
    requires j < k < |bs|
    ensures bs[j].hi < bs[k].lo
  {
    if j + 1 < k {
      OrderedAt(bs, n, j, k - 1);
      assert bs[k - 1].hi < bs[k - 1 + 1].lo;
    } else {
      assert bs[j].hi < bs[j + 1].lo;
    }
  }

  /** Every hunk starts with c context lines, or with all there are at the top of the file,
      and ends the same way; in particular it contains a change. */
  lemma ExactContext(ops: seq<EditOp>, c: nat, k: nat) returns (p: int, q: int)
    requires k < |Runs(Mask(ops, c), |ops|)|
    ensures var b := Runs(Mask(ops, c), |ops|)[k];
            && ChangeAt(ops, p) && ChangeAt(ops, q) && b.lo <= p <= q < b.hi
            && (forall i :: b.lo <= i < b.hi && ChangeAt(ops, i) ==> p <= i <= q)
            && b.lo == (if p < c then 0 else p - c)
            && b.hi == (if q + c + 1 > |ops| then |ops| else q + c + 1)
  {
    var b := Runs(Mask(ops, c), |ops|)[k];
    Edges(ops, c, k);
    p := FirstChange(ops, c, b);
    q := LastChange(ops, c, b);
    p := Earliest(ops, b.lo, p);
    q := Latest(ops, b.hi, q);
    hide Bridged;
    if b.lo > 0 {
      assert b.lo - 1 >= p - c ==> Near(ops, c, b.lo - 1);
    }
    if b.hi < |ops| {
      assert b.hi <= q + c ==> Near(ops, c, b.hi);
    }
  }

  lemma Earliest(ops: seq<EditOp>, lo: nat, at: int) returns (p: int)
    requires lo <= at && ChangeAt(ops, at)
    ensures lo <= p <= at && ChangeAt(ops, p) && forall i :: lo <= i < p ==> !ChangeAt(ops, i)
    decreases at
  {
    p := at;
    if i :| lo <= i < at && ChangeAt(ops, i) {
      p := Earliest(ops, lo, i);
    }
  }

  lemma Latest(ops: seq<EditOp>, hi: nat, at: int) returns (q: int)
    requires at < hi <= |ops| && ChangeAt(ops, at)
    ensures at <= q < hi && ChangeAt(ops, q) && forall i :: q < i < hi ==> !ChangeAt(ops, i)
    decreases hi - at
  {
    q := at;
    if i :| at < i < hi && ChangeAt(ops, i) {
      q := Latest(ops, hi, i);
    }
  }

  lemma BridgedSpreads(ops: seq<EditOp>, c: nat, i: int)
    ensures Bridged(ops, c, i) ==> Kept(ops, c, i - 1) && Kept(ops, c, i + 1)
  {
    if Bridged(ops, c, i) {
      var p, q :| p < i < q && ChangeAt(ops, p) && ChangeAt(ops, q) && q - p - 1 <= 3 * c + 1;
      assert if p == i - 1 then Near(ops, c, i - 1) else p < i - 1 < q;
      assert if q == i + 1 then Near(ops, c, i + 1) else p < i + 1 < q;
    }
  }

  lemma NearSpreads(ops: seq<EditOp>, c: nat, i: int, j: int, k: int)
    requires ChangeAt(ops, j) && i - c <= j <= i + c
    ensures (j <= k <= i) || (i <= k <= j) ==> Near(ops, c, k)
  {
  }

  lemma FirstChange(ops: seq<EditOp>, c: nat, b: Block) returns (p: int)
    requires b.lo < b.hi <= |ops| && Kept(ops, c, b.lo)
    requires b.lo > 0 ==> !Kept(ops, c, b.lo - 1)
    requires b.hi < |ops| ==> !Kept(ops, c, b.hi)
    ensures ChangeAt(ops, p) && b.lo <= p < b.hi && p <= b.lo + c
  {
    BridgedSpreads(ops, c, b.lo);
    p :| ChangeAt(ops, p) && b.lo - c <= p <= b.lo + c;
    NearSpreads(ops, c, b.lo, p, b.lo - 1);
    NearSpreads(ops, c, b.lo, p, b.hi);
  }

  lemma LastChange(ops: seq<EditOp>, c: nat, b: Block) returns (q: int)
    requires b.lo < b.hi <= |ops| && Kept(ops, c, b.hi - 1)
    requires b.lo > 0 ==> !Kept(ops, c, b.lo - 1)
    requires b.hi < |ops| ==> !Kept(ops, c, b.hi)
    ensures ChangeAt(ops, q) && b.lo <= q < b.hi && b.hi - 1 <= q + c
  {
    BridgedSpreads(ops, c, b.hi - 1);
    q :| ChangeAt(ops, q) && b.hi - 1 - c <= q <= b.hi - 1 + c;
    NearSpreads(ops, c, b.hi - 1, q, b.lo - 1);
    NearSpreads(ops, c, b.hi - 1, q, b.hi);
  }

  /** Every change is printed in exactly one hunk. */
  lemma EveryChangeInOneHunk(ops: seq<EditOp>, c: nat, i: nat) returns (k: nat)
    requires ChangeAt(ops, i)
    ensures var bs := Runs(Mask(ops, c), |ops|);
            && k < |bs| && bs[k].lo <= i < bs[k].hi
            && forall j :: 0 <= j < |bs| && j != k ==> !(bs[j].lo <= i < bs[j].hi)
  {
    assert Near(ops, c, i);
    MaskRuns(ops, c, i);
    k := UniqueBlock(Mask(ops, c), |ops|, i);
  }

  lemma UniqueBlock(keep: seq<bool>, n: nat, i: nat) returns (k: nat)
    requires n <= |keep| && Covered(Runs(keep, n), i)
    ensures var bs := Runs(keep, n);
            && k < |bs| && bs[k].lo <= i < bs[k].hi
            && forall j :: 0 <= j < |bs| && j != k ==> !(bs[j].lo <= i < bs[j].hi)
  {
    var bs := Runs(keep, n);
    k :| 0 <= k < |bs| && bs[k].lo <= i < bs[k].hi;
    RunsAreSeparated(keep, n);
    NeighboursUncovered(bs, n, k);
  }
}
