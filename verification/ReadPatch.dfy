/** Reading a printed section back. The text of a modified file's section, together
    with the old file, determines the new file: nothing else needs to be stored. */
module ReadPatch {
  import opened EditScript
  import opened Options
  import opened Hunks
  import opened Patch
  import opened Text
  import opened FileDiff

  // ----- a reader for the printed form -----

  function Expect(s: string, token: string): Option<string> {
    if token <= s then Some(s[|token|..]) else None
  }

  function ReadNumber(s: string): Option<(nat, string)> {
    var k := Digits(s);
    if k == 0 then None
    else
      LeadingDigits(s);
      Some((Value(s[..k]), s[k..]))
  }

  lemma {:induction false} LeadingDigits(s: string)
    ensures forall c :: c in s[..Digits(s)] ==> IsDigit(c)
  {
    if s != [] && IsDigit(s[0]) {
      LeadingDigits(s[1..]);
      assert s[..Digits(s)] == [s[0]] + s[1..][..Digits(s[1..])];
    }
  }

  /** "-start,count" and "+start,count"; printed starts count from one. */
  function ReadRange(s: string): Option<(nat, nat, string)> {
    var (start, s1) :- ReadNumber(s);
    var s2 :- Expect(s1, ",");
    var (count, s3) :- ReadNumber(s2);
    if start == 0 then None else Some((start - 1, count, s3))
  }

  /** A header line gives a hunk without its lines. */
  function ReadHeader(line: string): Option<Hunk> {
    var s1 :- Expect(line, "@@ -");
    var (oldStart, oldCount, s2) :- ReadRange(s1);
    var s3 :- Expect(s2, " +");
    var (newStart, newCount, s4) :- ReadRange(s3);
    if s4 == " @@" then Some(Hunk(oldStart, oldCount, newStart, newCount, [])) else None
  }

  function ReadKind(c: char): Option<OpKind> {
    if c == ' ' then Some(Ctx) else if c == '-' then Some(Del) else if c == '+' then Some(Add) else None
  }

  /** Lines of a hunk, until the header's counts are used up. */
  function ReadBody(lines: seq<string>, o: nat, n: nat): Option<(seq<DiffLine>, seq<string>)>
    decreases |lines|
  {
    if o == 0 && n == 0 then Some(([], lines))
    else if lines == [] || lines[0] == [] then None
    else
      var kind :- ReadKind(lines[0][0]);
      if (kind != Add && o == 0) || (kind != Del && n == 0) then None
      else
        var (body, rest) :- ReadBody(lines[1..], if kind == Add then o else o - 1, if kind == Del then n else n - 1);
        Some(([DiffLine(kind, lines[0])] + body, rest))
  }

  lemma {:induction false} BodyConsumes(lines: seq<string>, o: nat, n: nat)
    ensures ReadBody(lines, o, n).Some? ==> |ReadBody(lines, o, n).value.1| <= |lines|
    decreases |lines|
  {
    if (o != 0 || n != 0) && lines != [] && lines[0] != [] && ReadKind(lines[0][0]).Some? {
      var kind := ReadKind(lines[0][0]).value;
      if (kind == Add || o != 0) && (kind == Del || n != 0) {
        BodyConsumes(lines[1..], if kind == Add then o else o - 1, if kind == Del then n else n - 1);
      }
    }
  }

  /** Hunks up to the blank line that ends a section, and what follows it. */
  function ReadHunks(lines: seq<string>): Option<(seq<Hunk>, seq<string>)>
    decreases |lines|
  {
    if lines == [] then None
    else if lines[0] == "" then Some(([], lines[1..]))
    else
      var h :- ReadHeader(lines[0]);
      var (body, rest) :- ReadBody(lines[1..], h.oldCount, h.newCount);
      BodyConsumes(lines[1..], h.oldCount, h.newCount);
      var (more, after) :- ReadHunks(rest);
      Some(([h.(lines := body)] + more, after))
  }

  lemma {:induction false} HunksConsume(lines: seq<string>)
    ensures ReadHunks(lines).Some? ==> |ReadHunks(lines).value.1| < |lines|
    decreases |lines|
  {
    if lines != [] && lines[0] != "" && ReadHeader(lines[0]).Some? {
      var h := ReadHeader(lines[0]).value;
      BodyConsumes(lines[1..], h.oldCount, h.newCount);
      if ReadBody(lines[1..], h.oldCount, h.newCount).Some? {
        HunksConsume(ReadBody(lines[1..], h.oldCount, h.newCount).value.1);
      }
    }
  }

  /** A section of a modified file: two file lines, then hunks. */
  function ReadSection(text: string): Option<seq<Hunk>> {
    var lines := Split(text, '\n');
    if |lines| < 2 then None
    else
      var (hunks, _) :- ReadHunks(lines[2..]);
      Some(hunks)
  }

  // ----- reading what was printed -----

  lemma NumberRead(n: nat, rest: string)
    requires rest != [] && !IsDigit(rest[0])
    ensures ReadNumber(Decimal(n) + rest) == Some((n, rest))
  {
    DigitsOf(Decimal(n), rest);
    ValueOfDecimal(n);
    assert (Decimal(n) + rest)[..|Decimal(n)|] == Decimal(n);
    assert (Decimal(n) + rest)[|Decimal(n)|..] == rest;
  }

  lemma TokenRead(token: string, rest: string)
    ensures Expect(token + rest, token) == Some(rest)
  {
  }

  lemma RangeRead(start: nat, count: nat, rest: string)
    requires rest != [] && !IsDigit(rest[0])
    ensures ReadRange(Range(start, count, rest)) == Some((start, count, rest))
  {
    NumberRead(start + 1, "," + (Decimal(count) + rest));
    TokenRead(",", Decimal(count) + rest);
    NumberRead(count, rest);
  }

  lemma HeaderRead(h: Hunk)
    ensures ReadHeader(Header(h)) == Some(h.(lines := []))
  {
    var tail := Range(h.newStart, h.newCount, " @@");
    TokenRead("@@ -", Range(h.oldStart, h.oldCount, " +" + tail));
    RangeRead(h.oldStart, h.oldCount, " +" + tail);
    TokenRead(" +", tail);
    RangeRead(h.newStart, h.newCount, " @@");
  }

  lemma RangeOneLine(start: nat, count: nat, rest: string)
    requires '\n' !in rest
    ensures '\n' !in Range(start, count, rest)
  {
    assert '\n' !in Decimal(count) by { assert !IsDigit('\n'); }
    assert '\n' !in Decimal(start + 1) by { assert !IsDigit('\n'); }
  }

  lemma HeaderOneLine(h: Hunk)
    ensures '\n' !in Header(h)
  {
    RangeOneLine(h.newStart, h.newCount, " @@");
    RangeOneLine(h.oldStart, h.oldCount, " +" + Range(h.newStart, h.newCount, " @@"));
  }

  lemma BodyStep(kind: OpKind, line: string, lines: seq<string>, o: nat, n: nat, body: seq<DiffLine>, more: seq<string>)
    requires ReadBody(lines, o, n) == Some((body, more))
    ensures ReadBody([[Prefix(kind)] + line] + lines, if kind == Add then o else o + 1,
              if kind == Del then n else n + 1)
            == Some(([DiffLine(kind, [Prefix(kind)] + line)] + body, more))
  {
    var text := [Prefix(kind)] + line;
    assert ([text] + lines)[1..] == lines && ([text] + lines)[0] == text;
    assert text[0] == Prefix(kind);
  }

  lemma FirstLine(ops: seq<EditOp>)
    requires ops != []
    ensures var op, rest := ops[0], ops[1..];
            && |OldSide(ops)| == |OldSide(rest)| + (if op.kind == Add then 0 else 1)
            && |NewSide(ops)| == |NewSide(rest)| + (if op.kind == Del then 0 else 1)
            && PrintAll(ops) == [Print(op)] + PrintAll(rest)
            && Texts(PrintAll(ops)) == [Print(op).text] + Texts(PrintAll(rest))
  {
    var op, rest := ops[0], ops[1..];
    assert ops == [op] + rest;
    SidesConcat([op], rest);
    OneOp(op);
  }

  lemma OneOp(op: EditOp)
    ensures |OldSide([op])| == if op.kind == Add then 0 else 1
    ensures |NewSide([op])| == if op.kind == Del then 0 else 1
  {
    assert [op][..0] == [];
  }

  lemma ConsAppend<T>(x: T, a: seq<T>, b: seq<T>)
    ensures [x] + a + b == [x] + (a + b)
  {
  }

  lemma NothingToRead(more: seq<string>)
    ensures ReadBody(Texts(PrintAll([])) + more, |OldSide([])|, |NewSide([])|) == Some((PrintAll([]), more))
  {
    assert Texts(PrintAll([])) + more == more;
  }

  lemma {:induction false} BodyRead(ops: seq<EditOp>, more: seq<string>)
    ensures ReadBody(Texts(PrintAll(ops)) + more, |OldSide(ops)|, |NewSide(ops)|) == Some((PrintAll(ops), more))
    decreases |ops|
  {
    hide ReadBody, Texts, PrintAll, OldSide, NewSide;
    if ops == [] {
      NothingToRead(more);
    } else {
      var op, rest := ops[0], ops[1..];
      BodyRead(rest, more);
      FirstLine(ops);
      BodyStep(op.kind, op.line, Texts(PrintAll(rest)) + more, |OldSide(rest)|, |NewSide(rest)|, PrintAll(rest), more);
      ConsAppend(Print(op).text, Texts(PrintAll(rest)), more);
    }
  }

  lemma {:induction false} HunkLinesCons(h: Hunk, hs: seq<Hunk>)
    ensures HunkLines([h] + hs) == [Header(h)] + Texts(h.lines) + HunkLines(hs)
    decreases |hs|
  {
    if hs == [] {
      assert [h] + hs == [h];
      assert HunkLines([h][..0]) == [];
    } else {
      var init, last := hs[..|hs| - 1], hs[|hs| - 1];
      HunkLinesCons(h, init);
      assert ([h] + hs)[..|hs|] == [h] + init;
    }
  }

  /** One printed hunk is read back, and what follows it is left. */
  lemma HunkRead(ops: seq<EditOp>, b: Block, more: seq<string>)
    requires b.lo < b.hi <= |ops|
    ensures var h := HunkAt(ops, b);
            var lines := [Header(h)] + (Texts(h.lines) + more);
            && lines[0] != "" && ReadHeader(lines[0]) == Some(h.(lines := []))
            && ReadBody(lines[1..], h.oldCount, h.newCount) == Some((h.lines, more))
  {
    var h := HunkAt(ops, b);
    HeaderRead(h);
    BodyRead(ops[b.lo..b.hi], more);
    assert ([Header(h)] + (Texts(h.lines) + more))[1..] == Texts(h.lines) + more;
  }

  lemma HunksStep(h: Hunk, lines: seq<string>, hs: seq<Hunk>, rest: seq<string>, more: seq<string>)
    requires lines != [] && lines[0] != "" && ReadHeader(lines[0]) == Some(h.(lines := []))
    requires ReadBody(lines[1..], h.oldCount, h.newCount) == Some((h.lines, rest))
    requires ReadHunks(rest) == Some((hs, more))
    ensures ReadHunks(lines) == Some(([h] + hs, more))
  {
  }

  lemma FirstHunkLines(h: Hunk, rest: seq<Hunk>, tail: seq<string>)
    ensures HunkLines([h] + rest) + tail == [Header(h)] + (Texts(h.lines) + (HunkLines(rest) + tail))
  {
    HunkLinesCons(h, rest);
  }

  lemma {:induction false} HunksRead(ops: seq<EditOp>, bs: seq<Block>, more: seq<string>)
    requires Within(bs, |ops|)
    ensures ReadHunks(HunkLines(HunksAt(ops, bs)) + ([""] + more)) == Some((HunksAt(ops, bs), more))
    decreases |bs|
  {
    if bs == [] {
      NoHunksRead(more);
      assert HunksAt(ops, bs) == [];
    } else {
      var h, rest := HunkAt(ops, bs[0]), HunksAt(ops, bs[1..]);
      var after := HunkLines(rest) + ([""] + more);
      HunksCons(ops, bs);
      HunkRead(ops, bs[0], after);
      HunksRead(ops, bs[1..], more);
      HunksStep(h, [Header(h)] + (Texts(h.lines) + after), rest, after, more);
      FirstHunkLines(h, rest, [""] + more);
    }
  }

  lemma NoHunksRead(more: seq<string>)
    ensures ReadHunks(HunkLines([]) + ([""] + more)) == Some(([], more))
  {
    assert HunkLines([]) + ([""] + more) == [""] + more;
  }

  // ----- no printed line holds a newline -----

  ghost predicate OneLineEach(lines: seq<string>) {
    forall l :: l in lines ==> '\n' !in l
  }

  lemma {:induction false} SidesOneLine(ops: seq<EditOp>)
    requires OneLineEach(OldSide(ops)) && OneLineEach(NewSide(ops))
    ensures forall i :: 0 <= i < |ops| ==> '\n' !in ops[i].line
  {
    if ops != [] {
      var rest, last := ops[..|ops| - 1], ops[|ops| - 1];
      assert forall l :: l in OldSide(rest) ==> l in OldSide(ops);
      assert forall l :: l in NewSide(rest) ==> l in NewSide(ops);
      SidesOneLine(rest);
      assert last.kind != Add ==> OldSide(ops)[|OldSide(ops)| - 1] == last.line;
      assert last.kind == Add ==> NewSide(ops)[|NewSide(ops)| - 1] == last.line;
      assert last.line in OldSide(ops) || last.line in NewSide(ops);
    }
  }

  lemma TextsOneLine(ops: seq<EditOp>)
    requires forall i :: 0 <= i < |ops| ==> '\n' !in ops[i].line
    ensures OneLineEach(Texts(PrintAll(ops)))
  {
    forall l | l in Texts(PrintAll(ops))
      ensures '\n' !in l
    {
      var i :| 0 <= i < |ops| && l == Texts(PrintAll(ops))[i];
      assert l == [Prefix(ops[i].kind)] + ops[i].line;
    }
  }

  lemma OneLineConcat(a: seq<string>, b: seq<string>)
    requires OneLineEach(a) && OneLineEach(b)
    ensures OneLineEach(a + b)
  {
  }

  lemma {:induction false} HunkLinesOneLine(ops: seq<EditOp>, bs: seq<Block>)
    requires Within(bs, |ops|)
    requires forall i :: 0 <= i < |ops| ==> '\n' !in ops[i].line
    ensures OneLineEach(HunkLines(HunksAt(ops, bs)))
    decreases |bs|
  {
    if bs == [] {
      assert HunkLines(HunksAt(ops, bs)) == [];
    } else {
      var h, rest := HunkAt(ops, bs[0]), HunksAt(ops, bs[1..]);
      HunksCons(ops, bs);
      HunkLinesCons(h, rest);
      HunkLinesOneLine(ops, bs[1..]);
      HeaderOneLine(h);
      TextsOneLine(ops[bs[0].lo..bs[0].hi]);
      OneLineConcat([Header(h)], Texts(h.lines));
      OneLineConcat([Header(h)] + Texts(h.lines), HunkLines(rest));
    }
  }

  lemma FileHunkLines(oldContent: string, newContent: string)
    ensures OneLineEach(HunkLines(FileHunks(oldContent, newContent)))
    ensures forall more :: ReadHunks(HunkLines(FileHunks(oldContent, newContent)) + ([""] + more))
                           == Some((FileHunks(oldContent, newContent), more))
  {
    var a, b := Lines(oldContent), Lines(newContent);
    var ops := Script(a, b, MAX_CELLS);
    var bs := Runs(Mask(ops, CONTEXT_LINES), |ops|);
    JoinSplit(oldContent, '\n');
    JoinSplit(newContent, '\n');
    ScriptTurns(a, b, MAX_CELLS);
    SidesOneLine(ops);
    HunkLinesOneLine(ops, bs);
    forall more
      ensures ReadHunks(HunkLines(HunksAt(ops, bs)) + ([""] + more)) == Some((HunksAt(ops, bs), more))
    {
      HunksRead(ops, bs, more);
    }
  }

  /** The section of a modified file, read as text, gives back its hunks. */
  lemma SectionRead(path: string, oldFiles: Files, newFiles: Files)
    requires path in oldFiles && path in newFiles && oldFiles[path] != newFiles[path]
    requires '\n' !in path
    ensures ReadSection(SectionOf(path, oldFiles, newFiles).text) == Some(FileHunks(oldFiles[path], newFiles[path]))
  {
    var body := HunkLines(FileHunks(oldFiles[path], newFiles[path]));
    var heads := ["--- a/" + path, "+++ b/" + path];
    hide ReadSection, ReadHunks, HunkLines, FileHunks, Unlines;
    FileHunkLines(oldFiles[path], newFiles[path]);
    HeadsOneLine(path);
    WrittenRead(heads, body, FileHunks(oldFiles[path], newFiles[path]));
  }

  lemma HeadsOneLine(path: string)
    requires '\n' !in path
    ensures OneLineEach(["--- a/" + path, "+++ b/" + path])
  {
  }

  lemma WrittenRead(heads: seq<string>, body: seq<string>, hs: seq<Hunk>)
    requires |heads| == 2 && OneLineEach(heads) && OneLineEach(body)
               && ReadHunks(body + ([""] + [""])) == Some((hs, [""]))
    ensures ReadSection(Unlines(heads + body + [""])) == Some(hs)
  {
    hide ReadHunks, Unlines, Split;
    OneLineConcat(heads, body);
    OneLineConcat(heads + body, [""]);
    SplitUnlines(heads + body + [""]);
    assert (heads + body + [""] + [""])[2..] == body + ([""] + [""]);
  }

  /** From the printed text alone: applied to the old content it gives the new
      content, and applied in reverse to the new content it gives the old. */
  lemma TextRebuildsFile(path: string, oldFiles: Files, newFiles: Files)
    requires path in oldFiles && path in newFiles && oldFiles[path] != newFiles[path]
    requires '\n' !in path
    ensures var hs := ReadSection(SectionOf(path, oldFiles, newFiles).text);
            && hs.Some?
            && Apply(Lines(oldFiles[path]), hs.value, 0, 0) == Some(Lines(newFiles[path]))
            && Apply(Lines(newFiles[path]), FlipHunks(hs.value), 0, 0) == Some(Lines(oldFiles[path]))
            && Join(Lines(newFiles[path]), '\n') == newFiles[path]
            && Join(Lines(oldFiles[path]), '\n') == oldFiles[path]
  {
    SectionRead(path, oldFiles, newFiles);
    PatchForward(Lines(oldFiles[path]), Lines(newFiles[path]), CONTEXT_LINES, MAX_CELLS);
    PatchBackward(Lines(oldFiles[path]), Lines(newFiles[path]), CONTEXT_LINES, MAX_CELLS);
    JoinSplit(oldFiles[path], '\n');
    JoinSplit(newFiles[path], '\n');
  }
}
