/**
 What each of the two splitters does with blocks and with empty lines, for Splitters.

 The streaming splitter stops at the first empty block (StopsAt, EmptyBlockEnds). On a block of trimmed
 lines in front both do the same (BlockIsParsed, and BlockIsStreamed of TimedFrames). The whole-file
 splitter skips two empty lines as one empty piece (PairIsSkipped), and takes a single one for the time
 of the next block (OddLineFails). FirstBlock cuts a log behind its first block, and BlockShifts says that
 nothing of the condition under which both agree is lost by that.
 */
module SplitterSteps {
  import opened Wrappers
  import opened Text
  import opened TimedFrames

  // ---- where the streaming splitter stops ------------------------------------------------

  // An empty line with nothing before it but another empty line, or the start.
  predicate StopsAt(lines: seq<string>, i: nat) {
    i < |lines| && lines[i] == "" && (i == 0 || lines[i - 1] == "")
  }

  // The first line of a block.
  predicate HeadAt(lines: seq<string>, i: nat) {
    i < |lines| && lines[i] != "" && (i == 0 || lines[i - 1] == "")
  }

  // A block in front of the stop has no number for a time.
  ghost predicate BadHead(lines: seq<string>) {
    exists i: nat :: HeadAt(lines, i) && !Digits(lines[i]) && forall j: nat | j < i :: !StopsAt(lines, j)
  }

  // There is something behind the stop.
  ghost predicate GoesOn(lines: seq<string>) {
    exists i: nat, j: nat :: StopsAt(lines, i) && i < j < |lines| && lines[j] != ""
  }

  // Every block has its empty line.
  predicate Closed(lines: seq<string>) { lines == [] || lines[|lines| - 1] == "" }

  ghost predicate TrimmedLines(lines: seq<string>) { forall l <- lines :: OneLine(l) && Trimmed(l) }

  // ---- a block in front ------------------------------------------------------------------

  // A block without the empty line that ends it.
  function Joined(block: seq<string>): string
    requires block != []
  {
    block[0] + Tail(block[1..])
  }

  lemma BlockText(block: seq<string>, rest: string)
    requires block != []
    ensures Body(block) + "\n" + rest == Joined(block) + "\n\n" + rest
  {
    BodyIsTail(block[1..]);
    calc {
      Body(block) + "\n";
      block[0] + "\n" + Body(block[1..]) + "\n";
      block[0] + ("\n" + Body(block[1..])) + "\n";
      block[0] + (Tail(block[1..]) + "\n") + "\n";
      Joined(block) + ("\n" + "\n");
      { assert "\n" + "\n" == "\n\n"; }
      Joined(block) + "\n\n";
    }
  }

  lemma JoinedIsTight(block: seq<string>)
    requires Block(block)
    ensures Tight(Joined(block)) && Joined(block) != "" && !Blank(Joined(block)[0])
  {
    assert block[0] in block;
    forall l <- block[1..] ensures OneLine(l) && l != "" {
      assert l in block;
    }
    TailIsTight(block[0], block[1..]);
  }

  lemma TightIsKept(p: string)
    requires Tight(p) && Trim(p) != ""
    ensures Kept(p)
  {
    if |p| >= |STOPPED| {
      assert p[|p| - |STOPPED|..][|STOPPED| - 1] == p[|p| - 1];
    }
  }

  lemma TrimStops(s: string)
    requires s != "" && !Blank(s[0])
    ensures Trim(s) != "" && Trim("\n" + s) != ""
  {
    TrimRightStops(s);
    assert Blank('\n') && ("\n" + s)[1..] == s;
    assert TrimLeft("\n" + s) == TrimLeft(s) == s;
  }

  lemma BlockIsParsed(block: seq<string>, rest: string)
    requires Block(block)
    ensures Parse(Body(block) + "\n" + rest) == Prepend(ParseLines(block), Parse(rest))
  {
    var p := Joined(block);
    BlockText(block, rest);
    JoinedIsTight(block);
    TrimStops(p);
    TightIsKept(p);
    assert block[0] in block && [block[0]] + block[1..] == block;
    SplitLines(block[0], block[1..]);
    SplitPiece(p, rest);
    PiecesFirst(p, Split(rest, "\n\n"));
  }

  // ---- behind the stop -------------------------------------------------------------------

  // An empty block ends the log for the streaming splitter.
  lemma EmptyBlockEnds(rest: string)
    ensures Stream(Lines("\n" + rest)) == Ok([])
  {
    LinesFirst("", rest);
    assert "" + "\n" == "\n";
  }

  // Two empty lines are one empty piece, which is skipped.
  lemma PairIsSkipped(rest: string)
    ensures Parse("\n" + ("\n" + rest)) == Parse(rest)
  {
    SplitPiece("", rest);
    assert "" + "\n\n" + rest == "\n" + ("\n" + rest);
    PiecesFirst("", Split(rest, "\n\n"));
  }

  // A single empty line becomes part of the next block and takes the place of its time.
  lemma OddLineFails(block: seq<string>, rest: string)
    requires Block(block)
    ensures Parse("\n" + (Body(block) + "\n" + rest)) == Err
  {
    var p := Joined(block);
    BlockText(block, rest);
    JoinedIsTight(block);
    Shift("\n", p, "\n\n", rest);
    Cat("\n" + p, "\n\n", rest);
    TimelessPiece(p);
    SplitPiece("\n" + p, rest);
    PiecesFirst("\n" + p, Split(rest, "\n\n"));
  }

  lemma TimelessPiece(p: string)
    requires Tight(p) && p != "" && !Blank(p[0])
    ensures Tight("\n" + p) && Kept("\n" + p) && ParseLines(Split("\n" + p, "\n")) == Err
  {
    assert Blank('\n');
    TrimStops(p);
    TightAfter(p);
    TightIsKept("\n" + p);
    OneLineSplit("", p);
    assert "" + "\n" + p == "\n" + p;
  }

  lemma PrependIsMore(f: Result<Frame>, more: Result<seq<Frame>>)
    ensures Prepend(f, more) != Ok([])
  {
  }

  lemma TightAfter(p: string)
    requires Tight(p) && p != "" && p[0] != '\n'
    ensures Tight("\n" + p)
  {
    var s := "\n" + p;
    forall j | 0 < j < |s| && s[j] == '\n' ensures s[j - 1] != '\n' {
      if j > 1 {
        assert s[j] == p[j - 1] && s[j - 1] == p[j - 2];
      }
    }
    assert s[|s| - 1] == p[|p| - 1];
  }

  // Cuts a log behind its first block.
  lemma {:induction false} FirstBlock(lines: seq<string>) returns (block: seq<string>, rest: seq<string>)
    requires TrimmedLines(lines) && Closed(lines) && lines != [] && lines[0] != ""
    ensures Block(block) && lines == block + [""] + rest && TrimmedLines(rest) && Closed(rest)
  {
    assert lines[0] in lines && lines[1] in lines;
    if lines[1] == "" {
      block, rest := [lines[0]], lines[2..];
    } else {
      block, rest := FirstBlock(lines[1..]);
      block := [lines[0]] + block;
    }
  }

  lemma {:induction false} BodyOf(a: seq<string>, b: seq<string>)
    ensures Body(a + b) == Body(a) + Body(b)
  {
    if a == [] {
      assert a + b == b;
    } else {
      assert (a + b)[1..] == a[1..] + b;
      BodyOf(a[1..], b);
      Shift("", a[0] + "\n", Body(a[1..]), Body(b));
    }
  }

  lemma BodyOfBlock(block: seq<string>, rest: seq<string>)
    ensures Body(block + [""] + rest) == Body(block) + "\n" + Body(rest)
  {
    Cat(block, [""], rest);
    BodyOf(block, [""] + rest);
    assert ([""] + rest)[1..] == rest;
    assert "" + "\n" + Body(rest) == "\n" + Body(rest);
    Cat(Body(block), "\n", Body(rest));
  }

  lemma BodyOfEmpty(lines: seq<string>)
    requires lines != [] && lines[0] == ""
    ensures Body(lines) == "\n" + Body(lines[1..])
  {
    assert "" + "\n" == "\n";
  }

  ghost predicate AllEmpty(lines: seq<string>) { forall l <- lines :: l == "" }

  lemma {:induction false} EmptyPair(lines: seq<string>)
    requires |lines| >= 2 && lines[0] == "" && lines[1] == ""
    ensures Parse(Body(lines)) == Parse(Body(lines[2..]))
    ensures AllEmpty(lines) <==> AllEmpty(lines[2..])
    ensures forall l <- lines[2..] :: l in lines
  {
    PairText(lines);
    PairIsSkipped(Body(lines[2..]));
    PairLines(lines);
  }

  lemma PairText(lines: seq<string>)
    requires |lines| >= 2 && lines[0] == "" && lines[1] == ""
    ensures Body(lines) == "\n" + ("\n" + Body(lines[2..]))
  {
    BodyOfEmpty(lines);
    BodyOfEmpty(lines[1..]);
    assert lines[1..][1..] == lines[2..];
  }

  lemma PairLines(lines: seq<string>)
    requires |lines| >= 2 && lines[0] == "" && lines[1] == ""
    ensures AllEmpty(lines) <==> AllEmpty(lines[2..])
    ensures forall l <- lines[2..] :: l in lines
  {
    forall l <- lines[2..] ensures l in lines {
    }
    forall l <- lines ensures l == "" || l in lines[2..] {
      var i :| 0 <= i < |lines| && lines[i] == l;
      if i >= 2 {
        assert lines[2..][i - 2] == l;
      }
    }
  }

  lemma {:induction false} OddLine(lines: seq<string>)
    requires TrimmedLines(lines) && Closed(lines) && |lines| >= 2 && lines[0] == "" && lines[1] != ""
    ensures Parse(Body(lines)) == Err && !AllEmpty(lines)
  {
    BodyOfEmpty(lines);
    assert lines[1] in lines && forall l <- lines[1..] :: l in lines;
    var block, rest := FirstBlock(lines[1..]);
    BodyOfBlock(block, rest);
    OddLineFails(block, Body(rest));
  }

  // ---- the splitters agree ---------------------------------------------------------------

  lemma BlockShifts(block: seq<string>, rest: seq<string>)
    requires Block(block)
    ensures BadHead(block + [""] + rest) <==> !Digits(block[0]) || BadHead(rest)
    ensures GoesOn(block + [""] + rest) <==> GoesOn(rest)
  {
    var lines, n := block + [""] + rest, |block| + 1;
    forall i: nat ensures StopsAt(lines, n + i) <==> StopsAt(rest, i)
      ensures HeadAt(lines, n + i) <==> HeadAt(rest, i)
    {
      ShiftedLine(block, rest, i);
    }
    forall i: nat | i < n ensures !StopsAt(lines, i) && (HeadAt(lines, i) <==> i == 0) {
      FrontLine(block, rest, i);
    }
    HeadShifts(lines, rest, n);
    StopShifts(lines, rest, n);
  }

  lemma ShiftedLine(block: seq<string>, rest: seq<string>, i: nat)
    requires Block(block)
    ensures var lines, n := block + [""] + rest, |block| + 1;
      && (StopsAt(lines, n + i) <==> StopsAt(rest, i)) && (HeadAt(lines, n + i) <==> HeadAt(rest, i))
  {
    var lines, n := block + [""] + rest, |block| + 1;
    if i < |rest| {
      assert lines[n + i] == rest[i];
      assert lines[n + i - 1] == if i == 0 then "" else rest[i - 1];
    }
  }

  lemma FrontLine(block: seq<string>, rest: seq<string>, i: nat)
    requires Block(block) && i <= |block|
    ensures !StopsAt(block + [""] + rest, i) && (HeadAt(block + [""] + rest, i) <==> i == 0)
  {
    var lines := block + [""] + rest;
    if i < |block| {
      assert lines[i] == block[i] && block[i] in block;
    }
    if i > 0 {
      assert lines[i - 1] == block[i - 1] && block[i - 1] in block;
    }
  }

  lemma HeadShifts(lines: seq<string>, rest: seq<string>, n: nat)
    requires 0 < n <= |lines| && lines[n..] == rest
    requires forall i: nat :: StopsAt(lines, n + i) <==> StopsAt(rest, i)
    requires forall i: nat :: HeadAt(lines, n + i) <==> HeadAt(rest, i)
    requires forall i: nat | i < n :: !StopsAt(lines, i) && (HeadAt(lines, i) <==> i == 0)
    ensures BadHead(lines) <==> !Digits(lines[0]) || BadHead(rest)
  {
    if BadHead(lines) && Digits(lines[0]) {
      var i: nat :| HeadAt(lines, i) && !Digits(lines[i]) && forall j: nat | j < i :: !StopsAt(lines, j);
      assert i >= n;
      assert HeadAt(lines, n + (i - n));
      assert HeadAt(rest, i - n) && rest[i - n] == lines[i];
      forall j: nat | j < i - n ensures !StopsAt(rest, j) {
        assert !StopsAt(lines, n + j);
      }
    }
    if BadHead(rest) {
      var i: nat :| HeadAt(rest, i) && !Digits(rest[i]) && forall j: nat | j < i :: !StopsAt(rest, j);
      assert HeadAt(lines, n + i) && rest[i] == lines[n + i];
      forall j: nat | j < n + i ensures !StopsAt(lines, j) {
        if j >= n {
          assert StopsAt(lines, n + (j - n)) <==> StopsAt(rest, j - n);
        }
      }
    }
    if !Digits(lines[0]) {
      assert HeadAt(lines, 0);
    }
  }

  lemma StopShifts(lines: seq<string>, rest: seq<string>, n: nat)
    requires n <= |lines| && lines[n..] == rest
    requires forall i: nat :: StopsAt(lines, n + i) <==> StopsAt(rest, i)
    requires forall i: nat | i < n :: !StopsAt(lines, i)
    ensures GoesOn(lines) <==> GoesOn(rest)
  {
    if GoesOn(lines) {
      var i: nat, j: nat :| StopsAt(lines, i) && i < j < |lines| && lines[j] != "";
      assert StopsAt(lines, n + (i - n)) <==> StopsAt(rest, i - n);
      assert rest[j - n] == lines[j];
    }
    if GoesOn(rest) {
      var i: nat, j: nat :| StopsAt(rest, i) && i < j < |rest| && rest[j] != "";
      assert StopsAt(lines, n + i) && lines[n + j] == rest[j];
    }
  }

  lemma StopsAtOnce(lines: seq<string>)
    requires lines != [] && lines[0] == ""
    ensures !BadHead(lines) && (GoesOn(lines) <==> !AllEmpty(lines))
  {
    assert StopsAt(lines, 0);
    if !AllEmpty(lines) {
      var l :| l in lines && l != "";
      var j: nat :| j < |lines| && lines[j] == l;
      assert 0 < j && lines[j] != "";
    } else {
      assert forall j :: 0 <= j < |lines| ==> lines[j] in lines;
    }
  }

  lemma PrependAlike(f: Result<Frame>, a: Result<seq<Frame>>, b: Result<seq<Frame>>)
    ensures Prepend(f, a) == Prepend(f, b) <==> f == Err || a == b
    ensures b == Err ==> Prepend(f, b) == Err
  {
    if a.Ok? && b.Ok? && f.Ok? && [f.value] + a.value == [f.value] + b.value {
      assert a.value == ([f.value] + a.value)[1..] && b.value == ([f.value] + b.value)[1..];
    }
  }

  // ---- frames ----------------------------------------------------------------------------

  // The lines of a log.
  function LogLines(fs: seq<Frame>): seq<string> {
    if fs == [] then [] else [Decimal(fs[0].time)] + fs[0].lines + [""] + LogLines(fs[1..])
  }

  lemma {:induction false} LogIsLines(fs: seq<Frame>)
    requires AllOneLine(fs) && forall f <- fs :: forall l <- f.lines :: Trimmed(l)
    ensures LogText(fs) == Body(LogLines(fs)) && TrimmedLines(LogLines(fs)) && Closed(LogLines(fs))
  {
    if fs != [] {
      var f := fs[0];
      LogIsLines(fs[1..]);
      DecimalReads(f.time);
      BodyOfBlock([Decimal(f.time)] + f.lines, LogLines(fs[1..]));
      assert ([Decimal(f.time)] + f.lines)[1..] == f.lines;
      assert f in fs;
    }
  }

  lemma LinesOfOne(f: Frame, lines: seq<string>)
    requires (forall l <- f.lines :: OneLine(l) && Trimmed(l)) && lines == [Decimal(f.time)] + f.lines + [""]
    ensures LogText([f]) == Body(lines)
  {
    LogIsLines([f]);
    assert [f][1..] == [];
    assert LogLines([f]) == [Decimal(f.time)] + f.lines + [""] + LogLines([]);
    assert [Decimal(f.time)] + f.lines + [""] + [] == [Decimal(f.time)] + f.lines + [""];
  }

  lemma DecimalIsBlock(n: nat)
    ensures Block([Decimal(n)]) && ParseLines([Decimal(n)]) == Ok(Frame(n, []))
  {
    DecimalReads(n);
    DecimalDigits(n);
    assert [Decimal(n)][1..] == [];
  }

  lemma TwoBlocks(x: string, y: string, f: Frame, g: Frame, lines: seq<string>)
    requires Block([x]) && Block([y]) && ParseLines([x]) == Ok(f) && ParseLines([y]) == Ok(g)
    requires lines == [x, "", y, ""]
    ensures Stream(Lines(Body(lines))) == Ok([f, g])
  {
    BodyOfBlock([y], []);
    BodyOfBlock([x], [y, ""]);
    assert [y] + [""] + [] == [y, ""] && [x] + [""] + [y, ""] == lines;
    BlockIsStreamed([y], "");
    BlockIsStreamed([x], Body([y, ""]));
    assert [f] + ([g] + []) == [f, g];
  }
}
