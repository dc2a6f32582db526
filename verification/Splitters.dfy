/** The two splitters side by side, on any log of trimmed lines, empty ones included. */
module Splitters {
  import opened Wrappers
  import opened Text
  import opened TimedFrames
  import opened SplitterSteps

  // On a block in front both splitters do the same. An empty line ends the block, not the log.
  lemma {:induction false} BlockFirst(block: seq<string>, rest: string)
    requires Block(block)
    ensures Parse(Body(block) + "\n" + rest) == Prepend(ParseLines(block), Parse(rest))
    ensures Stream(Lines(Body(block) + "\n" + rest)) == Prepend(ParseLines(block), Stream(Lines(rest)))
  {
    BlockIsParsed(block, rest);
    BlockIsStreamed(block, rest);
  }

  // An empty line ends a block, and what follows is read as the next one: a frame with an empty line
  // comes back as two.
  lemma EmptyLineEndsABlock(a: nat, b: nat)
    ensures Stream(Lines(LogText([Frame(a, ["", Decimal(b)])]))) == Ok([Frame(a, []), Frame(b, [])])
  {
    DecimalIsBlock(a);
    DecimalIsBlock(b);
    DecimalReads(b);
    LinesOfOne(Frame(a, ["", Decimal(b)]), [Decimal(a), "", Decimal(b), ""]);
    TwoBlocks(Decimal(a), Decimal(b), Frame(a, []), Frame(b, []), [Decimal(a), "", Decimal(b), ""]);
  }

  // The whole-file splitter finds something in a log, or fails, unless all its lines are empty.
  lemma {:induction false} ParsesToNothingIff(lines: seq<string>)
    requires TrimmedLines(lines) && Closed(lines)
    ensures Parse(Body(lines)) == Ok([]) <==> AllEmpty(lines)
    decreases |lines|
  {
    if lines == [] {
      NothingLeft("");
    } else if lines[0] != "" {
      var block, rest := FirstBlock(lines);
      BodyOfBlock(block, rest);
      BlockIsParsed(block, Body(rest));
      PrependIsMore(ParseLines(block), Parse(Body(rest)));
      assert lines[0] in lines;
    } else if |lines| == 1 {
      BodyOfEmpty(lines);
      NothingLeft("\n");
      assert "\n" + Body(lines[1..]) == "\n";
    } else if lines[1] == "" {
      EmptyPair(lines);
      ParsesToNothingIff(lines[2..]);
    } else {
      OddLine(lines);
    }
  }

  // The two splitters agree on a log of trimmed lines, empty or not, if and only if nothing follows
  // the first empty block, or a block in front of it has no time: then both fail.
  lemma {:induction false} AgreeIff(lines: seq<string>)
    requires TrimmedLines(lines) && Closed(lines)
    ensures Stream(Lines(Body(lines))) == Parse(Body(lines)) <==> BadHead(lines) || !GoesOn(lines)
    ensures BadHead(lines) ==> Parse(Body(lines)) == Err
    decreases |lines|
  {
    if lines == [] {
      NothingLeft("");
    } else if lines[0] == "" {
      StopsAtOnce(lines);
      BodyOfEmpty(lines);
      EmptyBlockEnds(Body(lines[1..]));
      ParsesToNothingIff(lines);
    } else {
      var block, rest := FirstBlock(lines);
      BodyOfBlock(block, rest);
      BlockFirst(block, Body(rest));
      BlockShifts(block, rest);
      PrependAlike(ParseLines(block), Stream(Lines(Body(rest))), Parse(Body(rest)));
      AgreeIff(rest);
    }
  }

  // Written frames of trimmed lines, with empty lines anywhere.
  lemma {:induction false} SplittersAgreeIff(fs: seq<Frame>)
    requires AllOneLine(fs) && forall f <- fs :: forall l <- f.lines :: Trimmed(l)
    ensures Stream(Lines(LogText(fs))) == Parse(LogText(fs)) <==> BadHead(LogLines(fs)) || !GoesOn(LogLines(fs))
  {
    LogIsLines(fs);
    AgreeIff(LogLines(fs));
  }
}
