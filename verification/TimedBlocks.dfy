/** Timestamped frames, written, cut off, and read back by both splitters. */
module TimedBlocks {
  import opened Wrappers
  import opened Text
  import opened TimedFrames

  // ---- whole logs ----------------------------------------------------------------------

  // Complete frames in front are read back unchanged, whatever follows them.
  lemma {:induction false} FramesFirst(fs: seq<Frame>, rest: string)
    requires AllSound(fs)
    ensures Parse(LogText(fs) + rest) == Behind(fs, Parse(rest))
  {
    if fs == [] {
      assert LogText(fs) + rest == rest;
      assert forall xs: seq<Frame> :: fs + xs == xs;
    } else {
      FramesFirst(fs[1..], rest);
      assert LogText(fs) + rest == FrameText(fs[0]) + (LogText(fs[1..]) + rest);
      FrameFirst(fs[0], LogText(fs[1..]) + rest);
      BehindFirst(fs, Parse(rest));
    }
  }

  lemma {:induction false} RoundTripIff(fs: seq<Frame>)
    requires AllOneLine(fs)
    ensures Parse(LogText(fs)) == Ok(fs) <==> NoEmptyLine(fs)
  {
    if NoEmptyLine(fs) {
      assert AllSound(fs);
      FramesFirst(fs, "");
      assert LogText(fs) + "" == LogText(fs) && fs + [] == fs;
      NothingLeft("");
    } else {
      LogEnds(fs);
      ParsedLinesAreNotEmpty(LogText(fs));
    }
  }

  // ---- a log cut off anywhere ------------------------------------------------------------

  // Any prefix of a log ends in the time or in the lines of a frame.
  lemma {:induction false} PrefixShape(fs: seq<Frame>, p: string) returns (k: nat, m: nat, x: string)
    requires p <= LogText(fs)
    ensures (m == 0 && InTime(fs, p, k, x)) || InLines(fs, p, k, m, x)
  {
    if fs == [] {
      return 0, 0, "";
    }
    var first, rest := FrameText(fs[0]), LogText(fs[1..]);
    if |p| < |first| {
      assert p == (first + rest)[..|p|] == first[..|p|];
      m, x := FrameShape(fs[0], p);
      k := 0;
      assert LogText(fs[..0]) + p == p;
    } else {
      var p' := p[|first|..];
      assert p == first + p' && p' <= rest by {
        assert p == (first + rest)[..|p|];
      }
      k, m, x := PrefixShape(fs[1..], p');
      ShapeNext(fs, p', k, m, x);
      k := k + 1;
    }
  }

  // Cut in a time: what is left of it is read as a time.
  lemma {:induction false} CutInTime(fs: seq<Frame>, p: string, k: nat, x: string)
    requires AllSound(fs) && InTime(fs, p, k, x)
    ensures x != "" ==> ReadInt(x).Some? && ReadInt(x).value <= fs[k].time
    ensures Parse(p) == Ok(fs[..k] + if x == "" then [] else [Frame(ReadInt(x).value, [])])
  {
    FramesFirst(fs[..k], x);
    if x == "" {
      NothingLeft("");
    } else {
      TimeHead(fs[k].time, x);
      TimeShort(fs[k], x);
      TornIsOnePiece(fs[k], x);
      TrimOfDigit(x);
      OneLineSplit(x, "");
      assert [x][1..] == [];
      OnePiece(x, Frame(ReadInt(x).value, []));
    }
  }

  // Cut in the lines: the block is that of the complete lines and what is left of the next one,
  // unless it passes for one that is to be skipped.
  lemma {:induction false} CutInLines(fs: seq<Frame>, p: string, k: nat, m: nat, x: string)
    requires AllSound(fs) && InLines(fs, p, k, m, x)
    ensures Parse(p) == Ok(fs[..k] + if EndsWith(Head(fs[k], m, x), STOPPED) then [] else [Frame(fs[k].time, fs[k].lines[..m] + [x])])
  {
    FramesFirst(fs[..k], Head(fs[k], m, x));
    HeadParses(fs[k], m, x);
  }

  // A log cut off anywhere still yields every complete frame, and at most one damaged block.
  lemma {:induction false} PrefixParses(fs: seq<Frame>, p: string) returns (k: nat, last: seq<Frame>)
    requires AllSound(fs) && p <= LogText(fs)
    ensures k <= |fs| && LogText(fs[..k]) <= p && (k < |fs| ==> !(LogText(fs[..k + 1]) <= p))
    ensures Parse(p) == Ok(fs[..k] + last)
    ensures |last| <= 1 && (last != [] ==> k < |fs| && Torn(last[0], fs[k]))
  {
    var m, x;
    k, m, x := PrefixShape(fs, p);
    if InTime(fs, p, k, x) {
      last := TimeIsTorn(fs, p, k, x);
    } else {
      last := LinesAreTorn(fs, p, k, m, x);
    }
  }

  // A part of frame k that is no longer than its piece and a newline is not all of it.
  lemma PartIsShort(fs: seq<Frame>, k: nat, t: string)
    requires k < |fs| && t <= Piece(fs[k]) + "\n"
    ensures LogText(fs[..k]) <= LogText(fs[..k]) + t && !(LogText(fs[..k + 1]) <= LogText(fs[..k]) + t)
  {
    FrameIsPiece(fs[k]);
    LogNext(fs, k);
  }

  lemma TimeIsTorn(fs: seq<Frame>, p: string, k: nat, x: string) returns (last: seq<Frame>)
    requires AllSound(fs) && InTime(fs, p, k, x)
    ensures LogText(fs[..k]) <= p && (k < |fs| ==> !(LogText(fs[..k + 1]) <= p))
    ensures Parse(p) == Ok(fs[..k] + last) && |last| <= 1 && (last != [] ==> k < |fs| && Torn(last[0], fs[k]))
  {
    CutInTime(fs, p, k, x);
    last := if x == "" then [] else [Frame(ReadInt(x).value, [])];
    if k < |fs| {
      TimeShort(fs[k], x);
      PartIsShort(fs, k, x);
    }
  }

  lemma LinesAreTorn(fs: seq<Frame>, p: string, k: nat, m: nat, x: string) returns (last: seq<Frame>)
    requires AllSound(fs) && InLines(fs, p, k, m, x)
    ensures LogText(fs[..k]) <= p && !(LogText(fs[..k + 1]) <= p)
    ensures Parse(p) == Ok(fs[..k] + last) && |last| <= 1 && (last != [] ==> Torn(last[0], fs[k]))
  {
    CutInLines(fs, p, k, m, x);
    last := if EndsWith(Head(fs[k], m, x), STOPPED) then [] else [Frame(fs[k].time, fs[k].lines[..m] + [x])];
    HeadShort(fs[k], m, x);
    PartIsShort(fs, k, Head(fs[k], m, x));
    assert (fs[k].lines[..m] + [x])[..m] == fs[k].lines[..m];
  }

  // ---- line by line ----------------------------------------------------------------------

  method IterParseTimedBlocks(lines: seq<string>) returns (r: Result<seq<Frame>>)
    ensures r == Stream(lines)
  {
    var frames: seq<Frame> := [];
    var block, rest := TrimAll(Until(lines)), Rest(lines);
    BehindNothing(Stream(lines));
    while block != []
      invariant Stream(lines) == Behind(frames, StreamOn(block, rest))
      decreases |rest|, |block|
    {
      if !EndsWith(block[|block| - 1], STOPPED) {
        var frame := ParseLines(block);
        if frame.Err? {
          return Err;
        }
        BehindNext(frames, frame.value, Stream(rest));
        frames := frames + [frame.value];
      }
      block, rest := TrimAll(Until(rest)), Rest(rest);
    }
    assert frames + [] == frames;
    return Ok(frames);
  }

  // The "not running" filter never fires.
  lemma FilterNeverFires(lines: seq<string>)
    requires Until(lines) != []
    ensures var block := TrimAll(Until(lines)); !EndsWith(block[|block| - 1], STOPPED)
  {
    var raw := Until(lines)[|Until(lines)| - 1];
    TrimTrims(raw);
    NotStopped(Trim(raw));
  }

  // The streaming splitter gives the frames back exactly when every line is trimmed and not empty.
  lemma {:induction false} StreamIff(fs: seq<Frame>)
    requires AllOneLine(fs)
    ensures Stream(Lines(LogText(fs))) == Ok(fs) <==> AllNeat(fs)
  {
    if AllNeat(fs) {
      NeatLogStreams(fs);
    } else if Stream(Lines(LogText(fs))) == Ok(fs) {
      forall f <- fs, l <- f.lines ensures Trimmed(l) {
        var raw := StreamedLines(Lines(LogText(fs)), f, l);
        TrimTrims(raw);
      }
      forall f <- fs, l <- f.lines ensures Neat(l) {
        var raw := StreamedLines(Lines(LogText(fs)), f, l);
        var x := LinesOfLog(fs, raw);
        TrimLine(x);
      }
      assert false;
    }
  }

  // On such logs the two splitters agree.
  lemma SplittersAgree(fs: seq<Frame>)
    requires AllOneLine(fs) && AllNeat(fs)
    ensures Stream(Lines(LogText(fs))) == Parse(LogText(fs))
  {
    StreamIff(fs);
    RoundTripIff(fs);
  }
}
