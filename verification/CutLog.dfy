/** A taskstats log that was cut off anywhere, and what the parser makes of it. */
module CutLog {
  import opened Wrappers
  import opened Text
  import opened TaskStats
  import opened ElisionSteps
  import opened TaskStatsLog
  import opened ElidedLog
  import opened CutLines
  import T = TimedFrames
  import B = TimedBlocks

  // ---- one line ---------------------------------------------------------------------------

  // What is read of a line that was cut, if the name has no blank: nothing in front of the fifth
  // blank; a failure right behind it, or behind the minus sign there; otherwise all values as
  // written but the last, which may have lost digits.
  lemma CutLineIsRead(r: Reading, x: string) returns (c: string)
    requires Readable(r) && x <= LineText(r)
    ensures c <= SignedDecimal(Signed(r.swap))
    ensures ReadSigned(c).None? <==> c == "" || c == "-"
    ensures ReadSigned(c).Some? ==> Within(ReadSigned(c).value, Signed(r.swap))
    ensures (x == CutText(r, c) && RowOf(x) == CutRow(r, c)) || (|x| < |CutText(r, "")| && RowOf(x) == Ok(Other))
  {
    var (p, q, a, b) := (SignedDecimal(r.pid), SignedDecimal(Ppid(r)), SignedDecimal(Signed(r.cpu)), SignedDecimal(Signed(r.blkio)));
    var swap, five := SignedDecimal(Signed(r.swap)), CutText(r, "");
    SixEnds(p, q, r.comm, a, b, swap);
    if |x| < |five| {
      c := "";
      SignedReads(r.pid);
      SignedReads(Ppid(r));
      SignedReads(Signed(r.cpu));
      SignedReads(Signed(r.blkio));
      CutFront(Front(p, q, r.comm, a + " " + b), swap, x);
      ShortLine(p, q, r.comm, a, b, x);
    } else {
      c := x[|five|..];
      CutBehind(five, swap, x);
      SixEnds(p, q, r.comm, a, b, c);
      CutNumber(Signed(r.swap), c);
      CutTokens(r, c);
    }
  }

  // ---- the whole log -----------------------------------------------------------------------

  // The readings of turn k that are written.
  function Written(ticks: seq<Tick>, k: nat): seq<Reading>
    requires k < |ticks|
  {
    Writes(Readings(ticks[..k]), ticks[k].readings)
  }

  lemma {:induction false} TickAt(ticks: seq<Tick>, k: nat)
    requires k < |ticks|
    ensures |Frames(ticks)| == |ticks| && Frames(ticks)[k] == T.Frame(ticks[k].time, Texts(Written(ticks, k)))
    ensures |Blocks(ticks)| == |ticks| && Blocks(ticks)[k] == Block(ticks[k].time, Rows(Written(ticks, k)))
  {
    if k < |ticks| - 1 {
      TickAt(Init(ticks), k);
      assert Init(ticks)[..k] == ticks[..k];
    } else {
      TickLengths(Init(ticks));
      assert ticks[..k] == Init(ticks);
    }
  }

  lemma {:induction false} TickLengths(ticks: seq<Tick>)
    ensures |Frames(ticks)| == |Blocks(ticks)| == |ticks|
  {
    if ticks != [] {
      TickLengths(Init(ticks));
    }
  }

  lemma LineEnds(r: Reading)
    ensures LineText(r) != "" && Digit(LineText(r)[|LineText(r)| - 1])
  {
    var d := SignAndDigits(Signed(r.swap));
    var c := SignedDecimal(Signed(r.swap));
    assert c[|c| - 1] == d[|d| - 1];
    SixEnds(SignedDecimal(r.pid), SignedDecimal(Ppid(r)), r.comm, SignedDecimal(Signed(r.cpu)), SignedDecimal(Signed(r.blkio)), c);
  }

  lemma FramesAreFinished(ticks: seq<Tick>)
    ensures forall f <- Frames(ticks) :: Finished(f)
  {
    TickLengths(ticks);
    forall f <- Frames(ticks) ensures Finished(f) {
      var k: nat :| k < |Frames(ticks)| && Frames(ticks)[k] == f;
      TickAt(ticks, k);
      TextsEnd(Written(ticks, k));
    }
  }

  lemma TextsEnd(rs: seq<Reading>)
    ensures forall l <- Texts(rs) :: l != "" && Digit(l[|l| - 1])
  {
    forall i | 0 <= i < |rs| ensures Texts(rs)[i] != "" && Digit(Texts(rs)[i][|Texts(rs)[i]| - 1]) {
      LineEnds(rs[i]);
    }
  }

  // Any prefix of a log, whatever the names: it cannot be parsed if and only if what is left of the
  // last line has six tokens and a number among them is none. Otherwise all complete blocks are read,
  // and behind them one of the lines that are complete and what is left of the next.
  lemma {:induction false} CutIsRead(ticks: seq<Tick>, p: string) returns (k: nat, m: nat, x: string)
    requires (forall t <- ticks :: Sound(t)) && p <= T.LogText(Frames(ticks))
    ensures |Blocks(ticks)| == |Frames(ticks)| == |ticks|
    ensures (T.InTime(Frames(ticks), p, k, x) && ParseText(p) == ReadCutTime(Blocks(ticks), k, x))
      || (T.InLines(Frames(ticks), p, k, m, x) && m <= |Blocks(ticks)[k].rows| && ParseText(p) == ReadCut(Blocks(ticks), k, m, x))
  {
    var fs, bs := Frames(ticks), Blocks(ticks);
    TickLengths(ticks);
    FramesAreSound(ticks);
    FramesAreFinished(ticks);
    FramesAreRead(ticks);
    k, m, x := B.PrefixShape(fs, p);
    if T.InTime(fs, p, k, x) {
      CutInTimeReads(fs, bs, p, k, x);
    } else {
      CutInLinesReads(fs, bs, p, k, m, x);
    }
  }

  lemma CutLineFails(r: Reading, x: string)
    requires Readable(r) && x <= LineText(r)
    ensures RowOf(x).Err? <==> x == CutText(r, "") || x == CutText(r, "-")
  {
    var c := CutLineIsRead(r, x);
    CutTextEnds(r, c);
    CutTextEnds(r, "-");
    OneBehind(CutText(r, ""), c);
  }

  // What is left of line m can be read if and only if it does not end behind the fifth blank.
  lemma CutLineFailsIff(rs: seq<Reading>, m: nat, x: string)
    requires m <= |rs| && x <= if m < |rs| then LineText(rs[m]) else ""
    requires forall r <- rs :: Readable(r)
    ensures RowOf(x).Err? <==> m < |rs| && (x == CutText(rs[m], "") || x == CutText(rs[m], "-"))
  {
    if m < |rs| {
      assert rs[m] in rs;
      CutLineFails(rs[m], x);
    } else {
      SplitAtChar("", ' ', "");
    }
  }

  lemma {:induction false} WrittenAreReadings(ticks: seq<Tick>, k: nat)
    requires k < |ticks|
    ensures forall r <- Written(ticks, k) :: r in Readings(ticks)
  {
    if k < |ticks| - 1 {
      WrittenAreReadings(Init(ticks), k);
      assert Init(ticks)[..k] == ticks[..k];
    } else {
      WritesAreSome(Readings(ticks[..k]), ticks[k].readings);
    }
  }

  // The text ends behind the fifth blank of a line, or behind the minus sign there.
  ghost predicate BehindFive(ticks: seq<Tick>, p: string) {
    exists k: nat, m: nat :: k < |ticks| && m < |Written(ticks, k)| && BehindFiveAt(ticks, p, k, m)
  }

  ghost predicate BehindFiveAt(ticks: seq<Tick>, p: string, k: nat, m: nat)
    requires k < |ticks| && m < |Written(ticks, k)|
  {
    || T.InLines(Frames(ticks), p, k, m, CutText(Written(ticks, k)[m], ""))
    || T.InLines(Frames(ticks), p, k, m, CutText(Written(ticks, k)[m], "-"))
  }

  // The names have no blanks: a log that was cut cannot be parsed if and only if it ends there.
  lemma CutFailsIff(ticks: seq<Tick>, p: string)
    requires (forall t <- ticks :: Sound(t)) && p <= T.LogText(Frames(ticks))
    requires forall r <- Readings(ticks) :: Readable(r)
    ensures ParseText(p).Err? <==> BehindFive(ticks, p)
  {
    var k, m, x := CutIsRead(ticks, p);
    if ParseText(p).Err? {
      TickAt(ticks, k);
      WrittenAreReadings(ticks, k);
      CutLineFailsIff(Written(ticks, k), m, x);
      assert BehindFiveAt(ticks, p, k, m);
    }
    if BehindFive(ticks, p) {
      var k: nat, m: nat :| k < |ticks| && m < |Written(ticks, k)| && BehindFiveAt(ticks, p, k, m);
      FiveFails(ticks, p, k, m);
    }
  }

  lemma {:induction false} FiveFails(ticks: seq<Tick>, p: string, k: nat, m: nat)
    requires (forall t <- ticks :: Sound(t)) && (forall r <- Readings(ticks) :: Readable(r))
    requires k < |ticks| && m < |Written(ticks, k)| && BehindFiveAt(ticks, p, k, m)
    ensures ParseText(p).Err?
  {
    var r := Written(ticks, k)[m];
    var x := if T.InLines(Frames(ticks), p, k, m, CutText(r, "")) then CutText(r, "") else CutText(r, "-");
    TickAt(ticks, k);
    WrittenAreReadings(ticks, k);
    FramesAreSound(ticks);
    FramesAreFinished(ticks);
    FramesAreRead(ticks);
    CutLineFailsIff(Written(ticks, k), m, x);
    CutInLinesReads(Frames(ticks), Blocks(ticks), p, k, m, x);
  }

  // ---- what a cut costs ----------------------------------------------------------------------

  // A line whose last number has lost digits.
  predicate Shortened(t: Timed, whole: Timed) {
    && t.time == whole.time && t.row.Stat? && whole.row.Stat?
    && t.row == whole.row.(swap := t.row.swap) && Within(t.row.swap, whole.row.swap)
  }

  lemma CutBlocksFlatten(bs: seq<Block>, k: nat, m: nat, row: Row)
    requires k < |bs| && m <= |bs[k].rows|
    ensures Flatten(CutBlocks(bs, k, m, row)) == Complete(bs, k, m) + [Timed(bs[k].time, row)]
  {
    var rows, b := bs[k].rows[..m], Block(bs[k].time, bs[k].rows[..m] + [row]);
    FlattenNext(bs[..k], b);
    assert TimedRows(b) == TimedRows(Block(bs[k].time, rows)) + [Timed(bs[k].time, row)];
    Cat(Flatten(bs[..k]), TimedRows(Block(bs[k].time, rows)), [Timed(bs[k].time, row)]);
  }

  lemma CutTimeFlatten(bs: seq<Block>, time: int)
    ensures Flatten(bs + [Block(time, [])]) == Flatten(bs)
  {
    FlattenNext(bs, Block(time, []));
    assert Flatten(bs) + [] == Flatten(bs);
  }

  // A line that is skipped changes nothing.
  lemma SkippedLine(rows: seq<Timed>, t: Timed)
    requires t.row.Other?
    ensures Parse(rows + [t]) == Parse(rows + [])
  {
    ParseSnoc(rows, t);
    assert rows + [] == rows;
  }

  lemma {:induction false} CutTimeCosts(bs: seq<Block>, k: nat, x: string)
    requires k <= |bs| && ReadCutTime(bs, k, x).value.Some?
    ensures ReadCutTime(bs, k, x).value.value.procs == Parse(Flatten(bs[..k])).procs && Flatten(bs[..k]) <= Flatten(bs)
  {
    FlattenUpto(bs, k);
    if ReadInt(x).Some? {
      CutTimeFlatten(bs[..k], ReadInt(x).value);
    } else {
      assert bs[..k] + [] == bs[..k];
    }
  }

  // The processes of the complete lines, and of the next one unless it is skipped.
  lemma CutLinesCost(bs: seq<Block>, k: nat, m: nat, x: string) returns (torn: seq<Timed>)
    requires k < |bs| && m <= |bs[k].rows| && RowOf(x).Ok? && ReadCut(bs, k, m, x).value.Some?
    ensures torn == if RowOf(x).value.Other? then [] else [Timed(bs[k].time, RowOf(x).value)]
    ensures ReadCut(bs, k, m, x).value.value.procs == Parse(Complete(bs, k, m) + torn).procs
  {
    var row := RowOf(x).value;
    CutBlocksFlatten(bs, k, m, row);
    torn := [Timed(bs[k].time, row)];
    if row.Other? {
      SkippedLine(Complete(bs, k, m), torn[0]);
      torn := [];
    }
  }

  lemma {:induction false} CutLineIsShort(rs: seq<Reading>, m: nat, x: string, time: int)
    requires m <= |rs| && x <= if m < |rs| then LineText(rs[m]) else ""
    requires (forall r <- rs :: Readable(r)) && RowOf(x).Ok? && !RowOf(x).value.Other?
    ensures m < |rs| && Shortened(Timed(time, RowOf(x).value), Timed(time, Rows(rs)[m]))
  {
    if m < |rs| {
      assert rs[m] in rs;
      var c := CutLineIsRead(rs[m], x);
    } else {
      SplitAtChar("", ' ', "");
    }
  }

  // The processes of the first n of the rows, or those and the next one with a last number that may
  // have lost digits.
  ghost predicate Costs(procs: map<int, Proc>, rows: seq<Timed>, n: nat, torn: seq<Timed>) {
    && n <= |rows| && |torn| <= 1 && procs == Parse(rows[..n] + torn).procs
    && (torn != [] ==> n < |rows| && Shortened(torn[0], rows[n]))
  }

  lemma {:induction false} CostsFrom(procs: map<int, Proc>, rows: seq<Timed>, front: seq<Timed>, torn: seq<Timed>)
    requires front <= rows && |torn| <= 1 && procs == Parse(front + torn).procs
    requires torn != [] ==> |front| < |rows| && Shortened(torn[0], rows[|front|])
    ensures Costs(procs, rows, |front|, torn)
  {
    assert rows[..|front|] == front;
  }

  lemma CutInTimeCosts(bs: seq<Block>, k: nat, x: string)
    requires k <= |bs| && ReadCutTime(bs, k, x).value.Some?
    ensures Costs(ReadCutTime(bs, k, x).value.value.procs, Flatten(bs), |Flatten(bs[..k])|, [])
  {
    CutTimeCosts(bs, k, x);
    assert Flatten(bs[..k]) + [] == Flatten(bs[..k]);
    CostsFrom(ReadCutTime(bs, k, x).value.value.procs, Flatten(bs), Flatten(bs[..k]), []);
  }

  lemma {:induction false} CutInLinesCosts(bs: seq<Block>, rs: seq<Reading>, k: nat, m: nat, x: string) returns (torn: seq<Timed>)
    requires k < |bs| && bs[k].rows == Rows(rs) && m <= |rs| && (forall r <- rs :: Readable(r))
    requires x <= if m < |rs| then LineText(rs[m]) else ""
    requires ReadCut(bs, k, m, x).Ok? && ReadCut(bs, k, m, x).value.Some?
    ensures Costs(ReadCut(bs, k, m, x).value.value.procs, Flatten(bs), |Complete(bs, k, m)|, torn)
  {
    torn := CutLinesCost(bs, k, m, x);
    CompleteUpto(bs, k, m);
    if torn != [] {
      CutLineIsShort(rs, m, x, bs[k].time);
    }
    CostsFrom(ReadCut(bs, k, m, x).value.value.procs, Flatten(bs), Complete(bs, k, m), torn);
  }

  // How many lines are complete.
  ghost predicate CompleteLines(ticks: seq<Tick>, p: string, n: nat) {
    && |Blocks(ticks)| == |Frames(ticks)|
    && ((exists k: nat, x :: T.InTime(Frames(ticks), p, k, x) && n == |Flatten(Blocks(ticks)[..k])|)
        || exists k: nat, m: nat, x :: T.InLines(Frames(ticks), p, k, m, x) && m <= |Blocks(ticks)[k].rows| && n == |Complete(Blocks(ticks), k, m)|)
  }

  // If the names have no blanks, a log that was cut and can be parsed gives the processes of its
  // complete lines, or those and the next line with a last number that may have lost digits.
  lemma {:induction false} CutCostsOneLine(ticks: seq<Tick>, p: string) returns (n: nat, torn: seq<Timed>)
    requires (forall t <- ticks :: Sound(t)) && p <= T.LogText(Frames(ticks))
    requires forall r <- Readings(ticks) :: Readable(r)
    requires ParseText(p).Ok? && ParseText(p).value.Some?
    ensures CompleteLines(ticks, p, n)
    ensures Costs(ParseText(p).value.value.procs, Kept(Readings(ticks)), n, torn)
  {
    var k, m, x := CutIsRead(ticks, p);
    BlocksAreKept(ticks);
    if T.InTime(Frames(ticks), p, k, x) && ParseText(p) == ReadCutTime(Blocks(ticks), k, x) {
      n, torn := |Flatten(Blocks(ticks)[..k])|, [];
      CutInTimeCosts(Blocks(ticks), k, x);
    } else {
      n := |Complete(Blocks(ticks), k, m)|;
      torn := CutInTick(ticks, p, k, m, x);
    }
  }

  lemma {:induction false} CutInTick(ticks: seq<Tick>, p: string, k: nat, m: nat, x: string) returns (torn: seq<Timed>)
    requires (forall r <- Readings(ticks) :: Readable(r)) && |Frames(ticks)| == |Blocks(ticks)| == |ticks|
    requires T.InLines(Frames(ticks), p, k, m, x) && m <= |Blocks(ticks)[k].rows|
    requires ReadCut(Blocks(ticks), k, m, x).Ok? && ReadCut(Blocks(ticks), k, m, x).value.Some?
    ensures Costs(ReadCut(Blocks(ticks), k, m, x).value.value.procs, Flatten(Blocks(ticks)), |Complete(Blocks(ticks), k, m)|, torn)
  {
    TickAt(ticks, k);
    WrittenAreReadings(ticks, k);
    torn := CutInLinesCosts(Blocks(ticks), Written(ticks, k), k, m, x);
  }

  // With a number behind a blank in the name, the full line is skipped, but what is left of it in
  // front of its last blank is read, with every value but the first two in the wrong place.
  lemma CutMakesARow(r: Reading, name: string, v: int)
    requires r.comm == name + " " + SignedDecimal(v) && ' ' !in name
    ensures RowOf(LineText(r)) == Ok(Other)
    ensures var x := Six(SignedDecimal(r.pid), SignedDecimal(Ppid(r)), name, SignedDecimal(v), SignedDecimal(Signed(r.cpu)), SignedDecimal(Signed(r.blkio)));
      && x <= LineText(r)
      && RowOf(x) == Ok(Stat(r.pid, Ppid(r), name, v, Signed(r.cpu), Signed(r.blkio)))
  {
    LineIsRead(r);
    SignedReads(r.pid);
    SignedReads(Ppid(r));
    SignedReads(v);
    SignedReads(Signed(r.cpu));
    SignedReads(Signed(r.blkio));
    var (p, q, a, b, c, u) := (SignedDecimal(r.pid), SignedDecimal(Ppid(r)), SignedDecimal(Signed(r.cpu)), SignedDecimal(Signed(r.blkio)), SignedDecimal(Signed(r.swap)), SignedDecimal(v));
    assert ' ' in r.comm by { assert r.comm[|name|] == ' '; }
    SixRead(p, q, name, u, a, b, r.pid, Ppid(r), v, Signed(r.cpu), Signed(r.blkio));
    MovedOn(p, q, name, u, a, b, c);
  }

}
