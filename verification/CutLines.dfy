/**
 Parts of a taskstats log, for CutLog: some of its blocks, some lines of a block, a part of a line.

 What is read of the first k blocks and m lines of the next is known (BlocksUpto, RowsUpto); Complete is
 the lines that these are, a prefix of all lines (CompleteUpto). A line cut in front of its fifth blank
 has too few tokens (ShortLine); behind it the first five are those of the whole line (CutTokens), and of
 the last one some digits are left (CutNumber). A block that was cut never passes for one to be skipped,
 since every line ends in a digit (NeverStopped). ReadCutTime and ReadCut say what the parser makes of
 the whole text, depending on where in a frame it ends (CutInTimeReads, CutInLinesReads).
 */
module CutLines {
  import opened Wrappers
  import opened Text
  import opened TaskStats
  import opened ElisionSteps
  import opened TaskStatsLog
  import opened ElidedLog
  import T = TimedFrames
  import B = TimedBlocks

  // ---- parts of a log ------------------------------------------------------------------

  lemma {:induction false} RowsUpto(lines: seq<string>, rows: seq<Row>, m: nat)
    requires RowsOf(lines) == Ok(rows) && m <= |lines|
    ensures |rows| == |lines| && RowsOf(lines[..m]) == Ok(rows[..m])
  {
    if lines != [] {
      var l := |lines| - 1;
      var front := RowsOf(lines[..l]).value;
      assert rows[..|front|] == front;
      if m <= l {
        RowsUpto(lines[..l], front, m);
        assert rows[..m] == front[..m];
        assert lines[..l][..m] == lines[..m];
      } else {
        RowsUpto(lines[..l], front, l);
        assert lines[..m] == lines && rows[..m] == rows;
      }
    }
  }

  lemma {:induction false} BlocksUpto(fs: seq<T.Frame>, bs: seq<Block>, k: nat)
    requires BlocksOf(fs) == Ok(bs) && k <= |fs|
    ensures |bs| == |fs| && BlocksOf(fs[..k]) == Ok(bs[..k])
    ensures k < |fs| ==> RowsOf(fs[k].lines) == Ok(bs[k].rows) && bs[k].time == fs[k].time
  {
    if fs != [] {
      var l := |fs| - 1;
      var front := BlocksOf(fs[..l]).value;
      assert bs[..|front|] == front;
      if k <= l {
        BlocksUpto(fs[..l], front, k);
        assert bs[..k] == front[..k];
        assert fs[..l][..k] == fs[..k];
      } else {
        BlocksUpto(fs[..l], front, l);
        assert fs[..k] == fs && bs[..k] == bs;
      }
    }
  }

  // The lines of the first k blocks and m lines of the next one.
  function Complete(bs: seq<Block>, k: nat, m: nat): seq<Timed>
    requires k < |bs| && m <= |bs[k].rows|
  {
    Flatten(bs[..k]) + TimedRows(Block(bs[k].time, bs[k].rows[..m]))
  }

  lemma {:induction false} CompleteUpto(bs: seq<Block>, k: nat, m: nat)
    requires k < |bs| && m <= |bs[k].rows|
    ensures Complete(bs, k, m) <= Flatten(bs)
    ensures m < |bs[k].rows| ==>
      |Complete(bs, k, m)| < |Flatten(bs)| && Flatten(bs)[|Complete(bs, k, m)|] == Timed(bs[k].time, bs[k].rows[m])
  {
    var l := |bs| - 1;
    if k < l {
      CompleteUpto(bs[..l], k, m);
      assert bs[..l][..k] == bs[..k];
    }
  }

  lemma {:induction false} FlattenUpto(bs: seq<Block>, k: nat)
    requires k <= |bs|
    ensures Flatten(bs[..k]) <= Flatten(bs)
  {
    if k < |bs| {
      FlattenUpto(bs[..|bs| - 1], k);
      assert bs[..|bs| - 1][..k] == bs[..k];
    } else {
      assert bs[..k] == bs;
    }
  }

  // ---- a line that was cut ---------------------------------------------------------------

  // The line of r as far as its fifth blank, and c behind it.
  function CutText(r: Reading, c: string): string {
    Six(SignedDecimal(r.pid), SignedDecimal(Ppid(r)), r.comm, SignedDecimal(Signed(r.cpu)), SignedDecimal(Signed(r.blkio)), c)
  }

  // What is read of it: everything as written but the last number.
  function CutRow(r: Reading, c: string): Result<Row> {
    if ReadSigned(c).None? then Err
    else Ok(Stat(r.pid, Ppid(r), r.comm, Signed(r.cpu), Signed(r.blkio), ReadSigned(c).value))
  }

  // Of the same sign, and not further from zero.
  predicate Within(z: int, n: int) { 0 <= z <= n || n <= z <= 0 }

  lemma CutDigits(d: string, c: string)
    requires Digits(d) && c <= d
    ensures c != "" ==> Digits(c) && Value(c) <= Value(d)
  {
    assert c == d[..|c|];
    ValueGrows(d, |c|);
  }

  lemma CutPositive(d: string, c: string)
    requires Digits(d) && c <= d
    ensures ReadSigned(c).None? <==> c == ""
    ensures ReadSigned(c).Some? ==> 0 <= ReadSigned(c).value <= Value(d)
    ensures ' ' !in c
  {
    CutDigits(d, c);
    if c != "" {
      ReadDigits(c);
    }
  }

  lemma CutNegative(d: string, c: string)
    requires Digits(d) && "-" + c <= "-" + d
    ensures ReadSigned("-" + c).None? <==> c == ""
    ensures ReadSigned("-" + c).Some? ==> 0 - Value(d) <= ReadSigned("-" + c).value <= 0
    ensures ' ' !in "-" + c
  {
    T.SamePrefix("-", c, d);
    CutDigits(d, c);
    if c == "" {
      assert ("-" + c)[1..] == "";
    } else {
      ReadDigits(c);
    }
  }

  // A number that was cut is one unless no digit is left.
  lemma CutNumber(n: int, c: string)
    requires c <= SignedDecimal(n)
    ensures ReadSigned(c).None? <==> c == "" || c == "-"
    ensures ReadSigned(c).Some? ==> Within(ReadSigned(c).value, n)
    ensures ' ' !in c
  {
    var d := SignAndDigits(n);
    if n < 0 && c != "" {
      assert c == "-" + c[1..];
      CutNegative(d, c[1..]);
    } else {
      assert n < 0 || c <= d;
      CutPositive(d, if n < 0 then "" else c);
      assert Digit(d[0]);
    }
  }

  lemma SixEnds(p: string, q: string, comm: string, a: string, b: string, c: string)
    ensures Six(p, q, comm, a, b, "") + c == Six(p, q, comm, a, b, c)
    ensures Front(p, q, comm, a + " " + b) + " " == Six(p, q, comm, a, b, "")
  {
    FrontEnds(p, q, comm, Three(a, b, ""), c);
    FrontEnds(p, q, comm, a + " " + b, " ");
    assert Three(a, b, "") + c == Three(a, b, c);
    assert a + " " + b + " " == Three(a, b, "");
  }

  lemma FrontEnds(p: string, q: string, comm: string, rest: string, c: string)
    ensures Front(p, q, comm, rest) + c == Front(p, q, comm, rest + c)
  {
    Cat(p + " ", q + " " + (comm + " " + rest), c);
    Cat(q + " ", comm + " " + rest, c);
    Cat(comm + " ", rest, c);
  }

  // In front of the fifth blank there are too few tokens.
  lemma ShortLine(p: string, q: string, comm: string, a: string, b: string, x: string)
    requires ' ' !in p && ' ' !in q && ' ' !in comm && ' ' !in a && ' ' !in b
    requires x <= Front(p, q, comm, a + " " + b)
    ensures RowOf(x) == Ok(Other)
  {
    FrontTokens(p, q, comm, a + " " + b);
    SplitAtChar(b, ' ', "");
    SplitAtChar(a, ' ', b);
    SplitAtChar(comm, ' ', "");
    SplitPrefix(x, Front(p, q, comm, a + " " + b), ' ');
  }

  lemma CutTokens(r: Reading, c: string)
    requires Readable(r) && ' ' !in c
    ensures RowOf(CutText(r, c)) == CutRow(r, c)
  {
    SignedReads(r.pid);
    SignedReads(Ppid(r));
    SignedReads(Signed(r.cpu));
    SignedReads(Signed(r.blkio));
    SixCut(SignedDecimal(r.pid), SignedDecimal(Ppid(r)), r.comm, SignedDecimal(Signed(r.cpu)), SignedDecimal(Signed(r.blkio)), c,
           r.pid, Ppid(r), Signed(r.cpu), Signed(r.blkio));
  }

  lemma SixCut(p: string, q: string, comm: string, a: string, b: string, c: string, pid: int, ppid: int, x: int, y: int)
    requires NumberText(p, pid) && NumberText(q, ppid) && NumberText(a, x) && NumberText(b, y) && ' ' !in comm && ' ' !in c
    ensures RowOf(Six(p, q, comm, a, b, c)) ==
      if ReadSigned(c).None? then Err else Ok(Stat(pid, ppid, comm, x, y, ReadSigned(c).value))
  {
    ThreeTokens(a, b, c);
    FrontTokens(p, q, comm, Three(a, b, c));
    SplitAtChar(comm, ' ', "");
    SixInAll(p, q, comm, a, b, c);
    FourNumbers([p, q, comm, a, b, c], pid, ppid, x, y);
  }

  lemma FourNumbers(tokens: seq<string>, pid: int, ppid: int, x: int, y: int)
    requires |tokens| == 6 && ReadSigned(tokens[0]) == Some(pid) && ReadSigned(tokens[1]) == Some(ppid)
    requires ReadSigned(tokens[3]) == Some(x) && ReadSigned(tokens[4]) == Some(y)
    ensures RowOfTokens(tokens) ==
      if ReadSigned(tokens[5]).None? then Err else Ok(Stat(pid, ppid, tokens[2], x, y, ReadSigned(tokens[5]).value))
  {
  }

  lemma CutFront(a: string, b: string, x: string)
    requires x <= a + " " + b && |x| <= |a|
    ensures x <= a
  {
    assert x == (a + (" " + b))[..|x|];
  }

  lemma CutBehind(a: string, b: string, x: string)
    requires x <= a + b && |a| <= |x|
    ensures x == a + x[|a|..] && x[|a|..] <= b
  {
    assert x == (a + b)[..|x|];
  }

  // ---- the whole log -----------------------------------------------------------------------

  // No line passes for one to be skipped.
  ghost predicate Finished(f: T.Frame) { forall l <- f.lines :: l != "" && Digit(l[|l| - 1]) }

  lemma NeverStopped(f: T.Frame, m: nat, x: string)
    requires T.Sound(f) && Finished(f) && m <= |f.lines| && x <= T.Next(f, m)
    ensures !T.EndsWith(T.Head(f, m, x), T.STOPPED)
  {
    var t := T.Head(f, m, x);
    if x != "" {
      assert t[|t| - 1] == x[|x| - 1] && f.lines[m] in f.lines;
      assert x[|x| - 1] == f.lines[m][|x| - 1] != '\n';
    } else {
      var u := BeforeNewline(f, m);
      assert t[|t| - 2] == u[|u| - 1];
    }
    if |t| >= |T.STOPPED| {
      assert t[|t| - |T.STOPPED|..][|T.STOPPED| - 1] == t[|t| - 1];
      assert t[|t| - |T.STOPPED|..][|T.STOPPED| - 2] == t[|t| - 2];
    }
  }

  lemma BeforeNewline(f: T.Frame, m: nat) returns (u: string)
    requires Finished(f) && m <= |f.lines|
    ensures u != "" && Digit(u[|u| - 1]) && T.Head(f, m, "") == u + "\n"
  {
    T.HeadIsTail(f, m, "");
    T.TailSnoc(f.lines[..m], "");
    u := Decimal(f.time) + Tail(f.lines[..m]);
    assert "\n" + "" == "\n";
    Cat(Decimal(f.time), Tail(f.lines[..m]), "\n");
    DecimalDigits(f.time);
    if m > 0 {
      assert f.lines[m - 1] in f.lines;
      TailEnds(f.lines[..m]);
    }
  }

  lemma TailEnds(lines: seq<string>)
    requires lines != [] && lines[|lines| - 1] != ""
    ensures Tail(lines) != "" && Tail(lines)[|Tail(lines)| - 1] == lines[|lines| - 1][|lines[|lines| - 1]| - 1]
  {
    var x := lines[|lines| - 1];
    T.TailSnoc(lines[..|lines| - 1], x);
    assert lines == lines[..|lines| - 1] + [x];
  }

  // The blocks of a log cut in line m of block k, of which `row` is read.
  function CutBlocks(bs: seq<Block>, k: nat, m: nat, row: Row): seq<Block>
    requires k < |bs| && m <= |bs[k].rows|
  {
    bs[..k] + [Block(bs[k].time, bs[k].rows[..m] + [row])]
  }

  // What is read of a log cut in line m of block k, of which x is left: if x is no line, nothing.
  function ReadCut(bs: seq<Block>, k: nat, m: nat, x: string): Result<Option<ProcessStats>>
    requires k < |bs| && m <= |bs[k].rows|
  {
    if RowOf(x).Err? then Err else Ok(ParseLog(CutBlocks(bs, k, m, RowOf(x).value)))
  }

  // What is read of a log cut in the time of block k, of which x is left.
  function ReadCutTime(bs: seq<Block>, k: nat, x: string): Result<Option<ProcessStats>>
    requires k <= |bs|
  {
    Ok(ParseLog(bs[..k] + if ReadInt(x).None? then [] else [Block(ReadInt(x).value, [])]))
  }

  lemma ReadBehind(text: string, fs: seq<T.Frame>, bs: seq<Block>, f: T.Frame)
    requires T.Parse(text) == Ok(fs + [f]) && BlocksOf(fs) == Ok(bs)
    ensures ParseText(text) == if RowsOf(f.lines).Err? then Err else Ok(ParseLog(bs + [Block(f.time, RowsOf(f.lines).value)]))
  {
    assert (fs + [f])[..|fs|] == fs;
  }

  lemma RowsSnoc(lines: seq<string>, x: string)
    ensures RowsOf(lines + [x]) == AddRow(RowsOf(lines), x)
  {
    assert (lines + [x])[..|lines|] == lines;
  }

  lemma ReadLine(text: string, fs: seq<T.Frame>, bs: seq<Block>, f: T.Frame, rows: seq<Row>, x: string)
    requires T.Parse(text) == Ok(fs + [f]) && BlocksOf(fs) == Ok(bs) && RowsOf(f.lines) == AddRow(Ok(rows), x)
    ensures ParseText(text) == if RowOf(x).Err? then Err else Ok(ParseLog(bs + [Block(f.time, rows + [RowOf(x).value])]))
  {
    ReadBehind(text, fs, bs, f);
  }

  lemma CutInTimeParses(fs: seq<T.Frame>, p: string, k: nat, x: string)
    requires T.AllSound(fs) && T.InTime(fs, p, k, x)
    ensures x == "" <==> ReadInt(x).None?
    ensures x == "" ==> T.Parse(p) == Ok(fs[..k] + [])
    ensures x != "" ==> T.Parse(p) == Ok(fs[..k] + [T.Frame(ReadInt(x).value, [])])
  {
    B.CutInTime(fs, p, k, x);
  }

  lemma {:induction false} CutInTimeReads(fs: seq<T.Frame>, bs: seq<Block>, p: string, k: nat, x: string)
    requires T.AllSound(fs) && BlocksOf(fs) == Ok(bs) && T.InTime(fs, p, k, x)
    ensures |bs| == |fs| && ParseText(p) == ReadCutTime(bs, k, x)
  {
    BlocksUpto(fs, bs, k);
    CutInTimeParses(fs, p, k, x);
    if x == "" {
      EndOfBlock(p, fs[..k], bs[..k]);
    } else {
      ReadTime(p, fs[..k], bs[..k], ReadInt(x).value);
    }
  }

  lemma ReadTime(text: string, fs: seq<T.Frame>, bs: seq<Block>, time: nat)
    requires T.Parse(text) == Ok(fs + [T.Frame(time, [])]) && BlocksOf(fs) == Ok(bs)
    ensures ParseText(text) == Ok(ParseLog(bs + [Block(time, [])]))
  {
    ReadBehind(text, fs, bs, T.Frame(time, []));
  }

  lemma {:induction false} EndOfBlock(p: string, fs: seq<T.Frame>, bs: seq<Block>)
    requires T.Parse(p) == Ok(fs + []) && BlocksOf(fs) == Ok(bs)
    ensures ParseText(p) == Ok(ParseLog(bs + []))
  {
    assert fs + [] == fs && bs + [] == bs;
    ReadFrames(p, fs, bs);
  }

  lemma CutInLinesParses(fs: seq<T.Frame>, p: string, k: nat, m: nat, x: string)
    requires T.AllSound(fs) && (forall f <- fs :: Finished(f)) && T.InLines(fs, p, k, m, x)
    ensures T.Parse(p) == Ok(fs[..k] + [T.Frame(fs[k].time, fs[k].lines[..m] + [x])])
  {
    NeverStopped(fs[k], m, x);
    B.CutInLines(fs, p, k, m, x);
  }

  lemma {:induction false} CutInLinesReads(fs: seq<T.Frame>, bs: seq<Block>, p: string, k: nat, m: nat, x: string)
    requires T.AllSound(fs) && (forall f <- fs :: Finished(f)) && BlocksOf(fs) == Ok(bs) && T.InLines(fs, p, k, m, x)
    ensures |bs| == |fs| && m <= |bs[k].rows| && ParseText(p) == ReadCut(bs, k, m, x)
  {
    var f, lines := fs[k], fs[k].lines[..m];
    CutInLinesParses(fs, p, k, m, x);
    BlocksUpto(fs, bs, k);
    RowsUpto(f.lines, bs[k].rows, m);
    RowsSnoc(lines, x);
    ReadLine(p, fs[..k], bs[..k], T.Frame(f.time, lines + [x]), bs[k].rows[..m], x);
  }

  lemma CutTextEnds(r: Reading, c: string)
    ensures CutText(r, c) == CutText(r, "") + c
  {
    SixEnds(SignedDecimal(r.pid), SignedDecimal(Ppid(r)), r.comm, SignedDecimal(Signed(r.cpu)), SignedDecimal(Signed(r.blkio)), c);
  }

  lemma OneBehind(a: string, c: string)
    ensures a + c == a ==> c == ""
    ensures a + c == a + "-" ==> c == "-"
  {
    if a + c == a + "-" {
      assert |c| == 1 && (a + c)[|a|] == (a + "-")[|a|];
    }
  }

  lemma MovedOn(p: string, q: string, name: string, u: string, a: string, b: string, c: string)
    ensures Six(p, q, name, u, a, b) + (" " + c) == Six(p, q, name + " " + u, a, b, c)
  {
    FrontEnds(p, q, name, Three(u, a, b), " " + c);
    var rest := Three(a, b, c);
    assert Three(u, a, b) + (" " + c) == u + " " + rest;
    Cat(name + " ", u + " ", rest);
    assert name + " " + u + " " + rest == name + " " + (u + " " + rest);
  }
}
