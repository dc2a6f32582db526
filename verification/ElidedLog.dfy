/** The taskstats log as text, written and parsed. */
module ElidedLog {
  // The lines that dump_taskstat writes into the frame of each turn of the main loop, and what
  // _parse_taskstats_log gets out of the whole file.

  import opened Wrappers
  import opened Text
  import opened TaskStats
  import opened ElisionSteps
  import opened Elision
  import opened TaskStatsLog
  import T = TimedFrames
  import B = TimedBlocks

  // ---- one line ---------------------------------------------------------------------

  function Ppid(r: Reading): nat { if r.scanPpid != 0 then r.scanPpid else r.acPpid }

  // "%d %d %s %lld %lld %lld", without the newline
  function LineText(r: Reading): string {
    Six(SignedDecimal(r.pid), SignedDecimal(Ppid(r)), r.comm,
        SignedDecimal(Signed(r.cpu)), SignedDecimal(Signed(r.blkio)), SignedDecimal(Signed(r.swap)))
  }

  function Six(p: string, q: string, comm: string, a: string, b: string, c: string): string {
    Front(p, q, comm, Three(a, b, c))
  }

  function Front(p: string, q: string, comm: string, rest: string): string { p + " " + (q + " " + (comm + " " + rest)) }

  function Three(a: string, b: string, c: string): string { a + " " + (b + " " + c) }

  lemma FrontTokens(p: string, q: string, comm: string, rest: string)
    requires ' ' !in p && ' ' !in q
    ensures Split(Front(p, q, comm, rest), " ") == [p] + ([q] + (Split(comm, " ") + Split(rest, " ")))
  {
    SplitBoth(comm, ' ', rest);
    SplitAtChar(q, ' ', comm + " " + rest);
    SplitAtChar(p, ' ', q + " " + (comm + " " + rest));
  }

  lemma ThreeTokens(a: string, b: string, c: string)
    requires ' ' !in a && ' ' !in b && ' ' !in c
    ensures Split(Three(a, b, c), " ") == [a, b, c]
  {
    SplitAtChar(c, ' ', "");
    SplitAtChar(b, ' ', c);
    SplitAtChar(a, ' ', b + " " + c);
  }

  lemma SixRead(p: string, q: string, comm: string, a: string, b: string, c: string, pid: int, ppid: int, x: int, y: int, z: int)
    requires NumberText(p, pid) && NumberText(q, ppid) && NumberText(a, x) && NumberText(b, y) && NumberText(c, z)
    ensures |Split(Six(p, q, comm, a, b, c), " ")| == 6 <==> ' ' !in comm
    ensures RowOf(Six(p, q, comm, a, b, c)) == Ok(if ' ' in comm then Other else Stat(pid, ppid, comm, x, y, z))
  {
    ThreeTokens(a, b, c);
    FrontTokens(p, q, comm, Three(a, b, c));
    SplitBoth(comm, ' ', "");
    TokensRead(Split(Six(p, q, comm, a, b, c), " "), Split(comm, " "), p, q, comm, a, b, c, pid, ppid, x, y, z);
  }

  lemma TokensRead(tokens: seq<string>, parts: seq<string>, p: string, q: string, comm: string, a: string, b: string, c: string,
                   pid: int, ppid: int, x: int, y: int, z: int)
    requires tokens == [p] + ([q] + (parts + [a, b, c])) && parts == Split(comm, " ") && (|parts| == 1 <==> ' ' !in comm)
    requires ReadSigned(p) == Some(pid) && ReadSigned(q) == Some(ppid)
    requires ReadSigned(a) == Some(x) && ReadSigned(b) == Some(y) && ReadSigned(c) == Some(z)
    ensures |tokens| == 6 <==> ' ' !in comm
    ensures RowOfTokens(tokens) == Ok(if ' ' in comm then Other else Stat(pid, ppid, comm, x, y, z))
  {
    assert |tokens| == 5 + |parts|;
    if ' ' !in comm {
      SplitAtChar(comm, ' ', "");
      SixInAll(p, q, comm, a, b, c);
      FiveNumbers([p, q, comm, a, b, c], pid, ppid, x, y, z);
    }
  }

  lemma SixInAll(p: string, q: string, comm: string, a: string, b: string, c: string)
    ensures [p] + ([q] + ([comm] + [a, b, c])) == [p, q, comm, a, b, c]
  {
  }

  lemma FiveNumbers(tokens: seq<string>, pid: int, ppid: int, x: int, y: int, z: int)
    requires |tokens| == 6 && ReadSigned(tokens[0]) == Some(pid) && ReadSigned(tokens[1]) == Some(ppid)
    requires ReadSigned(tokens[3]) == Some(x) && ReadSigned(tokens[4]) == Some(y) && ReadSigned(tokens[5]) == Some(z)
    ensures RowOfTokens(tokens) == Ok(Stat(pid, ppid, tokens[2], x, y, z))
  {
  }

  // The line has six tokens if and only if the name has no blank, and they are read back as written.
  lemma {:induction false} LineIsRead(r: Reading)
    ensures |Split(LineText(r), " ")| == 6 <==> Readable(r)
    ensures RowOf(LineText(r)) == Ok(Line(r).row)
  {
    SignedReads(r.pid);
    SignedReads(Ppid(r));
    SignedReads(Signed(r.cpu));
    SignedReads(Signed(r.blkio));
    SignedReads(Signed(r.swap));
    SixRead(SignedDecimal(r.pid), SignedDecimal(Ppid(r)), r.comm,
            SignedDecimal(Signed(r.cpu)), SignedDecimal(Signed(r.blkio)), SignedDecimal(Signed(r.swap)),
            r.pid, Ppid(r), Signed(r.cpu), Signed(r.blkio), Signed(r.swap));
  }

  lemma SixInLine(p: string, q: string, comm: string, a: string, b: string, c: string)
    requires OneLine(p) && OneLine(q) && OneLine(comm) && OneLine(a) && OneLine(b) && OneLine(c)
    ensures OneLine(Six(p, q, comm, a, b, c)) && Six(p, q, comm, a, b, c) != ""
  {
  }

  lemma LineIsOneLine(r: Reading)
    requires OneLine(r.comm)
    ensures OneLine(LineText(r)) && LineText(r) != ""
  {
    SignedReads(r.pid);
    SignedReads(Ppid(r));
    SignedReads(Signed(r.cpu));
    SignedReads(Signed(r.blkio));
    SignedReads(Signed(r.swap));
    SixInLine(SignedDecimal(r.pid), SignedDecimal(Ppid(r)), r.comm,
              SignedDecimal(Signed(r.cpu)), SignedDecimal(Signed(r.blkio)), SignedDecimal(Signed(r.swap)));
  }

  // ---- the whole log -------------------------------------------------------------------

  // One turn of the main loop: a timestamp, and the readings of all processes.
  datatype Tick = Tick(time: nat, readings: seq<Reading>)

  predicate Sound(t: Tick) { forall r <- t.readings :: r.time == t.time && OneLine(r.comm) }

  function Readings(ticks: seq<Tick>): seq<Reading> {
    if ticks == [] then [] else Readings(Init(ticks)) + Last(ticks).readings
  }

  // Those of the readings rs that are written, when `before` came first.
  function Writes(before: seq<Reading>, rs: seq<Reading>): seq<Reading> {
    if rs == [] then []
    else Writes(before, Init(rs)) + if Dropped(before + Init(rs), Last(rs)) then [] else [Last(rs)]
  }

  function Texts(rs: seq<Reading>): seq<string> {
    seq(|rs|, i requires 0 <= i < |rs| => LineText(rs[i]))
  }

  function Rows(rs: seq<Reading>): seq<Row> {
    seq(|rs|, i requires 0 <= i < |rs| => Line(rs[i]).row)
  }

  // The frames of the log.
  function Frames(ticks: seq<Tick>): seq<T.Frame> {
    if ticks == [] then []
    else Frames(Init(ticks)) + [T.Frame(Last(ticks).time, Texts(Writes(Readings(Init(ticks)), Last(ticks).readings)))]
  }

  function Blocks(ticks: seq<Tick>): seq<Block> {
    if ticks == [] then []
    else Blocks(Init(ticks)) + [Block(Last(ticks).time, Rows(Writes(Readings(Init(ticks)), Last(ticks).readings)))]
  }

  lemma TextsAreRead(rs: seq<Reading>)
    ensures RowsOf(Texts(rs)) == Ok(Rows(rs))
  {
    forall i | 0 <= i < |rs| ensures RowOf(Texts(rs)[i]) == Ok(Rows(rs)[i]) {
      LineIsRead(rs[i]);
    }
    RowsOfAll(Texts(rs), Rows(rs));
  }

  lemma {:induction false} FramesAreRead(ticks: seq<Tick>)
    ensures |Blocks(ticks)| == |ticks| && BlocksOf(Frames(ticks)) == Ok(Blocks(ticks))
  {
    if ticks != [] {
      var fs := Frames(ticks);
      FramesAreRead(Init(ticks));
      TextsAreRead(Writes(Readings(Init(ticks)), Last(ticks).readings));
      assert fs[..|fs| - 1] == Frames(Init(ticks));
    }
  }

  lemma {:induction false} WritesAreSome(before: seq<Reading>, rs: seq<Reading>)
    ensures forall r :: r in Writes(before, rs) ==> r in rs
  {
    if rs != [] {
      WritesAreSome(before, Init(rs));
    }
  }

  lemma {:induction false} FramesAreSound(ticks: seq<Tick>)
    requires forall t <- ticks :: Sound(t)
    ensures T.AllSound(Frames(ticks))
  {
    if ticks != [] {
      FramesAreSound(Init(ticks));
      var rs := Writes(Readings(Init(ticks)), Last(ticks).readings);
      WritesAreSome(Readings(Init(ticks)), Last(ticks).readings);
      assert Sound(Last(ticks));
      forall l <- Texts(rs) ensures OneLine(l) && l != "" {
        var i :| 0 <= i < |rs| && l == LineText(rs[i]);
        assert rs[i] in rs;
        LineIsOneLine(rs[i]);
      }
    }
  }

  // The lines of one frame, as the parser goes through them.
  function Timely(time: int, rs: seq<Reading>): seq<Timed> { TimedRows(Block(time, Rows(rs))) }

  lemma TimelySnoc(time: int, rs: seq<Reading>, r: Reading)
    requires r.time == time
    ensures Timely(time, rs + [r]) == Timely(time, rs) + [Line(r)]
  {
    assert Rows(rs + [r]) == Rows(rs) + [Line(r).row];
  }

  lemma {:induction false} WritesAreKept(before: seq<Reading>, rs: seq<Reading>, time: int)
    requires forall r <- rs :: r.time == time
    ensures Kept(before + rs) == Kept(before) + Timely(time, Writes(before, rs))
  {
    if rs == [] {
      assert before + rs == before && Timely(time, []) == [];
      assert Kept(before) + [] == Kept(before);
    } else {
      var (w, r) := (Writes(before, Init(rs)), Last(rs));
      WritesAreKept(before, Init(rs), time);
      assert Init(before + rs) == before + Init(rs) && Last(before + rs) == r;
      TimelySnoc(time, w, r);
      OneMore(Kept(before), Timely(time, w), Line(r));
      if Dropped(before + Init(rs), r) {
        assert w + [] == w;
      }
    }
  }

  lemma OneMore(a: seq<Timed>, b: seq<Timed>, t: Timed)
    ensures a + b + [t] == a + (b + [t]) && a + b + [] == a + b
  {
  }

  lemma {:induction false} BlocksAreKept(ticks: seq<Tick>)
    requires forall t <- ticks :: Sound(t)
    ensures Flatten(Blocks(ticks)) == Kept(Readings(ticks))
  {
    if ticks != [] {
      BlocksAreKept(Init(ticks));
      var bs := Blocks(ticks);
      assert Sound(Last(ticks));
      WritesAreKept(Readings(Init(ticks)), Last(ticks).readings, Last(ticks).time);
      assert bs[..|bs| - 1] == Blocks(Init(ticks));
    }
  }

  // The file parses, to the processes of the kept lines.
  lemma {:induction false} LogIsParsed(ticks: seq<Tick>)
    requires forall t <- ticks :: Sound(t)
    ensures var r := ParseText(T.LogText(Frames(ticks)));
      && r.Ok? && (r.value.Some? <==> |ticks| >= 2)
      && (r.value.Some? ==> r.value.value.count == |ticks| && r.value.value.procs == Parse(Kept(Readings(ticks))).procs)
  {
    FramesAreSound(ticks);
    FramesComeBack(Frames(ticks));
    FramesAreRead(ticks);
    BlocksAreKept(ticks);
    ReadFrames(T.LogText(Frames(ticks)), Frames(ticks), Blocks(ticks));
    LogOfBlocks(Blocks(ticks), Kept(Readings(ticks)));
  }

  lemma LogOfBlocks(blocks: seq<Block>, rows: seq<Timed>)
    requires Flatten(blocks) == rows
    ensures var r := ParseLog(blocks);
      (r.Some? <==> |blocks| >= 2) && (r.Some? ==> r.value.count == |blocks| && r.value.procs == Parse(rows).procs)
  {
  }

  lemma FramesComeBack(fs: seq<T.Frame>)
    requires T.AllSound(fs)
    ensures T.Parse(T.LogText(fs)) == Ok(fs)
  {
    assert T.NoEmptyLine(fs) && T.AllOneLine(fs);
    B.RoundTripIff(fs);
  }

  lemma ReadFrames(text: string, fs: seq<T.Frame>, blocks: seq<Block>)
    requires T.Parse(text) == Ok(fs) && BlocksOf(fs) == Ok(blocks)
    ensures ParseText(text) == Ok(ParseLog(blocks))
  {
  }

  // The processes drawn from the file are those of all readings if and only if every line left out
  // repeats the name and total of the last readable line of its process.
  lemma {:induction false} FileIsLosslessIff(ticks: seq<Tick>)
    requires |ticks| >= 2 && forall t <- ticks :: Sound(t)
    requires Regular(Readings(ticks)) && Few(Full(Readings(ticks)))
    ensures var r := ParseText(T.LogText(Frames(ticks)));
      r.Ok? && r.value.Some? && (r.value.value.procs == Parse(Full(Readings(ticks))).procs <==> AllHarmless(Readings(ticks)))
  {
    LogIsParsed(ticks);
    ElisionIsLosslessIff(Readings(ticks));
  }
}
