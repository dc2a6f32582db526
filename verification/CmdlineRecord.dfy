/** The command lines of processes that exec, written and read back. */
module CmdlineRecord {
  import opened Wrappers
  import opened Text
  import T = TimedFrames
  import B = TimedBlocks
  import opened CmdlineParts

  // The loop that rewrites the buffer while it scans it.
  method DumpArgs(buffer: array<char>, len: nat) returns (out: string)
    requires buffer.Length == SIZE && len <= SIZE
    modifies buffer
    ensures out == Emitted(Masked(old(buffer[..len])))
  {
    ghost var m := Masked(buffer[..len]);
    out := "";
    buffer[SIZE - 1] := NUL;
    var start, i := 0, 0;
    while i < len
      invariant start <= i <= len
      invariant out == m[..start] && (start > 0 ==> m[start - 1] == NUL)
      invariant forall k :: start <= k < i ==> m[k] != NUL
      invariant forall k :: 0 <= k < i ==> buffer[k] == m[k]
      invariant forall k :: i <= k < len ==> (if buffer[k] == '\n' then NUL else buffer[k]) == m[k]
    {
      var newline := buffer[i] == '\n';
      if newline {
        buffer[i] := NUL;
      }
      if buffer[i] == NUL {
        EmitNext(m, buffer[..], start, i + 1);
        out := out + buffer[start..i + 1];
        if newline {
          // meant to find the next argument, but the byte under i is zero by now
          i := SkipArg(buffer, len, i);
        }
        start := i + 1;
      }
      i := i + 1;
    }
    EmittedIs(m, start);
    assert m[..len] == m;
  }

  method SkipArg(buffer: array<char>, len: nat, start: nat) returns (i: nat)
    requires start <= len <= buffer.Length
    ensures start <= i <= len && (i < len ==> buffer[i] == NUL)
    ensures forall k :: start <= k < i ==> buffer[k] != NUL
  {
    i := start;
    while i < len && buffer[i] != NUL
      invariant start <= i <= len
      invariant forall k :: start <= k < i ==> buffer[k] != NUL
    {
      i := i + 1;
    }
  }

  // What is written, byte by byte: newlines and the last byte of the buffer become zeros, and what
  // stands behind the last of these and of the zeros is left out.
  lemma WrittenBytes(b: string)
    ensures var out := Emitted(Masked(b));
      && |out| <= |b| && (out != "" ==> out[|out| - 1] == '\0')
      && (forall k :: 0 <= k < |out| ==> out[k] == (if b[k] == '\n' || k == 4095 then '\0' else b[k]))
      && (forall k :: |out| <= k < |b| ==> b[k] != '\0' && b[k] != '\n') && (|b| > 4095 ==> |out| > 4095)
  {
    MaskedBytes(b, Masked(b), Emitted(Masked(b)));
  }

  method ParseCmdlineLog(text: string) returns (r: Result<map<nat, Cmd>>)
    ensures r == Parse(text)
  {
    var cmdLines: map<nat, Cmd> := map[];
    var blocks := Split(text, "\n\n");
    for b := 0 to |blocks|
      invariant AddBlocks(cmdLines, blocks[b..]) == Parse(text)
    {
      assert blocks[b..][1..] == blocks[b + 1..];
      var lines := Split(blocks[b], "\n");
      if |lines| >= 3 {
        var pid := ReadInt(lines[0]);
        if pid == None {
          return Err;
        }
        var args := Split(StripLeft(lines[2], ':'), [NUL]);
        args := args[..|args| - 1];
        cmdLines := cmdLines[pid.value := Cmd(StripLeft(lines[1], ':'), args)];
      }
    }
    return Ok(cmdLines);
  }

  // Whatever bytes command lines and exe links hold, each record is read by itself.
  lemma LogIsHeard(rs: seq<Record>)
    ensures Parse(LogText(rs)) == HearAll(rs)
  {
    LogBehind(rs, "");
    assert LogText(rs) + "" == LogText(rs);
    if HearAll(rs).Ok? {
      LineIsNoRecord(HearAll(rs).value, "");
    }
  }

  // Of several records of a pid the last one counts.
  lemma {:induction false} AllAreHeard(rs: seq<Record>)
    requires forall r <- rs :: OneLine(r.exe)
    ensures HearAll(rs) == Ok(AllHeard(rs))
  {
    if rs != [] {
      AllAreHeard(rs[..|rs| - 1]);
      assert rs[|rs| - 1] in rs;
      RecordIsHeard(AllHeard(rs[..|rs| - 1]), rs[|rs| - 1]);
    }
  }

  // With a newline in the exe, what stands behind it is taken for the arguments, and those for nothing.
  // A newline at its end makes the record disappear.
  lemma NewlineInExe(cmds: map<nat, Cmd>, r: Record, a: string, b: string)
    requires r.exe == a + "\n" + b && OneLine(a) && OneLine(b)
    ensures AddBlocks(cmds, Split(Core(r), "\n\n")) == Ok(if b == "" then cmds else cmds[r.pid := Cmd(StripLeft(":" + a, ':'), ArgsOf(b))])
  {
    var d, x, e := Decimal(r.pid), ":" + a, ":" + Emitted(Masked(r.cmdline));
    NoNewline(r.cmdline);
    DecimalReads(r.pid);
    DecimalDigits(r.pid);
    CoreParts(r, d, a, b, e);
    if b == "" {
      LostRecord(cmds, d, x, e);
    } else {
      ShiftedRecord(cmds, r.pid, x, b, e);
    }
  }

  // A log cut off anywhere: every complete record is read, and behind them at most one damaged one. If
  // its exe is complete, it takes the place of what was known of its pid, with the first of its
  // arguments; otherwise it is not seen.
  lemma {:induction false} PrefixIsHeard(rs: seq<Record>, p: string) returns (k: nat, args: seq<string>)
    requires (forall r <- rs :: OneLine(r.exe)) && p <= LogText(rs)
    ensures k <= |rs| && LogText(rs[..k]) <= p && (k < |rs| ==> !(LogText(rs[..k + 1]) <= p))
    ensures k < |rs| ==> args <= Heard(rs[k]).args
    ensures Parse(p) == Ok(
      if k < |rs| && LogText(rs[..k]) + Upper(rs[k]) <= p then AllHeard(rs[..k])[rs[k].pid := Cmd(Heard(rs[k]).exe, args)]
      else AllHeard(rs[..k]))
  {
    LogIsFrames(rs);
    var m, x;
    k, m, x := B.PrefixShape(AsFrames(rs), p);
    FramesUpto(rs, k);
    AllAreHeard(rs[..k]);
    args := [];
    if k == |rs| {
      LogBehind(rs[..k], x);
      LineIsNoRecord(AllHeard(rs[..k]), x);
    } else {
      args := PrefixInRecord(rs, p, k, m, x);
    }
  }

  lemma PrefixInRecord(rs: seq<Record>, p: string, k: nat, m: nat, x: string) returns (args: seq<string>)
    requires k < |rs| && forall r <- rs :: OneLine(r.exe)
    requires (m == 0 && T.InTime(AsFrames(rs), p, k, x)) || T.InLines(AsFrames(rs), p, k, m, x)
    ensures !(LogText(rs[..k + 1]) <= p)
    ensures args <= Heard(rs[k]).args
    ensures Parse(p) == Ok(
      if LogText(rs[..k]) + Upper(rs[k]) <= p then AllHeard(rs[..k])[rs[k].pid := Cmd(Heard(rs[k]).exe, args)]
      else AllHeard(rs[..k]))
  {
    var front, r := LogText(rs[..k]), rs[k];
    assert r in rs;
    FramesUpto(rs, k);
    AllAreHeard(rs[..k]);
    if T.InLines(AsFrames(rs), p, k, m, x) {
      var t := T.Head(AsFrame(r), m, x);
      args := TornRecord(AllHeard(rs[..k]), r, m, x);
      LogBehind(rs[..k], t);
      UpperIff(r, m, x);
      SameBehind(front, Upper(r), t);
      T.HeadShort(AsFrame(r), m, x);
      NotWhole(rs, k, t);
    } else {
      args := [];
      DecimalReads(r.pid);
      LineIsNoRecord(AllHeard(rs[..k]), x);
      LogBehind(rs[..k], x);
      SameBehind(front, Upper(r), x);
      T.TimeShort(AsFrame(r), x);
      NotWhole(rs, k, x);
    }
  }

  // No newline ever comes out of the parser.
  lemma {:induction false} ParsedIsClean(cmds: map<nat, Cmd>, blocks: seq<string>)
    requires forall pid <- cmds :: Clean(cmds[pid])
    ensures AddBlocks(cmds, blocks).Ok? ==> forall pid <- AddBlocks(cmds, blocks).value :: Clean(AddBlocks(cmds, blocks).value[pid])
    decreases |blocks|
  {
    if blocks != [] {
      BlockIsClean(cmds, blocks[0]);
      if AddBlock(cmds, blocks[0]).Ok? {
        ParsedIsClean(AddBlock(cmds, blocks[0]).value, blocks[1..]);
      }
    }
  }

  // Arguments take up no more room than the line they are read from.
  lemma ArgsFit(line: string)
    ensures |Terminated(ArgsOf(":" + line))| <= |line|
  {
    assert (":" + line)[1..] == line;
    StripLeftShortens(line, ':');
    var parts := Split(StripLeft(line, ':'), [NUL]);
    JoinSplit(StripLeft(line, ':'));
    var (args, x) := (parts[..|parts| - 1], parts[|parts| - 1]);
    assert parts == args + [x];
    TerminatedSnoc(args, x);
  }

  // A process with any exe and any arguments, as it execs and is read back.
  lemma RecordRoundTripIff(pid: nat, exe: string, args: seq<string>)
    requires forall a <- args :: NUL !in a
    ensures Parse(LogText([Record(pid, exe, Read(Terminated(args)))])) == Ok(map[pid := Cmd(exe, args)])
      <==> && Clean(Cmd(exe, args)) && |Terminated(args)| <= SIZE
           && !Colon(exe) && (args != [] ==> !Colon(args[0]))
  {
    var r := Record(pid, exe, Read(Terminated(args)));
    if Parse(LogText([r])) == Ok(map[pid := Cmd(exe, args)]) {
      ParsedIsClean(map[], Split(LogText([r]), "\n\n"));
      assert Clean(map[pid := Cmd(exe, args)][pid]);
    }
    if Clean(Cmd(exe, args)) {
      CleanRoundTripIff(pid, exe, args);
    }
  }

  lemma CleanRoundTripIff(pid: nat, exe: string, args: seq<string>)
    requires Clean(Cmd(exe, args)) && forall a <- args :: NUL !in a
    ensures Parse(LogText([Record(pid, exe, Read(Terminated(args)))])) == Ok(map[pid := Cmd(exe, args)])
      <==> |Terminated(args)| <= SIZE && !Colon(exe) && (args != [] ==> !Colon(args[0]))
  {
    var r := Record(pid, exe, Read(Terminated(args)));
    OneHeard(r, Cmd(exe, args));
    assert (":" + exe)[1..] == exe;
    StripLeftShortens(exe, ':');
    var line := Emitted(Masked(Read(Terminated(args))));
    EmittedFacts(Masked(Read(Terminated(args))));
    ArgsFit(line);
    if |Terminated(args)| <= SIZE {
      WrittenWhole(args);
      ArgsRoundTripIff(args);
    }
  }

  lemma OneHeard(r: Record, c: Cmd)
    requires OneLine(r.exe)
    ensures Parse(LogText([r])) == Ok(map[r.pid := c]) <==> Heard(r) == c
  {
    LogIsHeard([r]);
    AllAreHeard([r]);
    assert AllHeard([r]) == AllHeard([])[r.pid := Heard(r)] == map[r.pid := Heard(r)];
    assert map[r.pid := Heard(r)][r.pid] == Heard(r);
    assert map[r.pid := c][r.pid] == c;
  }
}
