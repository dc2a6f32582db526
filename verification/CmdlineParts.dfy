/**
 Records of command lines, written and parsed, and the steps to what CmdlineRecord says.

 RecordText is what dump_cmdline writes, with the bytes of the command line Masked and Emitted, and
 Parse what the parser makes of a log. Core is a record without its empty line; since it does not end in
 a newline, splitting a log at empty lines takes it apart record by record (SplitClosed, RecordFirst,
 LogBehind). RecordIsHeard says what a record with an exe of one line is read as, ShiftedRecord and
 LostRecord what happens to one with a newline in it, and TornRecord what is read of one that was cut.
 For the round trip, arguments are split at their zeros and put together again (SplitTerminated,
 JoinSplit).
 */
module CmdlineParts {
  import opened Wrappers
  import opened Text
  import T = TimedFrames

  const SIZE: nat := 4096
  const NUL: char := '\0'

  // What one call finds: the exe link, and the bytes that read(2) got from cmdline.
  datatype Record = Record(pid: nat, exe: string, cmdline: string)

  datatype Cmd = Cmd(exe: string, args: seq<string>)

  // ---- the writer ----------------------------------------------------------------

  // The last byte of the buffer is always zero, and newlines become zeros.
  function Masked(b: string): string {
    seq(|b|, i requires 0 <= i < |b| => if b[i] == '\n' || i == SIZE - 1 then NUL else b[i])
  }

  // Everything up to the last zero; an argument without its zero is not written.
  function Emitted(m: string): string {
    if m == "" || m[|m| - 1] == NUL then m else Emitted(m[..|m| - 1])
  }

  function RecordText(r: Record): string {
    Decimal(r.pid) + "\n:" + r.exe + "\n:" + Emitted(Masked(r.cmdline)) + "\n\n"
  }

  function LogText(rs: seq<Record>): string {
    if rs == [] then "" else RecordText(rs[0]) + LogText(rs[1..])
  }

  lemma EmitNext(m: string, buffer: string, start: nat, end: nat)
    requires start <= end <= |m| && end <= |buffer| && forall k :: start <= k < end ==> buffer[k] == m[k]
    ensures m[..start] + buffer[start..end] == m[..end]
  {
    assert buffer[start..end] == m[start..end];
  }

  lemma MaskedBytes(b: string, m: string, out: string)
    requires m == Masked(b) && out == Emitted(m)
    ensures |out| <= |b| && (out != "" ==> out[|out| - 1] == '\0')
    ensures forall k :: 0 <= k < |out| ==> out[k] == (if b[k] == '\n' || k == 4095 then '\0' else b[k])
    ensures (forall k :: |out| <= k < |b| ==> b[k] != '\0' && b[k] != '\n') && (|b| > 4095 ==> |out| > 4095)
  {
    EmittedFacts(m);
    forall k | |out| <= k < |b| ensures m[k] != NUL && b[k] != '\0' && b[k] != '\n' {
    }
    assert |b| > 4095 ==> m[4095] == NUL;
  }

  lemma {:induction false} EmittedFacts(m: string)
    ensures Emitted(m) <= m && (Emitted(m) != "" ==> Emitted(m)[|Emitted(m)| - 1] == NUL)
    ensures forall k :: |Emitted(m)| <= k < |m| ==> m[k] != NUL
  {
    if m != "" && m[|m| - 1] != NUL {
      EmittedFacts(m[..|m| - 1]);
    }
  }

  lemma {:induction false} EmittedIs(m: string, start: nat)
    requires start <= |m| && (start > 0 ==> m[start - 1] == NUL)
    requires forall k :: start <= k < |m| ==> m[k] != NUL
    ensures Emitted(m) == m[..start]
  {
    if start == |m| {
      assert m[..start] == m;
    } else {
      EmittedIs(m[..|m| - 1], start);
    }
  }

  // ---- _parse_cmdline_log --------------------------------------------------------

  function ArgsOf(line: string): seq<string> {
    var parts := Split(StripLeft(line, ':'), [NUL]);
    parts[..|parts| - 1]
  }

  function AddBlock(cmds: map<nat, Cmd>, block: string): Result<map<nat, Cmd>> {
    var lines := Split(block, "\n");
    if |lines| < 3 then Ok(cmds)
    else match ReadInt(lines[0])
      case None => Err
      case Some(pid) => Ok(cmds[pid := Cmd(StripLeft(lines[1], ':'), ArgsOf(lines[2]))])
  }

  function AddBlocks(cmds: map<nat, Cmd>, blocks: seq<string>): Result<map<nat, Cmd>>
    decreases |blocks|
  {
    if blocks == [] then Ok(cmds)
    else match AddBlock(cmds, blocks[0])
      case Err => Err
      case Ok(cmds') => AddBlocks(cmds', blocks[1..])
  }

  function Parse(text: string): Result<map<nat, Cmd>> {
    AddBlocks(map[], Split(text, "\n\n"))
  }

  // ---- every record is one block ---------------------------------------------------

  lemma NoNewline(b: string)
    ensures OneLine(Emitted(Masked(b)))
  {
    EmittedFacts(Masked(b));
    assert forall i :: 0 <= i < |Masked(b)| ==> Masked(b)[i] != '\n';
  }

  // A record has the shape of a timed block of two lines.
  function AsFrame(r: Record): T.Frame {
    T.Frame(r.pid, [":" + r.exe, ":" + Emitted(Masked(r.cmdline))])
  }

  lemma RecordIsFrame(r: Record)
    ensures RecordText(r) == T.FrameText(AsFrame(r))
  {
    var (e, a) := (":" + r.exe, ":" + Emitted(Masked(r.cmdline)));
    assert T.Body([e, a]) == e + "\n" + T.Body([a]) && T.Body([a]) == a + "\n" + T.Body([]);
    assert "\n" + ":" == "\n:" && "\n" + "\n" == "\n\n";
    calc {
      T.FrameText(AsFrame(r));
      Decimal(r.pid) + "\n" + (e + "\n" + (a + "\n" + "")) + "\n";
      Decimal(r.pid) + ("\n" + ":") + r.exe + ("\n" + ":") + Emitted(Masked(r.cmdline)) + ("\n" + "\n");
    }
  }

  // What the parser makes of a record.
  function Heard(r: Record): Cmd {
    Cmd(StripLeft(":" + r.exe, ':'), ArgsOf(":" + Emitted(Masked(r.cmdline))))
  }

  function AllHeard(rs: seq<Record>): map<nat, Cmd> {
    if rs == [] then map[] else AllHeard(rs[..|rs| - 1])[rs[|rs| - 1].pid := Heard(rs[|rs| - 1])]
  }

  // ---- records do not interfere ------------------------------------------------------

  // A record without the empty line that ends it.
  function Core(r: Record): string {
    Decimal(r.pid) + "\n:" + r.exe + "\n:" + Emitted(Masked(r.cmdline))
  }

  function After(cmds: Result<map<nat, Cmd>>, blocks: seq<string>): Result<map<nat, Cmd>> {
    if cmds.Err? then Err else AddBlocks(cmds.value, blocks)
  }

  // What the parser makes of the records one by one.
  function HearAll(rs: seq<Record>): Result<map<nat, Cmd>> {
    if rs == [] then Ok(map[]) else After(HearAll(rs[..|rs| - 1]), Split(Core(rs[|rs| - 1]), "\n\n"))
  }

  // An empty line splits a text behind anything that does not end in a newline.
  lemma {:induction false} SplitClosed(a: string, rest: string)
    requires a != "" && a[|a| - 1] != '\n'
    ensures Split(a + "\n\n" + rest, "\n\n") == Split(a, "\n\n") + Split(rest, "\n\n")
    decreases |a|
  {
    var i := Find(a, "\n\n");
    FindIsFirst(a, "\n\n");
    if i < 0 {
      NoPairBefore(a, |a|, rest);
      SplitFirst(a, "\n\n", rest);
    } else {
      var x, y := a[..i], a[i + 2..];
      T.PairAt(a, i);
      assert a == x + "\n\n" + y && y != "" && y[|y| - 1] == a[|a| - 1];
      SplitClosed(y, rest);
      NoPairBefore(a, i, rest);
      Regroup(x, y, rest);
      SplitFirst(x, "\n\n", y + "\n\n" + rest);
      Cat([x], Split(y, "\n\n"), Split(rest, "\n\n"));
    }
  }

  lemma Regroup(x: string, y: string, rest: string)
    ensures x + "\n\n" + y + "\n\n" + rest == x + "\n\n" + (y + "\n\n" + rest)
  {
  }

  lemma NoPairBefore(a: string, i: nat, rest: string)
    requires i <= |a| && a != "" && a[|a| - 1] != '\n' && forall j: nat | j < i :: !Occurs(a, "\n\n", j)
    ensures forall j: nat | j < i :: !Occurs(a + "\n\n" + rest, "\n\n", j)
  {
    var s := a + "\n\n" + rest;
    forall j: nat | j < i ensures !Occurs(s, "\n\n", j) {
      T.PairAt(s, j);
      T.PairAt(a, j);
      assert s[j] == a[j] && (j + 1 < |a| ==> s[j + 1] == a[j + 1]);
    }
  }

  lemma {:induction false} AddBoth(cmds: map<nat, Cmd>, a: seq<string>, b: seq<string>)
    ensures AddBlocks(cmds, a + b) == After(AddBlocks(cmds, a), b)
    decreases |a|
  {
    if a == [] {
      assert a + b == b;
    } else {
      assert (a + b)[1..] == a[1..] + b;
      if AddBlock(cmds, a[0]).Ok? {
        AddBoth(AddBlock(cmds, a[0]).value, a[1..], b);
      }
    }
  }

  lemma RecordFirst(cmds: Result<map<nat, Cmd>>, r: Record, rest: string)
    ensures After(cmds, Split(RecordText(r) + rest, "\n\n")) == After(After(cmds, Split(Core(r), "\n\n")), Split(rest, "\n\n"))
  {
    NoNewline(r.cmdline);
    var e := Emitted(Masked(r.cmdline));
    assert Core(r)[|Core(r)| - 1] == (if e == "" then ':' else e[|e| - 1]);
    SplitClosed(Core(r), rest);
    if cmds.Ok? {
      AddBoth(cmds.value, Split(Core(r), "\n\n"), Split(rest, "\n\n"));
    }
  }

  lemma {:induction false} LogFrom(rs: seq<Record>, k: nat, t: string)
    requires k <= |rs|
    ensures After(HearAll(rs[..k]), Split(LogText(rs[k..]) + t, "\n\n")) == After(HearAll(rs), Split(t, "\n\n"))
    decreases |rs| - k
  {
    if k == |rs| {
      assert rs[..k] == rs && "" + t == t;
    } else {
      assert rs[k..][1..] == rs[k + 1..] && rs[..k + 1][..k] == rs[..k];
      Cat(RecordText(rs[k]), LogText(rs[k + 1..]), t);
      RecordFirst(HearAll(rs[..k]), rs[k], LogText(rs[k + 1..]) + t);
      LogFrom(rs, k + 1, t);
    }
  }

  // Behind complete records, anything is read as if they were not there.
  lemma {:induction false} LogBehind(rs: seq<Record>, t: string)
    ensures Parse(LogText(rs) + t) == After(HearAll(rs), Split(t, "\n\n"))
  {
    LogFrom(rs, 0, t);
    assert rs[..0] == [] && rs[0..] == rs;
  }

  // What is left of one line is no record.
  lemma LineIsNoRecord(cmds: map<nat, Cmd>, t: string)
    requires OneLine(t)
    ensures AddBlocks(cmds, Split(t, "\n\n")) == Ok(cmds)
  {
    forall j: nat ensures !Occurs(t, "\n\n", j) {
      T.PairAt(t, j);
    }
    SplitNone(t, "\n\n");
    OneLineSplit(t, "");
    OneBlock(cmds, t);
  }

  lemma OneBlock(cmds: map<nat, Cmd>, t: string)
    ensures AddBlocks(cmds, [t]) == AddBlock(cmds, t)
  {
    assert [t][1..] == [];
  }

  lemma CoreIsPiece(r: Record)
    requires OneLine(r.exe)
    ensures T.Sound(AsFrame(r)) && Core(r) == T.Piece(AsFrame(r)) && Split(Core(r), "\n\n") == [Core(r)]
  {
    var f := AsFrame(r);
    NoNewline(r.cmdline);
    RecordIsFrame(r);
    T.FrameIsPiece(f);
    SameFront(Core(r), T.Piece(f), "\n\n");
    T.TornIsOnePiece(f, Core(r));
  }

  // With an exe of one line, a record is one block.
  lemma RecordIsHeard(cmds: map<nat, Cmd>, r: Record)
    requires OneLine(r.exe)
    ensures AddBlocks(cmds, Split(Core(r), "\n\n")) == Ok(cmds[r.pid := Heard(r)])
  {
    CoreIsPiece(r);
    DecimalReads(r.pid);
    SplitLines(Decimal(r.pid), AsFrame(r).lines);
    OneBlock(cmds, Core(r));
    BlockIsHeard(cmds, Core(r), r.pid, AsFrame(r).lines);
  }

  lemma BlockIsHeard(cmds: map<nat, Cmd>, block: string, pid: nat, lines: seq<string>)
    requires Split(block, "\n") == [Decimal(pid)] + lines && |lines| >= 2
    ensures AddBlock(cmds, block) == Ok(cmds[pid := Cmd(StripLeft(lines[0], ':'), ArgsOf(lines[1]))])
  {
    DecimalReads(pid);
  }

  lemma CoreParts(r: Record, d: string, a: string, b: string, e: string)
    requires r.exe == a + "\n" + b && d == Decimal(r.pid) && e == ":" + Emitted(Masked(r.cmdline))
    ensures b == "" ==> Core(r) == d + "\n" + (":" + a) + "\n\n" + e
    ensures Core(r) == d + "\n" + (":" + a) + "\n" + b + "\n" + e
  {
    assert "\n" + ":" == "\n:";
    if b == "" {
      assert "\n" + "" + "\n" == "\n\n";
    }
  }

  lemma LostRecord(cmds: map<nat, Cmd>, d: string, x: string, e: string)
    requires OneLine(d) && OneLine(x) && OneLine(e) && d != "" && x != ""
    ensures AddBlocks(cmds, Split(d + "\n" + x + "\n\n" + e, "\n\n")) == Ok(cmds)
  {
    var t := d + "\n" + x;
    assert t[|t| - 1] == x[|x| - 1];
    SplitClosed(t, e);
    TwoLinesAreNoRecord(cmds, d, x);
    AddBoth(cmds, Split(t, "\n\n"), Split(e, "\n\n"));
    LineIsNoRecord(cmds, e);
  }

  lemma ShiftedRecord(cmds: map<nat, Cmd>, pid: nat, x: string, b: string, e: string)
    requires OneLine(x) && OneLine(b) && OneLine(e) && x != "" && b != "" && e != ""
    ensures AddBlocks(cmds, Split(Decimal(pid) + "\n" + x + "\n" + b + "\n" + e, "\n\n")) == Ok(cmds[pid := Cmd(StripLeft(x, ':'), ArgsOf(b))])
  {
    var f := T.Frame(pid, [x, b, e]);
    ThreeLines(x, b, e);
    var t := T.Piece(f);
    assert t == Decimal(pid) + "\n" + x + "\n" + b + "\n" + e;
    T.TornIsOnePiece(f, t);
    DecimalReads(pid);
    SplitLines(Decimal(pid), f.lines);
    OneBlock(cmds, t);
    BlockIsHeard(cmds, t, pid, f.lines);
  }

  lemma ThreeLines(x: string, b: string, e: string)
    ensures Tail([x, b, e]) == "\n" + x + "\n" + b + "\n" + e
  {
    assert [x, b, e][1..] == [b, e] && [b, e][1..] == [e] && [e][1..] == [];
    assert Tail([e]) == "\n" + e + "";
    assert Tail([b, e]) == "\n" + b + ("\n" + e);
    assert Tail([x, b, e]) == "\n" + x + ("\n" + b + ("\n" + e));
  }

  lemma TwoLinesAreNoRecord(cmds: map<nat, Cmd>, x: string, y: string)
    requires OneLine(x) && OneLine(y) && x != "" && y != ""
    ensures AddBlocks(cmds, Split(x + "\n" + y, "\n\n")) == Ok(cmds)
  {
    var t := x + "\n" + y;
    forall j: nat ensures !Occurs(t, "\n\n", j) {
      T.PairAt(t, j);
    }
    SplitNone(t, "\n\n");
    OneLineSplit(x, y);
    OneLineSplit(y, "");
    OneBlock(cmds, t);
  }

  // ---- a log cut off anywhere ----------------------------------------------------------

  function AsFrames(rs: seq<Record>): seq<T.Frame> {
    seq(|rs|, i requires 0 <= i < |rs| => AsFrame(rs[i]))
  }

  lemma {:induction false} LogIsFrames(rs: seq<Record>)
    ensures LogText(rs) == T.LogText(AsFrames(rs))
  {
    if rs != [] {
      LogIsFrames(rs[1..]);
      RecordIsFrame(rs[0]);
      assert AsFrames(rs)[1..] == AsFrames(rs[1..]);
    }
  }

  lemma FramesUpto(rs: seq<Record>, k: nat)
    requires k <= |rs|
    ensures LogText(rs[..k]) == T.LogText(AsFrames(rs)[..k])
  {
    LogIsFrames(rs[..k]);
    assert AsFrames(rs[..k]) == AsFrames(rs)[..k];
  }

  // A record as far as its exe.
  function Upper(r: Record): string { Decimal(r.pid) + "\n" + (":" + r.exe + "\n") }

  // What is left of the arguments.
  lemma ArgsUpto(x: string, y: string)
    requires x <= y
    ensures ArgsOf(x) <= ArgsOf(y)
  {
    StripUpto(x, y, ':');
    SplitPrefix(StripLeft(x, ':'), StripLeft(y, ':'), NUL);
  }

  lemma {:induction false} StripUpto(x: string, y: string, c: char)
    requires x <= y
    ensures StripLeft(x, c) <= StripLeft(y, c)
  {
    if x != "" && x[0] == c {
      StripUpto(x[1..], y[1..], c);
    }
  }

  // What is left of a record: nothing, or the exe and the first of the arguments.
  lemma TornRecord(cmds: map<nat, Cmd>, r: Record, m: nat, x: string) returns (args: seq<string>)
    requires OneLine(r.exe) && m <= 2 && x <= T.Next(AsFrame(r), m)
    ensures args <= Heard(r).args
    ensures AddBlocks(cmds, Split(T.Head(AsFrame(r), m, x), "\n\n")) == Ok(if m == 0 then cmds else cmds[r.pid := Cmd(Heard(r).exe, args)])
  {
    var f := AsFrame(r);
    var t, lines := T.Head(f, m, x), f.lines[..m] + [x];
    CoreIsPiece(r);
    T.HeadShort(f, m, x);
    T.TornIsOnePiece(f, t);
    T.HeadSplits(f, m, x);
    OneBlock(cmds, t);
    args := [];
    if m > 0 {
      BlockIsHeard(cmds, t, r.pid, lines);
      args := ArgsOf(lines[1]);
      ArgsUpto(lines[1], f.lines[1]);
    }
  }

  lemma UpperIff(r: Record, m: nat, x: string)
    requires m <= 2 && x <= T.Next(AsFrame(r), m)
    ensures Upper(r) <= T.Head(AsFrame(r), m, x) <==> m > 0
  {
    var f := AsFrame(r);
    if m == 0 {
      assert |T.Head(f, 0, x)| < |Upper(r)|;
    } else {
      assert f.lines[..m][0] == ":" + r.exe;
      Cat(":" + r.exe + "\n", T.Body(f.lines[..m][1..]), x);
      Cat(Decimal(r.pid) + "\n", ":" + r.exe + "\n", T.Body(f.lines[..m][1..]) + x);
    }
  }

  lemma SameBehind(front: string, u: string, t: string)
    ensures front + u <= front + t <==> u <= t
  {
    if front + u <= front + t {
      T.SamePrefix(front, u, t);
    }
    if u <= t {
      T.SameFront(front, u, t);
    }
  }

  lemma NotWhole(rs: seq<Record>, k: nat, t: string)
    requires k < |rs| && t <= T.Piece(AsFrame(rs[k])) + "\n"
    ensures !(LogText(rs[..k + 1]) <= LogText(rs[..k]) + t)
  {
    FramesUpto(rs, k);
    FramesUpto(rs, k + 1);
    T.LogNext(AsFrames(rs), k);
    T.FrameIsPiece(AsFrame(rs[k]));
  }

  // ---- and exactly when it is read back unchanged ------------------------------------

  function Terminated(args: seq<string>): string {
    if args == [] then "" else args[0] + [NUL] + Terminated(args[1..])
  }

  predicate Plain(arg: string) { NUL !in arg && '\n' !in arg }

  predicate Colon(s: string) { s != "" && s[0] == ':' }

  lemma {:induction false} TerminatedIsEmitted(args: seq<string>)
    requires forall a <- args :: Plain(a)
    ensures OneLine(Terminated(args)) && (args != [] ==> Terminated(args) != "" && Terminated(args)[|Terminated(args)| - 1] == NUL)
  {
    if args != [] {
      assert Plain(args[0]);
      TerminatedIsEmitted(args[1..]);
    }
  }

  lemma {:induction false} SplitTerminated(args: seq<string>)
    requires forall a <- args :: Plain(a)
    ensures Split(Terminated(args), [NUL]) == args + [""]
  {
    if args == [] {
      SplitAtChar("", NUL, "");
    } else {
      assert Plain(args[0]);
      SplitTerminated(args[1..]);
      SplitAtChar(args[0], NUL, Terminated(args[1..]));
      assert [args[0]] + (args[1..] + [""]) == args + [""];
    }
  }

  lemma {:induction false} StripLeftShortens(s: string, c: char)
    ensures |StripLeft(s, c)| <= |s| && (StripLeft(s, c) == s <==> !(s != "" && s[0] == c))
  {
    if s != "" && s[0] == c {
      StripLeftShortens(s[1..], c);
    }
  }

  lemma WrittenWhole(args: seq<string>)
    requires forall a <- args :: Plain(a)
    requires |Terminated(args)| <= SIZE
    ensures Emitted(Masked(Terminated(args))) == Terminated(args)
  {
    var t := Terminated(args);
    TerminatedIsEmitted(args);
    assert Masked(t) == t;
  }

  // A line that has lost something cannot hold the same arguments.
  lemma FewerChars(line: string, args: seq<string>)
    requires forall a <- args :: Plain(a)
    requires ArgsOf(":" + line) == args && line == Terminated(args)
    ensures !Colon(line)
  {
    StripLeftShortens(line, ':');
    var s := StripLeft(line, ':');
    assert StripLeft(":" + line, ':') == s by {
      assert (":" + line)[1..] == line;
    }
    JoinSplit(s);
    var parts := Split(s, [NUL]);
    assert parts[..|parts| - 1] == args;
    assert parts == args + [parts[|parts| - 1]];
    TerminatedSnoc(args, parts[|parts| - 1]);
    var x := parts[|parts| - 1];
    SameFront(s, line + x, [NUL]);
  }

  lemma SameFront(s: string, t: string, end: string)
    requires s + end == t + end
    ensures s == t
  {
    assert s == (s + end)[..|s|] && t == (t + end)[..|t|];
  }

  // Splitting at zeros loses nothing but the last terminator.
  lemma {:induction false} JoinSplit(s: string)
    ensures Terminated(Split(s, [NUL])) == s + [NUL]
    decreases |s|
  {
    var i := Find(s, [NUL]);
    if i < 0 {
      assert [s][1..] == [];
      assert Terminated([s]) == s + [NUL] + Terminated([]);
    } else {
      FindIsFirst(s, [NUL]);
      var rest := s[i + 1..];
      JoinSplit(rest);
      assert s == s[..i] + [NUL] + rest;
      assert ([s[..i]] + Split(rest, [NUL]))[1..] == Split(rest, [NUL]);
    }
  }

  lemma {:induction false} TerminatedSnoc(args: seq<string>, a: string)
    ensures Terminated(args + [a]) == Terminated(args) + a + [NUL]
  {
    if args == [] {
      assert ([] + [a])[1..] == [];
    } else {
      TerminatedSnoc(args[1..], a);
      assert (args + [a])[1..] == args[1..] + [a];
    }
  }

  // read(2) of the whole of cmdline: no more than the buffer holds
  function Read(cmdline: string): string { if |cmdline| <= SIZE then cmdline else cmdline[..SIZE] }

  ghost predicate Clean(c: Cmd) { OneLine(c.exe) && forall a <- c.args :: OneLine(a) }

  lemma {:induction false} StripLeftIn(s: string, c: char, x: char)
    requires x !in s
    ensures x !in StripLeft(s, c)
  {
    if s != "" && s[0] == c {
      StripLeftIn(s[1..], c, x);
    }
  }

  lemma BlockIsClean(cmds: map<nat, Cmd>, block: string)
    requires forall pid <- cmds :: Clean(cmds[pid])
    ensures AddBlock(cmds, block).Ok? ==> forall pid <- AddBlock(cmds, block).value :: Clean(AddBlock(cmds, block).value[pid])
  {
    var lines := Split(block, "\n");
    PartsWithout(block, "\n", '\n');
    if |lines| >= 3 {
      assert lines[1] in lines && lines[2] in lines;
      StripLeftIn(lines[1], ':', '\n');
      StripLeftIn(lines[2], ':', '\n');
      PartsWithout(StripLeft(lines[2], ':'), [NUL], '\n');
      var parts := Split(StripLeft(lines[2], ':'), [NUL]);
      assert forall a <- parts[..|parts| - 1] :: a in parts;
    }
  }

  lemma ArgsRoundTripIff(args: seq<string>)
    requires forall a <- args :: Plain(a)
    ensures ArgsOf(":" + Terminated(args)) == args <==> (args != [] ==> !Colon(args[0]))
  {
    var line := Terminated(args);
    assert (":" + line)[1..] == line;
    assert Colon(line) <==> args != [] && Colon(args[0]);
    if !Colon(line) {
      assert StripLeft(":" + line, ':') == line;
      SplitTerminated(args);
      assert (args + [""])[..|args|] == args;
    } else if ArgsOf(":" + line) == args {
      FewerChars(line, args);
    }
  }
}
