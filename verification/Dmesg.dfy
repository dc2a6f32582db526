/**
 dump_dmsg: the kernel log is a buffer of `<level>text` lines; the file gets the texts.
 */
module Dmesg {
  const NL: char := '\n'

  // Looking for '>', copying, or about to skip the character after a line.
  datatype Mode = Seeking | Copying | Skipping

  datatype State = State(mode: Mode, file: string)

  function Next(st: State, c: char): State {
    match st.mode
    case Seeking => if c == '>' then State(Copying, st.file) else st
    case Copying => State(if c == NL then Skipping else Copying, st.file + [c])
    case Skipping => State(Seeking, st.file)
  }

  function Run(st: State, s: string): State {
    if s == "" then st else Next(Run(st, s[..|s| - 1]), s[|s| - 1])
  }

  const START: State := State(Seeking, "")

  function Written(log: string): string
    requires log != ""
  {
    Run(START, log).file + if log[|log| - 1] == NL then "" else "\n"
  }

  // The first i characters have been dealt with; from count on the loops are over.
  ghost predicate Stands(log: string, i: nat, mode: Mode, file: string) {
    if i <= |log| then Run(START, log[..i]) == State(mode, file) else Run(START, log).file == file
  }

  lemma Advance(log: string, i: nat, mode: Mode, file: string)
    requires Stands(log, i, mode, file)
    ensures i < |log| ==> var st := Next(State(mode, file), log[i]); Stands(log, i + 1, st.mode, st.file)
    ensures i >= |log| ==> Stands(log, i + 1, mode, file)
  {
    if i < |log| {
      assert log[..i + 1][..i] == log[..i];
    } else if i == |log| {
      assert log[..i] == log;
    }
  }

  method DumpDmsg(logbuf: array<char>, count: nat) returns (dmesg: string)
    requires 0 < count <= logbuf.Length
    ensures dmesg == Written(logbuf[..count])
  {
    dmesg := "";
    ghost var log, mode := logbuf[..count], Seeking;
    var i := 0;
    while i < count
      invariant Stands(log, i, mode, dmesg) && (i < count ==> mode == Seeking)
    {
      // to the character after the next '>'
      while i < count && logbuf[i] != '>'
        invariant i <= count && Stands(log, i, Seeking, dmesg)
      {
        Advance(log, i, Seeking, dmesg);
        i := i + 1;
      }
      Advance(log, i, Seeking, dmesg);
      mode := if i < count then Copying else Seeking;
      i := i + 1;
      // the text, with its newline
      while i < count && logbuf[i - 1] != NL
        invariant 0 < i && Stands(log, i, mode, dmesg)
        invariant i < count ==> mode == if logbuf[i - 1] == NL then Skipping else Copying
      {
        Advance(log, i, mode, dmesg);
        dmesg := dmesg + [logbuf[i]];
        i := i + 1;
        mode := if logbuf[i - 1] == NL then Skipping else Copying;
      }
      Advance(log, i, mode, dmesg);
      mode := if i < count then Seeking else mode;
      i := i + 1;
    }
    Advance(log, i, mode, dmesg);
    assert log[..count] == log;
    if logbuf[count - 1] != NL {
      dmesg := dmesg + "\n";
    }
  }

  // ---- logs of <level>text lines --------------------------------------------------

  datatype Message = Message(level: string, text: string)

  predicate Sound(m: Message) { '>' !in m.level && NL !in m.text }

  function Raw(m: Message): string { "<" + m.level + ">" + m.text }

  function Log(ms: seq<Message>): string {
    if ms == [] then "" else Log(ms[..|ms| - 1]) + (Raw(ms[|ms| - 1]) + "\n")
  }

  function TextLines(ms: seq<Message>): string {
    if ms == [] then "" else TextLines(ms[..|ms| - 1]) + ms[|ms| - 1].text + "\n"
  }

  lemma {:induction false} RunOn(st: State, a: string, b: string)
    ensures Run(st, a + b) == Run(Run(st, a), b)
  {
    if b == "" {
      assert a + b == a;
    } else {
      var init := b[..|b| - 1];
      RunOn(st, a, init);
      assert (a + b)[..|a + b| - 1] == a + init;
    }
  }

  lemma RunOne(st: State, c: char)
    ensures Run(st, [c]) == Next(st, c)
  {
    assert [c][..0] == "";
  }

  lemma {:induction false} RunLevel(st: State, level: string)
    requires st.mode == Seeking && '>' !in level
    ensures Run(st, level) == st
  {
    if level != "" {
      RunLevel(st, level[..|level| - 1]);
    }
  }

  lemma {:induction false} RunText(st: State, text: string)
    requires st.mode == Copying && NL !in text
    ensures Run(st, text) == State(Copying, st.file + text)
  {
    if text == "" {
      assert st.file + text == st.file;
    } else {
      var init := text[..|text| - 1];
      RunText(st, init);
      assert st.file + init + [text[|text| - 1]] == st.file + text;
    }
  }

  // The loop enters a message at its '<', or has just skipped that.
  lemma RunMessage(st: State, m: Message)
    requires Sound(m) && st.mode != Copying
    ensures Run(st, Raw(m)) == State(Copying, st.file + m.text)
    ensures Run(st, Raw(m) + "\n") == State(Skipping, st.file + m.text + "\n")
  {
    var seeking := State(Seeking, st.file);
    RunOne(st, '<');
    RunOn(st, "<", m.level);
    RunLevel(seeking, m.level);
    RunOn(st, "<" + m.level, ">");
    RunOne(seeking, '>');
    RunOn(st, "<" + m.level + ">", m.text);
    RunText(State(Copying, st.file), m.text);
    RunOn(st, Raw(m), "\n");
    RunOne(State(Copying, st.file + m.text), NL);
  }

  lemma {:induction false} RunLog(ms: seq<Message>)
    requires forall m <- ms :: Sound(m)
    ensures Run(START, Log(ms)) == State(if ms == [] then Seeking else Skipping, TextLines(ms))
  {
    if ms != [] {
      var (init, m) := (ms[..|ms| - 1], ms[|ms| - 1]);
      RunLog(init);
      RunOn(START, Log(init), Raw(m) + "\n");
      RunMessage(Run(START, Log(init)), m);
    }
  }

  // Whether or not the last line of the log has its newline, the file is the texts, each with
  // exactly one newline.
  lemma WritesTheTexts(ms: seq<Message>, last: Message)
    requires Sound(last) && forall m <- ms :: Sound(m)
    ensures Written(Log(ms) + (Raw(last) + "\n")) == TextLines(ms) + last.text + "\n"
    ensures Written(Log(ms) + Raw(last)) == TextLines(ms) + last.text + "\n"
  {
    RunLog(ms);
    RunMessage(Run(START, Log(ms)), last);
    RunOn(START, Log(ms), Raw(last));
    RunOn(START, Log(ms), Raw(last) + "\n");
    var cut := Log(ms) + Raw(last);
    assert cut[|cut| - 1] == Raw(last)[|Raw(last)| - 1] != NL;
  }

  // ---- logs of any lines -----------------------------------------------------------

  function Lines(ls: seq<string>): string {
    if ls == [] then "" else Lines(ls[..|ls| - 1]) + (ls[|ls| - 1] + "\n")
  }

  function Count(s: string): nat {
    if s == "" then 0 else Count(s[..|s| - 1]) + if s[|s| - 1] == NL then 1 else 0
  }

  // The header of line i ends in it: the first character of a line after a written one is skipped.
  predicate Levelled(ls: seq<string>, i: nat)
    requires i < |ls|
  {
    '>' in if i == 0 || ls[i] == "" then ls[i] else ls[i][1..]
  }

  lemma CountOne(file: string, text: string)
    requires NL !in text
    ensures Count(file + text + "\n") == Count(file) + 1
  {
    assert (file + text + "\n")[..|file + text|] == file + text;
    CountText(file, text);
  }

  lemma {:induction false} CountText(file: string, text: string)
    requires NL !in text
    ensures Count(file + text) == Count(file)
  {
    if text == "" {
      assert file + text == file;
    } else {
      assert (file + text)[..|file + text| - 1] == file + text[..|text| - 1];
      CountText(file, text[..|text| - 1]);
    }
  }

  // What stands behind the first '>'.
  function Behind(l: string): string
    requires '>' in l
  {
    if l[0] == '>' then l[1..] else Behind(l[1..])
  }

  lemma {:induction false} BehindFirst(l: string, k: nat)
    requires k < |l| && l[k] == '>' && '>' !in l[..k]
    ensures Behind(l) == l[k + 1..]
  {
    if k > 0 {
      assert l[..k][0] == l[0];
      assert l[1..][..k - 1] == l[..k][1..];
      BehindFirst(l[1..], k - 1);
    }
  }

  // A line up to and with its newline, from where a header is looked for.
  lemma RunLine(st: State, l: string)
    requires st.mode == Seeking && NL !in l
    ensures var st' := Run(st, l + "\n");
      if '>' in l then st' == State(Skipping, st.file + Behind(l) + "\n") && Count(st'.file) == Count(st.file) + 1 else st' == st
  {
    if '>' in l {
      var k := First(l);
      BehindFirst(l, k);
      var (level, text) := (l[..k], l[k + 1..]);
      assert l + "\n" == level + ">" + text + "\n";
      RunLevel(st, level);
      RunOn(st, level, ">");
      RunOne(st, '>');
      RunOn(st, level + ">", text);
      RunText(State(Copying, st.file), text);
      RunOn(st, level + ">" + text, "\n");
      RunOne(State(Copying, st.file + text), NL);
      CountOne(st.file, text);
      assert st.file + text + [NL] == st.file + text + "\n";
    } else {
      RunLevel(st, l + "\n");
    }
  }

  lemma First(l: string) returns (k: nat)
    requires '>' in l
    ensures k < |l| && l[k] == '>' && '>' !in l[..k]
  {
    k := 0;
    while l[k] != '>'
      invariant k < |l| && '>' !in l[..k] && '>' in l[k..]
      decreases |l| - k
    {
      k := k + 1;
    }
  }

  // The same behind a line that was written, where one character is skipped first.
  lemma RunSkipped(st: State, l: string)
    requires st.mode == Skipping && NL !in l
    ensures var st' := Run(st, l + "\n");
      if l != "" && '>' in l[1..] then st' == State(Skipping, st.file + Behind(l[1..]) + "\n") && Count(st'.file) == Count(st.file) + 1
      else st' == State(Seeking, st.file)
  {
    if l == "" {
      RunOne(st, NL);
    } else {
      HeadAndRest(l);
      SkipFirst(st, l[0], l[1..] + "\n");
      RunLine(State(Seeking, st.file), l[1..]);
    }
  }

  lemma SkipFirst(st: State, c: char, rest: string)
    requires st.mode == Skipping
    ensures Run(st, [c] + rest) == Run(State(Seeking, st.file), rest)
  {
    RunOne(st, c);
    RunOn(st, [c], rest);
  }

  lemma HeadAndRest(l: string)
    requires l != ""
    ensures l + "\n" == [l[0]] + (l[1..] + "\n")
  {
  }

  // After n lines: no more lines have been written than there were, and as many if all were levelled.
  ghost predicate Counted(st: State, n: nat, all: bool) {
    && st.mode != Copying && Count(st.file) <= n
    && (all <==> Count(st.file) == n) && (all ==> st.mode == if n == 0 then Seeking else Skipping)
  }

  lemma CountNext(st: State, n: nat, all: bool, l: string)
    requires Counted(st, n, all) && NL !in l
    ensures Counted(Run(st, l + "\n"), n + 1, all && '>' in if n == 0 || l == "" then l else l[1..])
  {
    if st.mode == Seeking {
      RunLine(st, l);
    } else {
      RunSkipped(st, l);
    }
  }

  ghost predicate AllLevelled(ls: seq<string>) { forall i :: 0 <= i < |ls| ==> Levelled(ls, i) }

  lemma {:induction false} RunLines(ls: seq<string>)
    requires forall l <- ls :: NL !in l
    ensures Counted(Run(START, Lines(ls)), |ls|, AllLevelled(ls))
  {
    if ls != [] {
      var (init, l) := (ls[..|ls| - 1], ls[|ls| - 1]);
      RunLines(init);
      RunOn(START, Lines(init), l + "\n");
      CountNext(Run(START, Lines(init)), |init|, AllLevelled(init), l);
      LevelledNext(ls);
    }
  }

  lemma LevelledNext(ls: seq<string>)
    requires ls != []
    ensures AllLevelled(ls) <==> AllLevelled(ls[..|ls| - 1]) && Levelled(ls, |ls| - 1)
  {
    var init := ls[..|ls| - 1];
    assert forall i :: 0 <= i < |init| ==> (Levelled(init, i) <==> Levelled(ls, i));
  }

  lemma {:induction false} LinesEnd(ls: seq<string>)
    requires ls != []
    ensures Lines(ls) != "" && Lines(ls)[|Lines(ls)| - 1] == NL
  {
  }

  // The file so far, and whether the last line was written. A line is written as what stands behind its
  // first '>'; right after a line that was written, its first character is not looked at.
  function Outcome(ls: seq<string>): (string, bool) {
    if ls == [] then ("", false)
    else
      var ((file, written), l) := (Outcome(ls[..|ls| - 1]), ls[|ls| - 1]);
      var part := if written && l != "" then l[1..] else l;
      if '>' in part then (file + Behind(part) + "\n", true) else (file, false)
  }

  lemma {:induction false} RunIsOutcome(ls: seq<string>)
    requires forall l <- ls :: NL !in l
    ensures Run(START, Lines(ls)) == State(if Outcome(ls).1 then Skipping else Seeking, Outcome(ls).0)
  {
    if ls != [] {
      var (init, l) := (ls[..|ls| - 1], ls[|ls| - 1]);
      RunIsOutcome(init);
      RunOn(START, Lines(init), l + "\n");
      if Outcome(init).1 {
        RunSkipped(Run(START, Lines(init)), l);
      } else {
        RunLine(Run(START, Lines(init)), l);
      }
    }
  }

  // The file of a log of any lines, levelled or not.
  lemma WritesTheOutcome(ls: seq<string>)
    requires ls != [] && forall l <- ls :: NL !in l
    ensures Lines(ls) != "" && Written(Lines(ls)) == Outcome(ls).0
  {
    LinesEnd(ls);
    RunIsOutcome(ls);
    assert Outcome(ls).0 + "" == Outcome(ls).0;
  }

  // The file has a line for every line of the log if and only if every line has a '>' after its
  // first character, the first line anywhere. A line that has none is lost.
  lemma NoLineIsLostIff(ls: seq<string>)
    requires ls != [] && forall l <- ls :: NL !in l
    ensures Lines(ls) != "" && Count(Written(Lines(ls))) <= |ls|
    ensures Count(Written(Lines(ls))) == |ls| <==> AllLevelled(ls)
  {
    LinesEnd(ls);
    RunLines(ls);
    assert Run(START, Lines(ls)).file + "" == Run(START, Lines(ls)).file;
  }

  // A line without a level is taken for a header: its text is lost.
  lemma LostWithoutLevel()
    ensures Written("ab\n<6>cd\n") == "cd\n"
  {
    RunLevel(START, "ab\n");
    RunMessage(START, Message("6", "cd"));
    RunOn(START, "ab\n", "<6>cd\n");
    assert "ab\n" + "<6>cd\n" == "ab\n<6>cd\n" && Raw(Message("6", "cd")) + "\n" == "<6>cd\n";
  }
}
