/** What the parser makes of the lines of one process. */
module ParsedProcs {
  import opened Wrappers
  import opened Text
  import opened TaskStats
  import opened TaskStatsLog
  import T = TimedFrames
  import opened ProcLines

  // The name of a line is its third token without the opening brackets at both ends, and then without
  // the closing ones at both ends.
  lemma NameIs(comm: string) returns (a: string, x: string, y: string, b: string)
    ensures comm == a + (x + Name(comm) + y) + b
    ensures AllAre(a, '(') && AllAre(b, '(') && Bare(x + Name(comm) + y, '(')
    ensures AllAre(x, ')') && AllAre(y, ')') && Bare(Name(comm), ')')
  {
    a, b := StripIs(comm, '(');
    x, y := StripIs(Strip(comm, '('), ')');
  }

  // A line begins a process of its own if and only if the line before it has another name, or there
  // is none.
  lemma LineBegins(P: int, rows: seq<Timed>, t: Timed)
    requires Of(P, t)
    ensures |Incs(P, rows + [t])| == |Incs(P, rows)| + if LastName(P, rows) == Some(Name(t.row.comm)) then 0 else 1
  {
    LastNameIs(P, rows);
    IncsNext(P, rows, t);
  }

  // A process has the parent, the start and the name of the line that begins it.
  lemma {:induction false} ProcIsBegun(P: int, rows: seq<Timed>, i: nat) returns (k: nat)
    requires i < |Incs(P, rows)| && !(P == 1 && i == 0)
    ensures Begins(P, rows, i, k)
    ensures var p := Incs(P, rows)[i];
      && p.pid == 1000 * P + i && p.ppid == 1000 * rows[k].row.ppid && p.start == rows[k].time && p.cmd == Name(rows[k].row.comm)
  {
    var init, t := rows[..|rows| - 1], rows[|rows| - 1];
    var incs := Incs(P, init);
    assert Incs(P, rows) == Feeds(P, incs, t);
    if i < |incs| {
      k := ProcIsBegun(P, init, i);
      PrefixLine(P, rows, i, k);
      FeedsKeepsEach(P, incs, t, i);
    } else {
      k := |rows| - 1;
      assert rows[..k] == init && rows[..k + 1] == rows;
    }
  }

  // The stub for init stays what it is, apart from its samples.
  lemma {:induction false} InitIsBorn(rows: seq<Timed>)
    ensures var incs := Incs(1, rows); incs != [] && incs[0].pid == 1 && incs[0].ppid == 0 && incs[0].start == 0 && incs[0].cmd == "[init]"
  {
    OneNameEach(1, rows, 0, 0);
    assert rows[..0] == [];
  }

  // A process has one sample for each of its lines whose counters have moved on, in the order of the
  // lines, with what they have moved since the line before, whatever process that belongs to.
  lemma {:induction false} SamplesAreLines(P: int, rows: seq<Timed>, i: nat) returns (ks: seq<nat>)
    requires i < |Incs(P, rows)|
    ensures From(P, rows, i, ks, Incs(P, rows)[i].samples)
  {
    ks := SamplesUpTo(P, rows, i);
  }

  // Every process in the map but the stub for init has the parent, start and name of one line.
  lemma {:induction false} ParsedIsBegun(rows: seq<Timed>, key: int) returns (k: nat)
    requires key in Parse(rows).procs
    ensures var p := Parse(rows).procs[key];
      || (key == 1000 && p.pid == 1 && p.ppid == 0 && p.start == 0 && p.cmd == "[init]")
      || (k < |rows| && rows[k].row.Stat? && p.pid == key && p.ppid == 1000 * rows[k].row.ppid
          && p.start == rows[k].time && p.cmd == Name(rows[k].row.comm))
  {
    k := 0;
    if rows != [] {
      var init, t := rows[..|rows| - 1], rows[|rows| - 1];
      if key in Parse(init).procs && SameBirth(Parse(rows).procs[key], Parse(init).procs[key]) {
        k := ParsedIsBegun(init, key);
      } else {
        k := |rows| - 1;
      }
    }
  }

  // A sample says that the process ran if its CPU counter has moved on, and otherwise that it waited.
  lemma {:induction false} ParsedSamples(rows: seq<Timed>)
    ensures forall key, s :: key in Parse(rows).procs && s in Parse(rows).procs[key].samples ==> Told(s)
  {
    if rows != [] {
      ParsedSamples(rows[..|rows| - 1]);
      RowTells(Parse(rows[..|rows| - 1]), rows[|rows| - 1]);
    }
  }

  // From the text of the log: kernel pid P has its processes under the keys from 1000 * P on, and each
  // has the parent, under the first key of that parent, the start and the name of the line that begins
  // it, and one sample for each of its lines whose counters have moved on.
  lemma {:induction false} TextProc(text: string, P: int, i: nat) returns (k: nat, ks: seq<nat>)
    requires ParseText(text).Ok? && ParseText(text).value.Some?
    requires i < |Incs(P, LinesIn(text))| && forall Q :: |Incs(Q, LinesIn(text))| <= 1000
    ensures var rows, procs := LinesIn(text), ParseText(text).value.value.procs;
      && 1000 * P + i in procs
      && (!(P == 1 && i == 0) ==>
           && Begins(P, rows, i, k) && procs[1000 * P + i].ppid == 1000 * rows[k].row.ppid
           && procs[1000 * P + i].start == rows[k].time && procs[1000 * P + i].cmd == Name(rows[k].row.comm))
      && From(P, rows, i, ks, procs[1000 * P + i].samples)
      && forall s <- procs[1000 * P + i].samples :: (s.state == 'R' <==> s.user > 0) && (s.user <= 0 ==> (s.state == 'D' <==> s.io + s.swap > 0))
  {
    var rows := LinesIn(text);
    TextIsIncs(text, P, i);
    k := 0;
    if !(P == 1 && i == 0) {
      k := ProcIsBegun(P, rows, i);
    }
    ks := SamplesAreLines(P, rows, i);
    SamplesTell(P, rows, i, ks, Incs(P, rows)[i].samples);
  }

  // The bounds of a log are the times of its first and last block, and its period is the mean of the
  // times between blocks.
  lemma TextTimes(text: string)
    requires ParseText(text).Ok?
    ensures var fs, r := T.Parse(text).value, ParseText(text).value;
      && (r.Some? <==> |fs| >= 2)
      && (r.Some? ==>
           && r.value.count == |fs| && r.value.start == fs[0].time && r.value.end == fs[|fs| - 1].time
           && r.value.period * (|fs| - 1) as real == (fs[|fs| - 1].time - fs[0].time) as real)
  {
    BlockTimes(T.Parse(text).value);
  }
}
