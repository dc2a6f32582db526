/** `_parse_taskstats_log`, from tokens on. */
module TaskStats {
  // Counters per kernel pid become samples per process. A process that changes its name goes on
  // under a new key; the keys of kernel pid P are P * 1000, P * 1000 + 1, ...

  import opened Wrappers
  import opened Text
  import opened Samples

  // What the parser makes of a line: six tokens, or anything else.
  datatype Row = Other | Stat(pid: int, ppid: int, comm: string, cpu: int, blkio: int, swap: int)

  datatype Timed = Timed(time: int, row: Row)

  datatype Block = Block(time: int, rows: seq<Row>)

  // The fields of Process that the parser sets, with the counters last seen.
  datatype Proc = Proc(pid: int, cmd: string, ppid: int, start: int, samples: seq<Sample>, cpu: int, blkio: int, swap: int)

  datatype State = State(procs: map<int, Proc>, rewrites: map<int, int>)

  const INIT_PROC: Proc := Proc(1, "[init]", 0, 0, [], 0, 0, 0)
  const START: State := State(map[1000 := INIT_PROC], map[])

  function Name(comm: string): string {
    Strip(Strip(comm, '('), ')')
  }

  // The counters of a line turned into a sample; nothing is recorded when nothing has moved.
  function Feed(p: Proc, time: int, row: Row): Proc
    requires row.Stat?
  {
    var (dc, db, ds) := (row.cpu - p.cpu, row.blkio - p.blkio, row.swap - p.swap);
    var state := if dc > 0 then 'R' else if db + ds > 0 then 'D' else 'S';
    p.(samples := if dc + db + ds > 0 then p.samples + [Sample(time, state, dc, 0, db, ds)] else p.samples,
       cpu := row.cpu, blkio := row.blkio, swap := row.swap)
  }

  function ParseRow(st: State, t: Timed): State {
    if t.row.Other? then st
    else
      var opid, cmd := t.row.pid * 1000, Name(t.row.comm);
      var key := if opid in st.rewrites then st.rewrites[opid] else opid;
      if key in st.procs then
        var p := st.procs[key];
        if p.cmd != cmd then
          var q := Proc(key + 1, cmd, t.row.ppid * 1000, t.time, [], p.cpu, p.blkio, p.swap);
          State(st.procs[key + 1 := Feed(q, t.time, t.row)], st.rewrites[opid := key + 1])
        else st.(procs := st.procs[key := Feed(p, t.time, t.row)])
      else
        st.(procs := st.procs[key := Feed(Proc(key, cmd, t.row.ppid * 1000, t.time, [], 0, 0, 0), t.time, t.row)])
  }

  function Parse(rows: seq<Timed>): State {
    if rows == [] then START else ParseRow(Parse(rows[..|rows| - 1]), rows[|rows| - 1])
  }

  // ---- one kernel pid at a time --------------------------------------------------

  // The incarnations of kernel pid P, the current one last.
  function Feeds(P: int, incs: seq<Proc>, t: Timed): seq<Proc> {
    if t.row.Other? || t.row.pid != P then incs
    else
      var n, cmd := |incs|, Name(t.row.comm);
      if n == 0 then [Feed(Proc(P * 1000, cmd, t.row.ppid * 1000, t.time, [], 0, 0, 0), t.time, t.row)]
      else
        var p := incs[n - 1];
        if p.cmd != cmd then
          incs + [Feed(Proc(P * 1000 + n, cmd, t.row.ppid * 1000, t.time, [], p.cpu, p.blkio, p.swap), t.time, t.row)]
        else incs[n - 1 := Feed(p, t.time, t.row)]
  }

  // init is there from the start, under the kernel pid 1
  function Born(P: int): seq<Proc> { if P == 1 then [INIT_PROC] else [] }

  function Incs(P: int, rows: seq<Timed>): seq<Proc> {
    if rows == [] then Born(P) else Feeds(P, Incs(P, rows[..|rows| - 1]), rows[|rows| - 1])
  }

  function Key(P: int, i: nat): int { P * 1000 + i }

  // Key number i of kernel pid P holds incarnation i, and the rewrite of P points at the last.
  ghost predicate Holds(st: State, P: int, i: nat, incs: seq<Proc>) {
    && (Key(P, i) in st.procs <==> i < |incs|)
    && (i < |incs| ==> st.procs[Key(P, i)] == incs[i])
    && (Key(P, i) in st.rewrites <==> i == 0 && |incs| >= 2)
    && (i == 0 && |incs| >= 2 ==> st.rewrites[Key(P, i)] == Key(P, |incs| - 1))
  }

  // The key that a row of P is entered under.
  lemma CurrentKey(st: State, P: int, incs: seq<Proc>)
    requires Holds(st, P, 0, incs) && (incs != [] ==> Holds(st, P, |incs| - 1, incs))
    ensures var key := if Key(P, 0) in st.rewrites then st.rewrites[Key(P, 0)] else Key(P, 0);
      if incs == [] then key == Key(P, 0) && key !in st.procs
      else key == Key(P, |incs| - 1) && key in st.procs && st.procs[key] == incs[|incs| - 1]
  {
  }

  lemma OwnRow(st: State, t: Timed, incs: seq<Proc>, i: nat)
    requires t.row.Stat? && Holds(st, t.row.pid, 0, incs) && (incs != [] ==> Holds(st, t.row.pid, |incs| - 1, incs))
    requires Holds(st, t.row.pid, i, incs)
    ensures Holds(ParseRow(st, t), t.row.pid, i, Feeds(t.row.pid, incs, t))
  {
    CurrentKey(st, t.row.pid, incs);
  }

  lemma OtherRow(st: State, t: Timed, mine: seq<Proc>, P: int, incs: seq<Proc>, i: nat)
    requires t.row.Stat? ==> Holds(st, t.row.pid, 0, mine) && (mine != [] ==> Holds(st, t.row.pid, |mine| - 1, mine))
    requires t.row.Stat? ==> P != t.row.pid && |Feeds(t.row.pid, mine, t)| <= 1000
    requires i < 1000 && Holds(st, P, i, incs)
    ensures Holds(ParseRow(st, t), P, i, incs)
  {
    if t.row.Stat? {
      CurrentKey(st, t.row.pid, mine);
      forall j: nat | j < 1000 ensures Key(t.row.pid, j) != Key(P, i) {
      }
      assert Key(t.row.pid, 0) != Key(P, i);
      assert |mine| <= 1000;
      if mine != [] {
        assert Key(t.row.pid, |mine| - 1) != Key(P, i);
        assert |mine| < 1000 ==> Key(t.row.pid, |mine|) != Key(P, i);
      }
    }
  }

  lemma IncsGrow(P: int, rows: seq<Timed>)
    requires rows != []
    ensures |Incs(P, rows[..|rows| - 1])| <= |Incs(P, rows)|
  {
  }

  // With fewer than 1000 renames of every kernel pid, no incarnation is ever overwritten: the
  // process map is the table of all incarnations of all pids.
  lemma {:induction false} ParseIsAllIncarnations(rows: seq<Timed>, P: int, i: nat)
    requires forall Q :: |Incs(Q, rows)| <= 1000
    requires i < 1000
    ensures Holds(Parse(rows), P, i, Incs(P, rows))
    decreases |rows|
  {
    if rows == [] {
      StartHolds(P, i);
    } else {
      var init, t := rows[..|rows| - 1], rows[|rows| - 1];
      forall Q ensures |Incs(Q, init)| <= 1000 {
        IncsGrow(Q, rows);
      }
      ParseIsAllIncarnations(init, P, i);
      if t.row.Stat? {
        var (st, Q, mine) := (Parse(init), t.row.pid, Incs(t.row.pid, init));
        ParseIsAllIncarnations(init, Q, 0);
        assert Holds(st, Q, 0, mine);
        if mine != [] {
          ParseIsAllIncarnations(init, Q, |mine| - 1);
        }
        assert mine != [] ==> Holds(st, Q, |mine| - 1, mine);
        assert Incs(Q, rows) == Feeds(Q, mine, t);
        AnyRow(st, t, mine, P, Incs(P, init), i);
      }
    }
  }

  lemma StartHolds(P: int, i: nat)
    requires i < 1000
    ensures Holds(START, P, i, Born(P))
  {
    assert Key(P, i) == 1000 <==> P == 1 && i == 0;
  }

  lemma AnyRow(st: State, t: Timed, mine: seq<Proc>, P: int, incs: seq<Proc>, i: nat)
    requires t.row.Stat? && Holds(st, t.row.pid, 0, mine) && (mine != [] ==> Holds(st, t.row.pid, |mine| - 1, mine))
    requires |Feeds(t.row.pid, mine, t)| <= 1000 && (P == t.row.pid ==> incs == mine)
    requires i < 1000 && Holds(st, P, i, incs)
    ensures Holds(ParseRow(st, t), P, i, Feeds(P, incs, t))
  {
    if P == t.row.pid {
      OwnRow(st, t, incs, i);
    } else {
      OtherRow(st, t, mine, P, incs, i);
    }
  }

  // Every key is key number i of exactly one kernel pid, which `key // 1000` recovers.
  lemma KeyRecoversPid(P: int, i: nat)
    ensures Key(P, i) / 1000 == P <==> i < 1000
    ensures i < 1000 ==> Key(P, i) % 1000 == i
  {
  }

  // ---- telescoping ---------------------------------------------------------------

  datatype Counter = Cpu | Blkio | Swap

  function Delta(s: Sample, c: Counter): int {
    match c case Cpu => s.user case Blkio => s.io case Swap => s.swap
  }

  function Reported(r: Row, c: Counter): int
    requires r.Stat?
  {
    match c case Cpu => r.cpu case Blkio => r.blkio case Swap => r.swap
  }

  function Seen(p: Proc, c: Counter): int {
    match c case Cpu => p.cpu case Blkio => p.blkio case Swap => p.swap
  }

  // All deltas recorded in a list of samples, and over all incarnations.
  function Recorded(samples: seq<Sample>, c: Counter): int {
    if samples == [] then 0 else Recorded(samples[..|samples| - 1], c) + Delta(samples[|samples| - 1], c)
  }

  function AllRecorded(incs: seq<Proc>, c: Counter): int {
    if incs == [] then 0 else AllRecorded(incs[..|incs| - 1], c) + Recorded(incs[|incs| - 1].samples, c)
  }

  // The counter on the last line about P; 0 if there is none.
  function LastReported(P: int, rows: seq<Timed>, c: Counter): int {
    if rows == [] then 0
    else
      var t := rows[|rows| - 1];
      if t.row.Stat? && t.row.pid == P then Reported(t.row, c) else LastReported(P, rows[..|rows| - 1], c)
  }

  // No counter of P ever falls.
  ghost predicate Monotone(P: int, rows: seq<Timed>) {
    rows == [] ||
    (&& Monotone(P, rows[..|rows| - 1])
     && var t := rows[|rows| - 1];
        t.row.Stat? && t.row.pid == P ==>
          forall c :: LastReported(P, rows[..|rows| - 1], c) <= Reported(t.row, c))
  }

  // Where the next line of these incarnations starts counting from.
  function Current(incs: seq<Proc>, c: Counter): int {
    if incs == [] then 0 else Seen(incs[|incs| - 1], c)
  }

  lemma {:induction false} CurrentIsReported(P: int, rows: seq<Timed>, c: Counter)
    ensures Current(Incs(P, rows), c) == LastReported(P, rows, c)
  {
    if rows != [] {
      CurrentIsReported(P, rows[..|rows| - 1], c);
    }
  }

  lemma FeedRecords(p: Proc, time: int, row: Row, c: Counter)
    requires row.Stat? && forall d :: Seen(p, d) <= Reported(row, d)
    ensures Recorded(Feed(p, time, row).samples, c) == Recorded(p.samples, c) + Reported(row, c) - Seen(p, c)
  {
    assert Seen(p, Cpu) <= Reported(row, Cpu) && Seen(p, Blkio) <= Reported(row, Blkio) && Seen(p, Swap) <= Reported(row, Swap);
    var s := Feed(p, time, row).samples;
    if s != p.samples {
      assert s[..|s| - 1] == p.samples;
    }
  }

  lemma AllRecordedSnoc(incs: seq<Proc>, p: Proc, c: Counter)
    ensures AllRecorded(incs + [p], c) == AllRecorded(incs, c) + Recorded(p.samples, c)
  {
    assert (incs + [p])[..|incs|] == incs;
  }

  lemma FeedsRecord(incs: seq<Proc>, t: Timed, c: Counter)
    requires t.row.Stat? && forall d :: Current(incs, d) <= Reported(t.row, d)
    ensures AllRecorded(Feeds(t.row.pid, incs, t), c) == AllRecorded(incs, c) + Reported(t.row, c) - Current(incs, c)
  {
    var n := |incs|;
    if n == 0 || incs[n - 1].cmd != Name(t.row.comm) {
      var p := Proc(Key(t.row.pid, n), Name(t.row.comm), t.row.ppid * 1000, t.time, [],
                    Current(incs, Cpu), Current(incs, Blkio), Current(incs, Swap));
      FedRecords(incs, p, t, c);
    } else {
      var others, p := incs[..n - 1], incs[n - 1];
      FedRecords(incs, p, t, c);
      LastRecords(incs, others, p, Feed(p, t.time, t.row), c);
      assert Feeds(t.row.pid, incs, t) == others + [Feed(p, t.time, t.row)];
    }
  }

  lemma LastRecords(incs: seq<Proc>, others: seq<Proc>, p: Proc, q: Proc, c: Counter)
    requires incs == others + [p]
    ensures AllRecorded(others + [q], c) == AllRecorded(incs, c) - Recorded(p.samples, c) + Recorded(q.samples, c)
  {
    AllRecordedSnoc(others, p, c);
    AllRecordedSnoc(others, q, c);
  }

  // p counts on from where the incarnations stand.
  lemma FedRecords(incs: seq<Proc>, p: Proc, t: Timed, c: Counter)
    requires t.row.Stat? && forall d :: Current(incs, d) <= Reported(t.row, d)
    requires forall d :: Seen(p, d) == Current(incs, d)
    ensures Recorded(Feed(p, t.time, t.row).samples, c) == Recorded(p.samples, c) + Reported(t.row, c) - Current(incs, c)
    ensures AllRecorded(incs + [Feed(p, t.time, t.row)], c) == AllRecorded(incs, c) + Recorded(Feed(p, t.time, t.row).samples, c)
  {
    FeedRecords(p, t.time, t.row, c);
    AllRecordedSnoc(incs, Feed(p, t.time, t.row), c);
  }

  // What all incarnations of a kernel pid recorded adds up to its last reported counters.
  lemma {:induction false} DeltasTelescope(P: int, rows: seq<Timed>, c: Counter)
    requires Monotone(P, rows)
    ensures AllRecorded(Incs(P, rows), c) == LastReported(P, rows, c)
  {
    if rows == [] {
      assert P == 1 ==> Born(P)[..0] == [];
    } else {
      var init, t := rows[..|rows| - 1], rows[|rows| - 1];
      DeltasTelescope(P, init, c);
      if t.row.Stat? && t.row.pid == P {
        forall d ensures Current(Incs(P, init), d) <= Reported(t.row, d) {
          CurrentIsReported(P, init, d);
        }
        CurrentIsReported(P, init, c);
        FeedsRecord(Incs(P, init), t, c);
      }
    }
  }

  // ---- one name per process ------------------------------------------------------

  // b is a, possibly with more samples.
  ghost predicate GrownFrom(b: Proc, a: Proc) {
    a.pid == b.pid && a.cmd == b.cmd && a.ppid == b.ppid && a.start == b.start && a.samples <= b.samples
  }

  lemma FeedsKeepsEach(P: int, incs: seq<Proc>, t: Timed, i: nat)
    requires i < |incs|
    ensures i < |Feeds(P, incs, t)| && GrownFrom(Feeds(P, incs, t)[i], incs[i])
  {
  }

  // Later lines leave an incarnation's identity alone and only add to its samples; each line
  // goes to an incarnation of exactly its name.
  lemma {:induction false} OneNameEach(P: int, rows: seq<Timed>, k: nat, i: nat)
    requires k <= |rows| && i < |Incs(P, rows[..k])|
    ensures i < |Incs(P, rows)| && GrownFrom(Incs(P, rows)[i], Incs(P, rows[..k])[i])
  {
    if k == |rows| {
      assert rows[..k] == rows;
    } else {
      var init := rows[..|rows| - 1];
      assert init[..k] == rows[..k];
      OneNameEach(P, init, k, i);
      FeedsKeepsEach(P, Incs(P, init), rows[|rows| - 1], i);
      assert Incs(P, rows) == Feeds(P, Incs(P, init), rows[|rows| - 1]);
    }
  }

  lemma RowMeetsItsName(rows: seq<Timed>, t: Timed)
    requires t.row.Stat?
    ensures var incs := Incs(t.row.pid, rows + [t]);
      incs != [] && incs[|incs| - 1].cmd == Name(t.row.comm)
  {
    assert (rows + [t])[..|rows|] == rows;
  }

  // ---- the loop over the log -----------------------------------------------------

  datatype ProcessStats = ProcessStats(procs: map<int, Proc>, count: nat, period: real, start: int, end: int)

  function Flatten(blocks: seq<Block>): seq<Timed> {
    if blocks == [] then []
    else Flatten(blocks[..|blocks| - 1]) + TimedRows(blocks[|blocks| - 1])
  }

  function TimedRows(b: Block): seq<Timed> {
    seq(|b.rows|, i requires 0 <= i < |b.rows| => Timed(b.time, b.rows[i]))
  }

  // _parse_taskstats_log behind the splitting into blocks and tokens
  function ParseLog(blocks: seq<Block>): Option<ProcessStats> {
    if |blocks| < 2 then None
    else
      var start, end := blocks[0].time, blocks[|blocks| - 1].time;
      Some(ProcessStats(Parse(Flatten(blocks)).procs, |blocks|, (end - start) as real / (|blocks| - 1) as real, start, end))
  }

  lemma ParseSnoc(rows: seq<Timed>, t: Timed)
    ensures Parse(rows + [t]) == ParseRow(Parse(rows), t)
  {
    assert (rows + [t])[..|rows|] == rows;
  }
}
