/**
 The lines of one process, for ParsedProcs.

 LastName is the name on the last line of a kernel pid, which the current incarnation has (LastNameIs).
 Begins and BelongsTo say which line begins an incarnation and which ones belong to it. A line Moves the
 counters if they have grown since the line before, and leaves a sample then (SampleOf); From says that
 a list of samples is just that of the moving lines, and grows with every such line (FromGrows,
 FromStays, SamplesUpTo).
 */
module ProcLines {
  import opened Wrappers
  import opened Text
  import opened Samples
  import opened TaskStats
  import opened TaskStatsLog
  import T = TimedFrames

  // A line of kernel pid P.
  predicate Of(P: int, t: Timed) { t.row.Stat? && t.row.pid == P }

  // ---- names -----------------------------------------------------------------------------

  ghost predicate AllAre(s: string, c: char) { forall x <- s :: x == c }

  // s neither begins nor ends with c.
  ghost predicate Bare(s: string, c: char) { s != "" ==> s[0] != c && s[|s| - 1] != c }

  lemma {:induction false} StripLeftIs(s: string, c: char) returns (a: string)
    ensures s == a + StripLeft(s, c) && AllAre(a, c) && (StripLeft(s, c) != "" ==> StripLeft(s, c)[0] != c)
  {
    a := "";
    if s != "" && s[0] == c {
      a := StripLeftIs(s[1..], c);
      a := [c] + a;
    }
  }

  lemma {:induction false} StripRightIs(s: string, c: char) returns (b: string)
    ensures s == StripRight(s, c) + b && AllAre(b, c)
    ensures StripRight(s, c) != "" ==> StripRight(s, c)[0] == s[0] && StripRight(s, c)[|StripRight(s, c)| - 1] != c
  {
    b := "";
    if s != "" && s[|s| - 1] == c {
      b := StripRightIs(s[..|s| - 1], c);
      b := b + [c];
    }
  }

  lemma StripIs(s: string, c: char) returns (a: string, b: string)
    ensures s == a + Strip(s, c) + b && AllAre(a, c) && AllAre(b, c) && Bare(Strip(s, c), c)
  {
    a := StripLeftIs(s, c);
    b := StripRightIs(StripLeft(s, c), c);
  }

  // ---- which line begins a process ---------------------------------------------------------

  // The name on the last line of P; init has one from the start.
  function LastName(P: int, rows: seq<Timed>): Option<string> {
    if rows == [] then if P == 1 then Some("[init]") else None
    else if Of(P, rows[|rows| - 1]) then Some(Name(rows[|rows| - 1].row.comm))
    else LastName(P, rows[..|rows| - 1])
  }

  lemma IncsNext(P: int, rows: seq<Timed>, t: Timed)
    ensures Incs(P, rows + [t]) == Feeds(P, Incs(P, rows), t)
  {
    assert (rows + [t])[..|rows|] == rows;
  }

  lemma {:induction false} LastNameIs(P: int, rows: seq<Timed>)
    ensures var incs := Incs(P, rows);
      LastName(P, rows) == if incs == [] then None else Some(incs[|incs| - 1].cmd)
  {
    if rows != [] {
      LastNameIs(P, rows[..|rows| - 1]);
    }
  }

  // Line k is the first one of process i.
  ghost predicate Begins(P: int, rows: seq<Timed>, i: nat, k: nat) {
    k < |rows| && Of(P, rows[k]) && |Incs(P, rows[..k])| == i && |Incs(P, rows[..k + 1])| == i + 1
  }

  // Line k belongs to process i.
  ghost predicate BelongsTo(P: int, rows: seq<Timed>, i: nat, k: nat) {
    k < |rows| && Of(P, rows[k]) && |Incs(P, rows[..k + 1])| == i + 1
  }

  lemma PrefixLine(P: int, rows: seq<Timed>, i: nat, k: nat)
    requires rows != [] && k < |rows| - 1
    ensures Begins(P, rows[..|rows| - 1], i, k) ==> Begins(P, rows, i, k)
    ensures BelongsTo(P, rows[..|rows| - 1], i, k) ==> BelongsTo(P, rows, i, k)
  {
    var init := rows[..|rows| - 1];
    assert init[..k] == rows[..k] && init[..k + 1] == rows[..k + 1];
  }

  // ---- samples -----------------------------------------------------------------------------

  // How far a counter has moved at line k since the line before.
  function Moved(P: int, rows: seq<Timed>, k: nat, c: Counter): int
    requires k < |rows| && rows[k].row.Stat?
  {
    Reported(rows[k].row, c) - LastReported(P, rows[..k], c)
  }

  // The sample that line k leaves: what the counters have moved, at its time.
  ghost predicate SampleOf(P: int, rows: seq<Timed>, k: nat, s: Sample)
    requires k < |rows| && rows[k].row.Stat?
  {
    && s.time == rows[k].time && s.sys == 0
    && s.user == Moved(P, rows, k, Cpu) && s.io == Moved(P, rows, k, Blkio) && s.swap == Moved(P, rows, k, Swap)
    && (s.state == 'R' <==> s.user > 0) && (s.user <= 0 ==> (s.state == 'D' <==> s.io + s.swap > 0))
    && s.user + s.io + s.swap > 0
  }

  // The processes that a line leaves alone.
  lemma OthersStay(P: int, incs: seq<Proc>, t: Timed, i: nat)
    requires i < |incs| && (Of(P, t) ==> i + 1 != |Feeds(P, incs, t)|)
    ensures Feeds(P, incs, t)[i] == incs[i]
  {
  }

  // The process that a line belongs to, with what its counters have moved.
  lemma LastIsFed(P: int, incs: seq<Proc>, t: Timed, dc: int, db: int, ds: int)
    requires Of(P, t)
    requires dc == t.row.cpu - Current(incs, Cpu) && db == t.row.blkio - Current(incs, Blkio) && ds == t.row.swap - Current(incs, Swap)
    ensures var incs' := Feeds(P, incs, t);
      && incs' != [] && |incs| <= |incs'| <= |incs| + 1
      && incs'[|incs'| - 1].samples ==
           (if |incs'| == |incs| then incs[|incs| - 1].samples else [])
           + if dc + db + ds > 0 then [Sample(t.time, if dc > 0 then 'R' else 'D', dc, 0, db, ds)] else []
  {
  }

  // The lines of process i whose counters have moved on.
  ghost predicate Moves(P: int, rows: seq<Timed>, i: nat, k: nat) {
    BelongsTo(P, rows, i, k) && Moved(P, rows, k, Cpu) + Moved(P, rows, k, Blkio) + Moved(P, rows, k, Swap) > 0
  }

  lemma PrefixMoves(P: int, rows: seq<Timed>, i: nat, k: nat)
    requires rows != [] && k < |rows| - 1
    ensures Moves(P, rows[..|rows| - 1], i, k) <==> Moves(P, rows, i, k)
  {
    var init := rows[..|rows| - 1];
    assert init[..k] == rows[..k] && init[..k + 1] == rows[..k + 1];
  }

  lemma PrefixSample(P: int, rows: seq<Timed>, k: nat, s: Sample)
    requires rows != [] && k < |rows| - 1 && rows[k].row.Stat? && SampleOf(P, rows[..|rows| - 1], k, s)
    ensures SampleOf(P, rows, k, s)
  {
    assert rows[..|rows| - 1][..k] == rows[..k];
  }

  // ks are the numbers of the lines that the samples come from.
  ghost predicate From(P: int, rows: seq<Timed>, i: nat, ks: seq<nat>, samples: seq<Sample>) {
    && |ks| == |samples| && (forall a, b :: 0 <= a < b < |ks| ==> ks[a] < ks[b])
    && (forall j :: 0 <= j < |ks| ==> Moves(P, rows, i, ks[j]) && SampleOf(P, rows, ks[j], samples[j]))
    && (forall k: nat :: Moves(P, rows, i, k) ==> k in ks)
  }

  lemma FromPrefix(P: int, rows: seq<Timed>, i: nat, ks: seq<nat>, samples: seq<Sample>, j: nat)
    requires rows != [] && From(P, rows[..|rows| - 1], i, ks, samples) && j < |ks|
    ensures ks[j] < |rows| - 1 && Moves(P, rows, i, ks[j]) && SampleOf(P, rows, ks[j], samples[j])
  {
    assert Moves(P, rows[..|rows| - 1], i, ks[j]);
    PrefixMoves(P, rows, i, ks[j]);
    PrefixSample(P, rows, ks[j], samples[j]);
  }

  // A line that does not move the counters of process i changes nothing.
  lemma FromStays(P: int, rows: seq<Timed>, i: nat, ks: seq<nat>, samples: seq<Sample>)
    requires rows != [] && From(P, rows[..|rows| - 1], i, ks, samples) && !Moves(P, rows, i, |rows| - 1)
    ensures From(P, rows, i, ks, samples)
  {
    forall j | 0 <= j < |ks| ensures Moves(P, rows, i, ks[j]) && SampleOf(P, rows, ks[j], samples[j]) {
      FromPrefix(P, rows, i, ks, samples, j);
    }
    forall k: nat | Moves(P, rows, i, k) ensures k in ks {
      PrefixMoves(P, rows, i, k);
    }
  }

  lemma FromGrows(P: int, rows: seq<Timed>, i: nat, ks: seq<nat>, samples: seq<Sample>, s: Sample)
    requires rows != [] && From(P, rows[..|rows| - 1], i, ks, samples)
    requires Moves(P, rows, i, |rows| - 1) && SampleOf(P, rows, |rows| - 1, s)
    ensures From(P, rows, i, ks + [|rows| - 1], samples + [s])
  {
    forall j | 0 <= j < |ks| ensures ks[j] < |rows| - 1 && Moves(P, rows, i, ks[j]) && SampleOf(P, rows, ks[j], samples[j]) {
      FromPrefix(P, rows, i, ks, samples, j);
    }
    forall k: nat | Moves(P, rows, i, k) ensures k in ks + [|rows| - 1] {
      if k < |rows| - 1 {
        PrefixMoves(P, rows, i, k);
      }
    }
  }

  lemma MovedLast(P: int, rows: seq<Timed>, c: Counter)
    requires rows != [] && rows[|rows| - 1].row.Stat?
    ensures Moved(P, rows, |rows| - 1, c) == Reported(rows[|rows| - 1].row, c) - Current(Incs(P, rows[..|rows| - 1]), c)
  {
    CurrentIsReported(P, rows[..|rows| - 1], c);
  }

  lemma LastBelongs(P: int, rows: seq<Timed>, i: nat)
    requires rows != [] && Of(P, rows[|rows| - 1])
    ensures BelongsTo(P, rows, i, |rows| - 1) <==> i + 1 == |Incs(P, rows)|
  {
    assert rows[..|rows|] == rows;
  }

  // What the last line leaves with the process it belongs to.
  lemma LastLine(P: int, rows: seq<Timed>) returns (s: seq<Sample>)
    requires rows != [] && Of(P, rows[|rows| - 1])
    ensures var (incs, incs') := (Incs(P, rows[..|rows| - 1]), Incs(P, rows));
      && incs' != [] && |incs| <= |incs'| <= |incs| + 1
      && incs'[|incs'| - 1].samples == (if |incs'| == |incs| then incs[|incs| - 1].samples else []) + s
      && if Moves(P, rows, |incs'| - 1, |rows| - 1) then |s| == 1 && SampleOf(P, rows, |rows| - 1, s[0]) else s == []
  {
    var t, n := rows[|rows| - 1], |rows| - 1;
    var (dc, db, ds) := (Moved(P, rows, n, Cpu), Moved(P, rows, n, Blkio), Moved(P, rows, n, Swap));
    MovedLast(P, rows, Cpu);
    MovedLast(P, rows, Blkio);
    MovedLast(P, rows, Swap);
    LastIsFed(P, Incs(P, rows[..n]), t, dc, db, ds);
    LastBelongs(P, rows, |Incs(P, rows)| - 1);
    s := if dc + db + ds > 0 then [Sample(t.time, if dc > 0 then 'R' else 'D', dc, 0, db, ds)] else [];
  }

  lemma NothingYet(P: int, rows: seq<Timed>, i: nat)
    requires |Incs(P, rows)| <= i
    ensures From(P, rows, i, [], [])
  {
    forall k: nat ensures !Moves(P, rows, i, k) {
      if BelongsTo(P, rows, i, k) {
        OneNameEach(P, rows, k + 1, i);
      }
    }
  }

  // The samples of process i, none if there is no such process yet.
  ghost function SamplesIn(P: int, rows: seq<Timed>, i: nat): seq<Sample> {
    if i < |Incs(P, rows)| then Incs(P, rows)[i].samples else []
  }

  lemma {:induction false} SamplesUpTo(P: int, rows: seq<Timed>, i: nat) returns (ks: seq<nat>)
    ensures From(P, rows, i, ks, SamplesIn(P, rows, i))
    decreases |rows|
  {
    if |Incs(P, rows)| <= i {
      NothingYet(P, rows, i);
      ks := [];
    } else if rows == [] {
      ks := [];
    } else {
      ks := SamplesUpTo(P, rows[..|rows| - 1], i);
      if Of(P, rows[|rows| - 1]) && i + 1 == |Incs(P, rows)| {
        ks := SamplesOfLast(P, rows, i, ks);
      } else {
        SamplesOfOther(P, rows, i, ks);
      }
    }
  }

  lemma SamplesOfLast(P: int, rows: seq<Timed>, i: nat, ks: seq<nat>) returns (ks': seq<nat>)
    requires rows != [] && Of(P, rows[|rows| - 1]) && i + 1 == |Incs(P, rows)|
    requires From(P, rows[..|rows| - 1], i, ks, SamplesIn(P, rows[..|rows| - 1], i))
    ensures From(P, rows, i, ks', SamplesIn(P, rows, i))
  {
    var s := LastLine(P, rows);
    ks' := FromLast(P, rows, i, ks, SamplesIn(P, rows[..|rows| - 1], i), s);
  }

  lemma FromLast(P: int, rows: seq<Timed>, i: nat, ks: seq<nat>, before: seq<Sample>, s: seq<Sample>) returns (ks': seq<nat>)
    requires rows != [] && rows[|rows| - 1].row.Stat? && From(P, rows[..|rows| - 1], i, ks, before)
    requires if Moves(P, rows, i, |rows| - 1) then |s| == 1 && SampleOf(P, rows, |rows| - 1, s[0]) else s == []
    ensures From(P, rows, i, ks', before + s)
  {
    if Moves(P, rows, i, |rows| - 1) {
      FromGrows(P, rows, i, ks, before, s[0]);
      assert s == [s[0]];
      ks' := ks + [|rows| - 1];
    } else {
      FromStays(P, rows, i, ks, before);
      assert before + [] == before;
      ks' := ks;
    }
  }

  lemma SamplesOfOther(P: int, rows: seq<Timed>, i: nat, ks: seq<nat>)
    requires rows != [] && i < |Incs(P, rows)| && !(Of(P, rows[|rows| - 1]) && i + 1 == |Incs(P, rows)|)
    requires From(P, rows[..|rows| - 1], i, ks, SamplesIn(P, rows[..|rows| - 1], i))
    ensures From(P, rows, i, ks, SamplesIn(P, rows, i))
  {
    var incs, t := Incs(P, rows[..|rows| - 1]), rows[|rows| - 1];
    if Of(P, t) {
      var s := LastLine(P, rows);
      LastBelongs(P, rows, i);
    }
    assert Incs(P, rows) == Feeds(P, incs, t);
    OthersStay(P, incs, t, i);
    FromStays(P, rows, i, ks, SamplesIn(P, rows, i));
  }

  // ---- in the process map --------------------------------------------------------------------

  predicate SameBirth(p: Proc, q: Proc) { p.pid == q.pid && p.ppid == q.ppid && p.start == q.start && p.cmd == q.cmd }

  ghost predicate Told(s: Sample) {
    && (s.state == 'R' <==> s.user > 0) && (s.user <= 0 ==> (s.state == 'D' <==> s.io + s.swap > 0))
    && s.user + s.io + s.swap > 0 && s.sys == 0
  }

  lemma FeedTells(p: Proc, time: int, row: Row)
    requires row.Stat?
    ensures var q := Feed(p, time, row);
      q.samples == p.samples || exists s :: Told(s) && q.samples == p.samples + [s]
  {
    var q := Feed(p, time, row);
    if q.samples != p.samples {
      assert Told(q.samples[|p.samples|]);
    }
  }

  lemma RowTells(st: TaskStats.State, t: Timed)
    requires forall key, s :: key in st.procs && s in st.procs[key].samples ==> Told(s)
    ensures forall key, s :: key in ParseRow(st, t).procs && s in ParseRow(st, t).procs[key].samples ==> Told(s)
  {
    if t.row.Stat? {
      var opid, cmd := t.row.pid * 1000, Name(t.row.comm);
      var key := if opid in st.rewrites then st.rewrites[opid] else opid;
      forall p: Proc ensures Feed(p, t.time, t.row).samples == p.samples
        || exists s :: Told(s) && Feed(p, t.time, t.row).samples == p.samples + [s]
      {
        FeedTells(p, t.time, t.row);
      }
    }
  }

  // ---- in the text -----------------------------------------------------------------------------

  // All lines of a log, with the times of their blocks.
  function LinesIn(text: string): seq<Timed>
    requires ParseText(text).Ok?
  {
    Flatten(BlocksOf(T.Parse(text).value).value)
  }

  lemma TextIsIncs(text: string, P: int, i: nat)
    requires ParseText(text).Ok? && ParseText(text).value.Some?
    requires i < |Incs(P, LinesIn(text))| && forall Q :: |Incs(Q, LinesIn(text))| <= 1000
    ensures var procs := ParseText(text).value.value.procs;
      1000 * P + i in procs && procs[1000 * P + i] == Incs(P, LinesIn(text))[i]
  {
    TextIsParse(text);
    MapIsIncs(LinesIn(text), P, i);
  }

  lemma TextIsParse(text: string)
    requires ParseText(text).Ok? && ParseText(text).value.Some?
    ensures ParseText(text).value.value.procs == Parse(LinesIn(text)).procs
  {
  }

  lemma MapIsIncs(rows: seq<Timed>, P: int, i: nat)
    requires i < |Incs(P, rows)| && forall Q :: |Incs(Q, rows)| <= 1000
    ensures 1000 * P + i in Parse(rows).procs && Parse(rows).procs[1000 * P + i] == Incs(P, rows)[i]
  {
    assert |Incs(P, rows)| <= 1000;
    ParseIsAllIncarnations(rows, P, i);
    assert Key(P, i) == 1000 * P + i;
  }

  lemma SamplesTell(P: int, rows: seq<Timed>, i: nat, ks: seq<nat>, samples: seq<Sample>)
    requires From(P, rows, i, ks, samples)
    ensures forall s <- samples :: (s.state == 'R' <==> s.user > 0) && (s.user <= 0 ==> (s.state == 'D' <==> s.io + s.swap > 0))
  {
    forall s <- samples ensures (s.state == 'R' <==> s.user > 0) && (s.user <= 0 ==> (s.state == 'D' <==> s.io + s.swap > 0)) {
      var j :| 0 <= j < |samples| && samples[j] == s;
      assert Moves(P, rows, i, ks[j]) && SampleOf(P, rows, ks[j], s);
    }
  }
}
