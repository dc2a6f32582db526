/** The lines of the taskstats log in the fields of the readings. */
module WrittenLines {
  import opened Wrappers
  import opened Text
  import opened TaskStats
  import opened TaskStatsLog
  import opened ElisionSteps
  import opened ElidedLog
  import opened CutLog
  import opened ProcLines
  import opened ParsedProcs
  import T = TimedFrames

  // ---- numbers ---------------------------------------------------------------------------

  // An unsigned 64-bit total is written as the signed number of the same bits.
  lemma SignedIs(n: nat)
    ensures -0x8000_0000_0000_0000 <= Signed(n) < 0x8000_0000_0000_0000 && (n - Signed(n)) % 0x1_0000_0000_0000_0000 == 0
  {
  }

  // ---- which readings are written ----------------------------------------------------------

  function Sum(r: Reading): nat { (r.cpu + r.blkio + r.swap) % 0x1_0000_0000_0000_0000 }

  ghost predicate LastOf(rs: seq<Reading>, pid: nat, i: nat) {
    i < |rs| && rs[i].pid == pid && forall j :: i < j < |rs| ==> rs[j].pid != pid
  }

  lemma {:induction false} EntryIs(P: nat, rs: seq<Reading>) returns (i: nat)
    ensures if forall j :: 0 <= j < |rs| ==> rs[j].pid != P then ElisionSteps.Entry(P, rs) == PidEntry(0, 0)
      else LastOf(rs, P, i) && ElisionSteps.Entry(P, rs) == PidEntry(rs[i].acPpid, Sum(rs[i]))
  {
    i := 0;
    if rs != [] {
      if Last(rs).pid == P {
        i := |rs| - 1;
      } else {
        i := EntryIs(P, Init(rs));
        assert forall j :: 0 <= j < |Init(rs)| ==> Init(rs)[j] == rs[j];
      }
    }
  }

  // A reading is left out if and only if the last reading of the pid has the same kernel parent and
  // the same sum, or it is the first one and both are zero.
  lemma DroppedIff(rs: seq<Reading>, r: Reading)
    ensures Dropped(rs, r) <==>
      || (exists i: nat :: LastOf(rs, r.pid, i) && rs[i].acPpid == r.acPpid && Sum(rs[i]) == Sum(r))
      || ((forall j :: 0 <= j < |rs| ==> rs[j].pid != r.pid) && r.acPpid == 0 && Sum(r) == 0)
  {
    var i := EntryIs(r.pid, rs);
    if k: nat :| LastOf(rs, r.pid, k) {
      assert LastOf(rs, r.pid, i) && i == k;
    }
  }

  // What the parser makes of the line of r: its third token is the name, and its second the parent
  // that PROC_EVENTS told, or the one of the kernel if it told none.
  ghost predicate Says(t: Timed, r: Reading) {
    t == Timed(r.time, if ' ' in r.comm then Other
                       else Stat(r.pid, if r.scanPpid != 0 then r.scanPpid else r.acPpid, r.comm, Signed(r.cpu), Signed(r.blkio), Signed(r.swap)))
  }

  ghost predicate KeptFrom(rs: seq<Reading>, rows: seq<Timed>, ks: seq<nat>) {
    && |ks| == |rows| && (forall a, b :: 0 <= a < b < |ks| ==> ks[a] < ks[b])
    && (forall j :: 0 <= j < |ks| ==> ks[j] < |rs| && !Dropped(rs[..ks[j]], rs[ks[j]]) && Says(rows[j], rs[ks[j]]))
    && (forall i: nat :: i < |rs| && !Dropped(rs[..i], rs[i]) ==> i in ks)
  }

  // The log has one line for each reading that is not left out, in order.
  lemma {:induction false} KeptAre(rs: seq<Reading>) returns (ks: seq<nat>)
    ensures KeptFrom(rs, Kept(rs), ks)
  {
    ks := [];
    if rs != [] {
      var n := |rs| - 1;
      ks := KeptAre(Init(rs));
      ks := KeptNext(rs, Kept(Init(rs)), ks);
    }
  }

  lemma SameBefore(rs: seq<Reading>, i: nat)
    requires i < |rs| - 1
    ensures Init(rs)[i] == rs[i] && Init(rs)[..i] == rs[..i]
  {
  }

  lemma KeptStays(rs: seq<Reading>, rows: seq<Timed>, ks: seq<nat>)
    requires rs != [] && KeptFrom(Init(rs), rows, ks) && Dropped(Init(rs), Last(rs))
    ensures KeptFrom(rs, rows, ks)
  {
    assert rs[..|rs| - 1] == Init(rs);
    forall j | 0 <= j < |ks| ensures ks[j] < |rs| && !Dropped(rs[..ks[j]], rs[ks[j]]) && Says(rows[j], rs[ks[j]]) {
      SameBefore(rs, ks[j]);
    }
    forall i: nat | i < |rs| && !Dropped(rs[..i], rs[i]) ensures i in ks {
      if i < |rs| - 1 {
        SameBefore(rs, i);
      }
    }
  }

  lemma KeptGrows(rs: seq<Reading>, rows: seq<Timed>, ks: seq<nat>, t: Timed)
    requires rs != [] && KeptFrom(Init(rs), rows, ks) && !Dropped(Init(rs), Last(rs)) && Says(t, Last(rs))
    ensures KeptFrom(rs, rows + [t], ks + [|rs| - 1])
  {
    assert rs[..|rs| - 1] == Init(rs);
    forall j | 0 <= j < |ks| ensures ks[j] < |rs| - 1 && !Dropped(rs[..ks[j]], rs[ks[j]]) && Says(rows[j], rs[ks[j]]) {
      SameBefore(rs, ks[j]);
    }
    forall i: nat | i < |rs| && !Dropped(rs[..i], rs[i]) ensures i in ks + [|rs| - 1] {
      if i < |rs| - 1 {
        SameBefore(rs, i);
      }
    }
  }

  lemma KeptNext(rs: seq<Reading>, rows: seq<Timed>, ks: seq<nat>) returns (ks': seq<nat>)
    requires rs != [] && KeptFrom(Init(rs), rows, ks)
    ensures KeptFrom(rs, rows + if Dropped(Init(rs), Last(rs)) then [] else [Line(Last(rs))], ks')
  {
    if Dropped(Init(rs), Last(rs)) {
      KeptStays(rs, rows, ks);
      assert rows + [] == rows;
      ks' := ks;
    } else {
      KeptGrows(rs, rows, ks, Line(Last(rs)));
      ks' := ks + [|rs| - 1];
    }
  }

  // ---- the lines themselves ------------------------------------------------------------------

  // The line of a reading in the file: pid, parent, name and counters, and a parent known from
  // PROC_EVENTS goes before that of the kernel.
  lemma LineInFile(ticks: seq<Tick>, k: nat, m: nat)
    requires k < |ticks| && m < |Written(ticks, k)|
    ensures |Frames(ticks)| == |ticks| && |Frames(ticks)[k].lines| == |Written(ticks, k)|
    ensures var r, tokens := Written(ticks, k)[m], Split(Frames(ticks)[k].lines[m], " ");
      && (|tokens| == 6 <==> ' ' !in r.comm)
      && (' ' !in r.comm ==>
           tokens == [Decimal(r.pid), Decimal(if r.scanPpid != 0 then r.scanPpid else r.acPpid), r.comm,
                      SignedDecimal(Signed(r.cpu)), SignedDecimal(Signed(r.blkio)), SignedDecimal(Signed(r.swap))])
  {
    TickAt(ticks, k);
    LineTokens(Written(ticks, k)[m]);
  }

  lemma LineTokens(r: Reading)
    ensures |Split(LineText(r), " ")| == 6 <==> ' ' !in r.comm
    ensures ' ' !in r.comm ==>
      Split(LineText(r), " ") == [Decimal(r.pid), Decimal(if r.scanPpid != 0 then r.scanPpid else r.acPpid), r.comm,
                                  SignedDecimal(Signed(r.cpu)), SignedDecimal(Signed(r.blkio)), SignedDecimal(Signed(r.swap))]
  {
    LineIsRead(r);
    if ' ' !in r.comm {
      SixTokens(SignedDecimal(r.pid), SignedDecimal(Ppid(r)), r.comm,
                SignedDecimal(Signed(r.cpu)), SignedDecimal(Signed(r.blkio)), SignedDecimal(Signed(r.swap)),
                r.pid, Ppid(r), Signed(r.cpu), Signed(r.blkio), Signed(r.swap));
    }
  }

  lemma SixTokens(p: string, q: string, comm: string, a: string, b: string, c: string, pid: int, ppid: int, x: int, y: int, z: int)
    requires p == SignedDecimal(pid) && q == SignedDecimal(ppid) && a == SignedDecimal(x) && b == SignedDecimal(y) && c == SignedDecimal(z)
    requires ' ' !in comm
    ensures Split(Six(p, q, comm, a, b, c), " ") == [p, q, comm, a, b, c]
  {
    SignedReads(pid);
    SignedReads(ppid);
    SignedReads(x);
    SignedReads(y);
    SignedReads(z);
    ThreeTokens(a, b, c);
    FrontTokens(p, q, comm, Three(a, b, c));
    SplitAtChar(comm, ' ', "");
    SixInAll(p, q, comm, a, b, c);
  }

  // ---- and the parent they give a process ------------------------------------------------------

  // Reading a is the first of P that is written and has no blank in its name.
  ghost predicate FirstShown(rs: seq<Reading>, P: nat, a: nat) {
    && a < |rs| && rs[a].pid == P && ' ' !in rs[a].comm && !Dropped(rs[..a], rs[a])
    && forall i: nat :: i < a && rs[i].pid == P && ' ' !in rs[i].comm ==> Dropped(rs[..i], rs[i])
  }

  lemma FirstLineIs(rs: seq<Reading>, rows: seq<Timed>, P: nat, a: nat, ks: seq<nat>, k: nat)
    requires FirstShown(rs, P, a) && KeptFrom(rs, rows, ks) && P != 1 && Begins(P, rows, 0, k)
    ensures Says(rows[k], rs[a])
  {
    assert Says(rows[k], rs[ks[k]]) && a <= ks[k];
    var j :| 0 <= j < |ks| && ks[j] == a;
    assert Says(rows[j], rs[a]);
    if j < k {
      NoneBefore(P, rows, k, j);
    }
  }

  lemma {:induction false} NoneBefore(P: int, rows: seq<Timed>, k: nat, j: nat)
    requires j < k <= |rows| && Of(P, rows[j])
    ensures Incs(P, rows[..k]) != []
  {
    var before := rows[..k - 1];
    assert rows[..k][..k - 1] == before && rows[..k][k - 1] == rows[k - 1];
    if j < k - 1 {
      NoneBefore(P, rows, k - 1, j);
    }
  }

  lemma FirstIsThere(rs: seq<Reading>, rows: seq<Timed>, P: nat, a: nat, ks: seq<nat>)
    requires FirstShown(rs, P, a) && KeptFrom(rs, rows, ks)
    ensures Incs(P, rows) != []
  {
    var j :| 0 <= j < |ks| && ks[j] == a;
    assert Says(rows[j], rs[a]);
    NoneBefore(P, rows, |ks|, j);
    assert rows[..|ks|] == rows;
  }

  // A process born of the line of r.
  ghost predicate BornOf(p: Proc, r: Reading) {
    p.ppid == 1000 * (if r.scanPpid != 0 then r.scanPpid else r.acPpid) && p.start == r.time && p.cmd == Name(r.comm)
  }

  lemma FirstInc(rs: seq<Reading>, rows: seq<Timed>, P: nat, a: nat, ks: seq<nat>)
    requires P != 1 && FirstShown(rs, P, a) && KeptFrom(rs, rows, ks)
    ensures Incs(P, rows) != [] && BornOf(Incs(P, rows)[0], rs[a])
  {
    FirstIsThere(rs, rows, P, a, ks);
    var k := ProcIsBegun(P, rows, 0);
    FirstLineIs(rs, rows, P, a, ks, k);
  }

  lemma FirstInMap(rs: seq<Reading>, rows: seq<Timed>, P: nat, a: nat, ks: seq<nat>)
    requires P != 1 && FirstShown(rs, P, a) && KeptFrom(rs, rows, ks) && forall Q :: |Incs(Q, rows)| <= 1000
    ensures 1000 * P in Parse(rows).procs && BornOf(Parse(rows).procs[1000 * P], rs[a])
  {
    FirstInc(rs, rows, P, a, ks);
    MapIsIncs(rows, P, 0);
  }

  lemma FirstProc(rs: seq<Reading>, P: nat, a: nat)
    requires P != 1 && FirstShown(rs, P, a) && forall Q :: |Incs(Q, Kept(rs))| <= 1000
    ensures 1000 * P in Parse(Kept(rs)).procs && BornOf(Parse(Kept(rs)).procs[1000 * P], rs[a])
  {
    var ks := KeptAre(rs);
    FirstInMap(rs, Kept(rs), P, a, ks);
  }

  // The process that the first line of P makes in the file gets the parent that PROC_EVENTS knew then,
  // or that of the kernel if it knew none.
  lemma {:induction false} FileParent(ticks: seq<Tick>, P: nat, a: nat)
    requires |ticks| >= 2 && forall t <- ticks :: Sound(t)
    requires forall Q :: |Incs(Q, Kept(Readings(ticks)))| <= 1000
    requires P != 1 && FirstShown(Readings(ticks), P, a)
    ensures var r, out := Readings(ticks)[a], ParseText(T.LogText(Frames(ticks)));
      && out.Ok? && out.value.Some? && 1000 * P in out.value.value.procs
      && out.value.value.procs[1000 * P].ppid == 1000 * (if r.scanPpid != 0 then r.scanPpid else r.acPpid)
      && out.value.value.procs[1000 * P].start == r.time && out.value.value.procs[1000 * P].cmd == Name(r.comm)
  {
    LogIsParsed(ticks);
    FirstProc(Readings(ticks), P, a);
  }
}
