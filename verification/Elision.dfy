/** The taskstats lines that the collector leaves out. */
module Elision {
  // dump_taskstat leaves out the line of a process whose total and parent have not moved since its
  // last line, and _parse_taskstats_log reads what is left. When does that lose anything?

  import opened TaskStats
  import opened ElisionSteps

  // The static table of get_pid_entry, and the file it guards.
  class Collector {
    var pids: array<PidEntry>
    var file: seq<Timed>
    ghost var history: seq<Reading>

    ghost function At(p: nat): PidEntry
      reads this, pids
    { if p < pids.Length then pids[p] else ZERO }

    ghost predicate Valid()
      reads this, pids
    {
      && (forall p: nat :: At(p) == Entry(p, history))
      && file == Kept(history)
    }

    constructor ()
      ensures Valid() && history == [] && fresh(pids)
    {
      pids := new PidEntry[0];
      file := [];
      history := [];
    }

    method GetPidEntry(pid: nat)
      modifies this`pids
      ensures pid < pids.Length
      ensures pids == old(pids) || fresh(pids)
      ensures pid < old(pids.Length) ==> pids == old(pids)
      ensures forall p: nat :: At(p) == old(At(p))
    {
      if pid >= pids.Length {
        var short := pids;
        var grown := new PidEntry[pid + 512](_ => ZERO);
        for i := 0 to short.Length
          invariant forall k :: 0 <= k < i ==> grown[k] == short[k]
          invariant forall k :: i <= k < grown.Length ==> grown[k] == ZERO
        {
          grown[i] := short[i];
        }
        pids := grown;
      }
    }

    // dump_taskstat
    method DumpTaskstat(r: Reading)
      requires Valid()
      modifies this, pids
      ensures Valid() && history == old(history) + [r]
      ensures pids == old(pids) || fresh(pids)
      ensures file == old(file) + if Dropped(old(history), r) then [] else [Line(r)]
      ensures file == old(file) || file == old(file) +
        [Timed(r.time, if ' ' in r.comm then Other
                       else Stat(r.pid, if r.scanPpid != 0 then r.scanPpid else r.acPpid, r.comm, Signed(r.cpu), Signed(r.blkio), Signed(r.swap)))]
    {
      GetPidEntry(r.pid);
      assert old(history) + [r] != [] && Init(old(history) + [r]) == old(history);
      history := history + [r];
      if pids[r.pid].total == (r.cpu + r.blkio + r.swap) % U64 && pids[r.pid].ppid == r.acPpid {
        assert pids[r.pid] == old(At(r.pid));
        return;
      }
      pids[r.pid] := PidEntry(r.acPpid, (r.cpu + r.blkio + r.swap) % U64);
      // PROC_EVENTS knows the parent better than the kernel
      var ppid := r.scanPpid;
      if ppid == 0 {
        ppid := r.acPpid;
      }
      var row := if ' ' in r.comm then Other else Stat(r.pid, ppid, r.comm, Signed(r.cpu), Signed(r.blkio), Signed(r.swap));
      file := file + [Timed(r.time, row)];
    }
  }

  // A line is without effect on the parser exactly when it is harmless.
  lemma NoOpIff(rs: seq<Reading>, r: Reading)
    requires Regular(rs + [r])
    ensures var (incs, incs') := (Incs(r.pid, Full(rs)), Feeds(r.pid, Incs(r.pid, Full(rs)), Line(r)));
      if Harmless(rs, r) then incs' == incs else incs' != incs && Touched(r.pid, incs', r.time)
  {
    assert Init(rs + [r]) == rs && Last(rs + [r]) == r;
    RegularInit(rs + [r]);
    ShownIsCurrent(r.pid, rs);
    NothingFalls(rs, r);
    BornFirst(r.pid, Full(rs));
    NoOpStep(Incs(r.pid, Full(rs)), r);
  }

  lemma {:induction false} HarmlessIsEnough(P: nat, rs: seq<Reading>)
    requires Regular(rs) && AllHarmless(rs)
    ensures Incs(P, Kept(rs)) == Incs(P, Full(rs))
  {
    if rs != [] {
      HarmlessIsEnough(P, Init(rs));
      FullStep(P, rs);
      KeptStep(P, rs);
      if Dropped(Init(rs), Last(rs)) {
        HarmlessChangesNothing(P, rs);
      }
    }
  }

  lemma HarmlessChangesNothing(P: nat, rs: seq<Reading>)
    requires rs != [] && Regular(rs) && Harmless(Init(rs), Last(rs))
    ensures var incs := Incs(P, Full(Init(rs))); Feeds(P, incs, Line(Last(rs))) == incs
  {
    assert Init(rs) + [Last(rs)] == rs;
    if P == Last(rs).pid {
      NoOpIff(Init(rs), Last(rs));
    }
  }

  lemma {:induction false} HarmShows(rs: seq<Reading>) returns (P: nat)
    requires Regular(rs) && !AllHarmless(rs)
    ensures Incs(P, Kept(rs)) != Incs(P, Full(rs))
  {
    var k := FirstHarm(rs);
    var r := rs[k];
    P := r.pid;
    var upTo := rs[..k + 1];
    assert upTo == rs[..k] + [r] && Init(upTo) == rs[..k] && Last(upTo) == r;
    FullStep(P, upTo);
    NoOpIff(rs[..k], r);
    FullTouches(P, rs, k + 1, r.time);
    if Touched(P, Incs(P, Kept(rs)), r.time) {
      var i := KeptTouches(P, rs, r.time);
      SameTime(rs, i, k);
      assert false;
    }
  }

  // Parsing the written log gives the processes and samples of the full one exactly when
  // every dropped line repeats the name and the total of the last readable line of its process.
  lemma {:induction false} ElisionIsLosslessIff(rs: seq<Reading>)
    requires Regular(rs)
    requires Few(Full(rs))
    ensures Parse(Kept(rs)).procs == Parse(Full(rs)).procs <==> AllHarmless(rs)
  {
    forall Q ensures |Incs(Q, Kept(rs))| <= 1000 {
      if Q >= 0 {
        FewerIncarnations(Q, rs);
      } else {
        NotNegative(Q, rs);
      }
    }
    if AllHarmless(rs) {
      forall Q ensures Incs(Q, Kept(rs)) == Incs(Q, Full(rs)) {
        if Q >= 0 {
          HarmlessIsEnough(Q, rs);
        } else {
          NotNegative(Q, rs);
        }
      }
      SameIncarnationsSameMaps(Kept(rs), Full(rs));
    } else {
      var P := HarmShows(rs);
      if Parse(Kept(rs)).procs == Parse(Full(rs)).procs {
        SameMapsSameIncarnations(Kept(rs), Full(rs), P);
        assert false;
      }
    }
  }

  // In the ordinary case nothing is lost.
  lemma {:induction false} PlainLogsAreHarmless(rs: seq<Reading>)
    requires Plain(rs)
    ensures AllHarmless(rs)
  {
    if rs != [] {
      forall k | 0 <= k < |Init(rs)| ensures Unsurprising(Init(rs)[..k], Init(rs)[k]) {
        assert Init(rs)[..k] == rs[..k] && Unsurprising(rs[..k], rs[k]);
      }
      PlainLogsAreHarmless(Init(rs));
      assert Unsurprising(rs[..|rs| - 1], rs[|rs| - 1]);
      forall k | 0 <= k < |Init(rs)| ensures Readable(Init(rs)[k]) {
        assert Unsurprising(Init(rs)[..k], Init(rs)[k]);
      }
      EntryIsPrevious(Last(rs).pid, Init(rs));
    }
  }

  // A process that execs while its counters stand still keeps its old name in the written log.
  lemma RenameIsLost()
    ensures var a := Reading(1, 7, 1, 0, "sh", 5, 0, 0);
      var b := a.(time := 2, comm := "ls");
      Kept([a, b]) == [Line(a)] && !AllHarmless([a, b])
  {
    var a := Reading(1, 7, 1, 0, "sh", 5, 0, 0);
    var b := a.(time := 2, comm := "ls");
    assert Init([a, b]) == [a] && Init([a]) == [];
    assert Kept([]) == [] && Kept([a]) == [Line(a)];
    assert Name("sh") == "sh" && Name("ls") == "ls";
  }
}
