/** Trace.compile: command lines, parents and statistics for every process. */
module Compile {
  import opened Wrappers
  import opened Samples
  import opened Forest
  import opened OrphanClimb
  import opened CmdlineParts
  import B = BuildSteps

  // Processes get their command lines, orphans are given the nearest ancestor that has an entry, the
  // entries are linked to their parents, and each gets its start, duration and activity.

  // ---- re-parenting and linking ----------------------------------------------------

  // The kernel pids that have an entry under their first key.
  function Entries(table: map<int, Process>): set<int> {
    set key | key in table && key % 1000 == 0 :: key / 1000
  }

  lemma EntriesFact(table: map<int, Process>, pid: int)
    ensures pid in Entries(table) <==> pid * 1000 in table
  {
    if pid * 1000 in table {
      assert (pid * 1000) % 1000 == 0 && (pid * 1000) / 1000 == pid;
    }
  }

  // What the climb finds, 0 for nothing.
  ghost function Climbed(parents: map<int, int>, entries: set<int>, pid: int): int
    requires Ends(parents, entries, pid)
  {
    var n: nat :| Returns(parents, entries, pid, n);
    FindParentIdFor(parents, entries, pid, n)
  }

  lemma {:induction false} ClimbedIs(parents: map<int, int>, entries: set<int>, pid: int, m: nat, n: nat)
    requires Returns(parents, entries, pid, m) && Returns(parents, entries, pid, n)
    ensures FindParentIdFor(parents, entries, pid, m) == FindParentIdFor(parents, entries, pid, n)
    decreases m
  {
    match Next(parents, pid)
    case None =>
    case Some(ppid) =>
      if ppid !in entries {
        ClimbedIs(parents, entries, ppid, m - 1, n - 1);
      }
  }

  // The parent id a process ends up with.
  ghost function Adopted(parents: Option<map<int, int>>, entries: set<int>, pid: int, ppid: int): int
    requires parents.Some? ==> Ends(parents.value, entries, pid / 1000)
  {
    if parents.None? then ppid
    else
      var r := Climbed(parents.value, entries, pid / 1000);
      if r != 0 then r * 1000 else ppid
  }

  // Where the climb finds nothing the parent id stays; otherwise it is that of the nearest ancestor
  // that has an entry.
  lemma AdoptedIs(parents: Option<map<int, int>>, entries: set<int>, pid: int, ppid: int)
    requires parents.Some? ==> Ends(parents.value, entries, pid / 1000)
    ensures parents.None? ==> Adopted(parents, entries, pid, ppid) == ppid
    ensures parents.Some? && NoEntryAbove(parents.value, entries, pid / 1000) ==> Adopted(parents, entries, pid, ppid) == ppid
    ensures parents.Some? && !NoEntryAbove(parents.value, entries, pid / 1000) ==>
      exists k: nat, r :: Nearest(parents.value, entries, pid / 1000, k, r) && Adopted(parents, entries, pid, ppid) == 1000 * r
  {
    if parents.Some? {
      var n: nat :| Returns(parents.value, entries, pid / 1000, n)
        && Climbed(parents.value, entries, pid / 1000) == FindParentIdFor(parents.value, entries, pid / 1000, n);
      ClimbFindsNearest(parents.value, entries, pid / 1000, n);
      var r := Climbed(parents.value, entries, pid / 1000);
      if r != 0 {
        var k: nat :| Nearest(parents.value, entries, pid / 1000, k, r);
        assert Ancestor(parents.value, pid / 1000, k).Some?;
      }
    }
  }

  function Lookup(table: map<int, Process>, key: int): Process? {
    if key in table then table[key] else null
  }

  // ---- calc_stats -----------------------------------------------------------------

  function Busy(s: Sample): nat {
    (if s.sys + s.user + s.io > 0 then 1 else 0) + if s.state == 'D' then 1 else 0
  }

  function Activity(samples: seq<Sample>): nat {
    if samples == [] then 0 else Activity(samples[..|samples| - 1]) + Busy(samples[|samples| - 1])
  }

  function Start(samples: seq<Sample>, start: real): real {
    if samples != [] && samples[0].time as real < start then samples[0].time as real else start
  }

  function Span(samples: seq<Sample>, start: real, duration: real, period: real): real {
    if samples == [] then duration else samples[|samples| - 1].time as real - Start(samples, start) + period
  }

  // start_time and duration in full, and the number behind `active`.
  lemma StatsAre(samples: seq<Sample>, start: real, duration: real, period: real)
    ensures samples == [] ==> Start(samples, start) == start && Span(samples, start, duration, period) == duration
    ensures samples != [] ==>
      var first, last := samples[0].time as real, samples[|samples| - 1].time as real;
      && Start(samples, start) <= first && Start(samples, start) <= start && Start(samples, start) in {first, start}
      && Start(samples, start) + Span(samples, start, duration, period) == last + period
  {
  }

  ghost function Running(samples: seq<Sample>): set<int> {
    set i | 0 <= i < |samples| && samples[i].sys + samples[i].user + samples[i].io > 0
  }

  ghost function Waiting(samples: seq<Sample>): set<int> {
    set i | 0 <= i < |samples| && samples[i].state == 'D'
  }

  lemma RunningNext(samples: seq<Sample>, s: Sample)
    ensures |Running(samples + [s])| == |Running(samples)| + if s.sys + s.user + s.io > 0 then 1 else 0
  {
    var n := |samples|;
    assert Running(samples + [s]) == Running(samples) + if s.sys + s.user + s.io > 0 then {n} else {};
    assert n !in Running(samples);
  }

  lemma WaitingNext(samples: seq<Sample>, s: Sample)
    ensures |Waiting(samples + [s])| == |Waiting(samples)| + if s.state == 'D' then 1 else 0
  {
    var n := |samples|;
    assert Waiting(samples + [s]) == Waiting(samples) + if s.state == 'D' then {n} else {};
    assert n !in Waiting(samples);
  }

  lemma {:induction false} ActivityCounts(samples: seq<Sample>)
    ensures Activity(samples) ==
      |set i | 0 <= i < |samples| && samples[i].sys + samples[i].user + samples[i].io > 0|
      + |set i | 0 <= i < |samples| && samples[i].state == 'D'|
  {
    ActivityIs(samples);
    assert Running(samples) == set i | 0 <= i < |samples| && samples[i].sys + samples[i].user + samples[i].io > 0;
    assert Waiting(samples) == set i | 0 <= i < |samples| && samples[i].state == 'D';
  }

  lemma {:induction false} ActivityIs(samples: seq<Sample>)
    ensures Activity(samples) == |Running(samples)| + |Waiting(samples)|
  {
    if samples == [] {
      assert Running(samples) == {} && Waiting(samples) == {};
    } else {
      var n := |samples| - 1;
      ActivityIs(samples[..n]);
      RunningNext(samples[..n], samples[n]);
      WaitingNext(samples[..n], samples[n]);
      assert samples == samples[..n] + [samples[n]];
    }
  }

  // The process lasts from no later than its first sample to one period after its last.
  lemma StatsCoverSamples(samples: seq<Sample>, start: real, duration: real, period: real)
    requires TimeSorted(samples)
    ensures forall s <- samples ::
      Start(samples, start) <= s.time as real <= Start(samples, start) + Span(samples, start, duration, period) - period
  {
  }

  method CalcStats(p: Process, period: real)
    modifies p`startTime, p`duration, p`active
    ensures p.startTime == Start(p.samples, old(p.startTime))
    ensures p.duration == Span(p.samples, old(p.startTime), old(p.duration), period)
    ensures p.active <==> Activity(p.samples) > 2
  {
    if p.samples != [] {
      if p.samples[0].time as real < p.startTime {
        p.startTime := p.samples[0].time as real;
      }
      p.duration := p.samples[|p.samples| - 1].time as real - p.startTime + period;
    }
    var activeCount := 0;
    for i := 0 to |p.samples|
      invariant activeCount == Activity(p.samples[..i])
    {
      assert p.samples[..i + 1][..i] == p.samples[..i];
      activeCount := activeCount + Busy(p.samples[i]);
    }
    assert p.samples[..|p.samples|] == p.samples;
    p.active := activeCount > 2;
  }

  // ---- the three loops ---------------------------------------------------------------

  // The recursion of the source comes back only when the chain of no process circles in front of
  // the first entry.
  ghost predicate AllEnd(ps: seq<Process>, parents: Option<map<int, int>>, entries: set<int>) {
    parents.Some? ==> forall p :: p in ps ==> Ends(parents.value, entries, p.pid / 1000)
  }

  method Compile(ps: seq<Process>, table: map<int, Process>, cmdline: Option<map<nat, Cmd>>,
                 parents: Option<map<int, int>>, period: real)
    requires B.NoRepeats(ps) && AllEnd(ps, parents, Entries(table))
    modifies (set p | p in ps)`exe, (set p | p in ps)`args
    modifies (set p | p in ps)`ppid, (set p | p in ps)`parent
    modifies (set p | p in ps)`startTime, (set p | p in ps)`duration, (set p | p in ps)`active
    ensures forall p :: p in ps ==>
      if cmdline.Some? && p.pid / 1000 in cmdline.value
      then p.exe == cmdline.value[p.pid / 1000].exe && p.args == cmdline.value[p.pid / 1000].args
      else p.exe == old(p.exe) && p.args == old(p.args)
    ensures forall p :: p in ps ==> p.ppid == Adopted(parents, Entries(table), p.pid, old(p.ppid))
    ensures forall p :: p in ps ==>
      if parents.None? || NoEntryAbove(parents.value, Entries(table), p.pid / 1000) then p.ppid == old(p.ppid)
      else exists k: nat, r :: Nearest(parents.value, Entries(table), p.pid / 1000, k, r) && p.ppid == 1000 * r
    ensures forall p :: p in ps ==> p.parent == if p.ppid in table then table[p.ppid] else null
    ensures forall p :: p in ps ==>
      && p.startTime == Start(p.samples, old(p.startTime))
      && p.duration == Span(p.samples, old(p.startTime), old(p.duration), period)
      && (p.active <==> Activity(p.samples) > 2)
  {
    MergeCmdlines(ps, cmdline);
    Reparent(ps, table, parents);
    SetParents(ps, table);
    CalcAll(ps, period);
  }

  method MergeCmdlines(ps: seq<Process>, cmdline: Option<map<nat, Cmd>>)
    requires B.NoRepeats(ps)
    modifies (set p | p in ps)`exe, (set p | p in ps)`args
    ensures forall p :: p in ps ==>
      if cmdline.Some? && p.pid / 1000 in cmdline.value
      then p.exe == cmdline.value[p.pid / 1000].exe && p.args == cmdline.value[p.pid / 1000].args
      else p.exe == old(p.exe) && p.args == old(p.args)
  {
    if cmdline == None {
      return;
    }
    for i := 0 to |ps|
      invariant forall k :: 0 <= k < i ==>
        if ps[k].pid / 1000 in cmdline.value
        then ps[k].exe == cmdline.value[ps[k].pid / 1000].exe && ps[k].args == cmdline.value[ps[k].pid / 1000].args
        else ps[k].exe == old(ps[k].exe) && ps[k].args == old(ps[k].args)
      invariant forall k :: i <= k < |ps| ==> ps[k].exe == old(ps[k].exe) && ps[k].args == old(ps[k].args)
    {
      B.NoRepeatsAt(ps, i);
      var p := ps[i];
      var rpid := p.pid / 1000;
      if rpid in cmdline.value {
        p.exe := cmdline.value[rpid].exe;
        p.args := cmdline.value[rpid].args;
      }
    }
  }

  method SetParents(ps: seq<Process>, table: map<int, Process>)
    modifies (set p | p in ps)`parent
    ensures forall p :: p in ps ==> p.parent == if p.ppid in table then table[p.ppid] else null
  {
    for i := 0 to |ps|
      invariant forall k :: 0 <= k < i ==> ps[k].parent == Lookup(table, ps[k].ppid)
    {
      ps[i].parent := if ps[i].ppid in table then table[ps[i].ppid] else null;
    }
  }

  method Reparent(ps: seq<Process>, table: map<int, Process>, parents: Option<map<int, int>>)
    requires B.NoRepeats(ps) && AllEnd(ps, parents, Entries(table))
    modifies (set p | p in ps)`ppid
    ensures forall p :: p in ps ==> p.ppid == Adopted(parents, Entries(table), p.pid, old(p.ppid))
    ensures forall p :: p in ps ==>
      if parents.None? || NoEntryAbove(parents.value, Entries(table), p.pid / 1000) then p.ppid == old(p.ppid)
      else exists k: nat, r :: Nearest(parents.value, Entries(table), p.pid / 1000, k, r) && p.ppid == 1000 * r
  {
    ReparentAll(ps, table, parents);
    forall p | p in ps
      ensures if parents.None? || NoEntryAbove(parents.value, Entries(table), p.pid / 1000) then p.ppid == old(p.ppid)
        else exists k: nat, r :: Nearest(parents.value, Entries(table), p.pid / 1000, k, r) && p.ppid == 1000 * r
    {
      AdoptedIs(parents, Entries(table), p.pid, old(p.ppid));
    }
  }

  method ReparentAll(ps: seq<Process>, table: map<int, Process>, parents: Option<map<int, int>>)
    requires B.NoRepeats(ps) && AllEnd(ps, parents, Entries(table))
    modifies (set p | p in ps)`ppid
    ensures forall p :: p in ps ==> p.ppid == Adopted(parents, Entries(table), p.pid, old(p.ppid))
  {
    if parents == None {
      return;
    }
    for i := 0 to |ps|
      invariant forall k :: 0 <= k < i ==> ps[k].ppid == Adopted(parents, Entries(table), ps[k].pid, old(ps[k].ppid))
      invariant forall k :: i <= k < |ps| ==> ps[k].ppid == old(ps[k].ppid)
    {
      B.NoRepeatsAt(ps, i);
      var p := ps[i];
      ghost var n: nat :| Returns(parents.value, Entries(table), p.pid / 1000, n);
      var ppid := FindParentIdFor(parents.value, Entries(table), p.pid / 1000, n);
      ghost var m: nat :| Returns(parents.value, Entries(table), p.pid / 1000, m)
        && Climbed(parents.value, Entries(table), p.pid / 1000) == FindParentIdFor(parents.value, Entries(table), p.pid / 1000, m);
      ClimbedIs(parents.value, Entries(table), p.pid / 1000, m, n);
      if ppid != 0 {
        p.ppid := ppid * 1000;
      }
    }
  }

  method CalcAll(ps: seq<Process>, period: real)
    requires B.NoRepeats(ps)
    modifies (set p | p in ps)`startTime, (set p | p in ps)`duration, (set p | p in ps)`active
    ensures forall p :: p in ps ==>
      && p.startTime == Start(p.samples, old(p.startTime))
      && p.duration == Span(p.samples, old(p.startTime), old(p.duration), period)
      && (p.active <==> Activity(p.samples) > 2)
  {
    for i := 0 to |ps|
      invariant forall k :: 0 <= k < i ==>
        && ps[k].startTime == Start(ps[k].samples, old(ps[k].startTime))
        && ps[k].duration == Span(ps[k].samples, old(ps[k].startTime), old(ps[k].duration), period)
        && (ps[k].active <==> Activity(ps[k].samples) > 2)
      invariant forall k :: i <= k < |ps| ==> ps[k].startTime == old(ps[k].startTime) && ps[k].duration == old(ps[k].duration)
    {
      B.NoRepeatsAt(ps, i);
      CalcStats(ps[i], period);
    }
  }

  // ---- on to the forest ----------------------------------------------------------------

  // The links that Compile leaves behind.
  ghost predicate Stitched(ps: seq<Process>, table: map<int, Process>, parents: Option<map<int, int>>,
                           own: map<Process, int>, par: B.Links)
    requires AllEnd(ps, parents, Entries(table))
  {
    forall p :: p in ps ==>
      p in par && p in own && par[p] == Lookup(table, Adopted(parents, Entries(table), p.pid, own[p]))
  }

  // A process is linked to the entry under its own parent id if the climb from it finds nothing, and
  // otherwise to the entry of its nearest ancestor that has one.
  lemma StitchedIs(ps: seq<Process>, table: map<int, Process>, parents: Option<map<int, int>>,
                   own: map<Process, int>, par: B.Links, p: Process)
    requires AllEnd(ps, parents, Entries(table)) && Stitched(ps, table, parents, own, par) && p in ps
    ensures parents.None? || NoEntryAbove(parents.value, Entries(table), p.pid / 1000) ==>
      par[p] == if own[p] in table then table[own[p]] else null
    ensures parents.Some? && !NoEntryAbove(parents.value, Entries(table), p.pid / 1000) ==>
      exists k: nat, r :: Nearest(parents.value, Entries(table), p.pid / 1000, k, r) && 1000 * r in table && par[p] == table[1000 * r]
  {
    AdoptedIs(parents, Entries(table), p.pid, own[p]);
    if parents.Some? && !NoEntryAbove(parents.value, Entries(table), p.pid / 1000) {
      var k: nat, r :| Nearest(parents.value, Entries(table), p.pid / 1000, k, r)
        && Adopted(parents, Entries(table), p.pid, own[p]) == 1000 * r;
      EntriesFact(table, r);
    }
  }

  // The table holds every process, under its pid; the stub for init, which has the pid 1, stands
  // under 1000 and has no parent.
  ghost predicate Filed(ps: seq<Process>, table: map<int, Process>, own: map<Process, int>) {
    && (forall key :: key in table ==> table[key] in ps && (table[key].pid == key || (key == 1000 && table[key].pid == 1)))
    && (forall p :: p in ps ==> p in own && (p.pid == 1 ==> own[p] == 0)) && 0 !in table
  }

  // The process keeps the parent id of the process log.
  ghost predicate KeepsOwn(table: map<int, Process>, parents: Option<map<int, int>>, p: Process)
    requires parents.Some? ==> Ends(parents.value, Entries(table), p.pid / 1000)
  {
    parents.None? || Climbed(parents.value, Entries(table), p.pid / 1000) == 0
  }

  // No chain of parents goes round: every step of the parent map, and every parent id from the
  // process log that is still used, leads to a lower rank.
  ghost predicate Acyclic(ps: seq<Process>, table: map<int, Process>, parents: Option<map<int, int>>,
                          own: map<Process, int>, rank: int -> nat)
    requires AllEnd(ps, parents, Entries(table)) && Filed(ps, table, own)
  {
    && (parents.Some? ==> forall pid :: Next(parents.value, pid).Some? ==> rank(Next(parents.value, pid).value) < rank(pid))
    && (forall p :: p in ps && KeepsOwn(table, parents, p) && own[p] in table ==> rank(own[p] / 1000) < rank(p.pid / 1000))
  }

  lemma {:induction false} ClimbLowers(parents: map<int, int>, entries: set<int>, pid: int, n: nat, rank: int -> nat)
    requires Returns(parents, entries, pid, n)
    requires forall p :: Next(parents, p).Some? ==> rank(Next(parents, p).value) < rank(p)
    ensures var r := FindParentIdFor(parents, entries, pid, n); r != 0 ==> rank(r) < rank(pid)
    decreases n
  {
    match Next(parents, pid)
    case None =>
    case Some(ppid) =>
      if ppid !in entries {
        ClimbLowers(parents, entries, ppid, n - 1, rank);
      }
  }

  // A parent map without circles never leaves the climb going.
  lemma {:induction false} RankedEnds(parents: map<int, int>, entries: set<int>, pid: int, rank: int -> nat)
    requires forall p :: Next(parents, p).Some? ==> rank(Next(parents, p).value) < rank(p)
    ensures Returns(parents, entries, pid, rank(pid))
    decreases rank(pid)
  {
    match Next(parents, pid)
    case None =>
    case Some(ppid) =>
      RankedEnds(parents, entries, ppid, rank);
      ReturnsLonger(parents, entries, ppid, rank(ppid), rank(pid) - 1);
  }

  lemma {:induction false} ReturnsLonger(parents: map<int, int>, entries: set<int>, pid: int, m: nat, n: nat)
    requires Returns(parents, entries, pid, m) && m <= n
    ensures Returns(parents, entries, pid, n)
    decreases m
  {
    match Next(parents, pid)
    case None =>
    case Some(ppid) =>
      if ppid !in entries {
        ReturnsLonger(parents, entries, ppid, m - 1, n - 1);
      }
  }

  // A link leads to init or to a lower rank.
  lemma LinkLowers(ps: seq<Process>, table: map<int, Process>, parents: Option<map<int, int>>,
                   own: map<Process, int>, par: B.Links, rank: int -> nat, p: Process)
    requires AllEnd(ps, parents, Entries(table)) && Filed(ps, table, own)
    requires Stitched(ps, table, parents, own, par) && Acyclic(ps, table, parents, own, rank)
    requires p in ps && p.pid != 1 && par[p] != null
    ensures par[p] in ps && (par[p].pid != 1 ==> rank(par[p].pid / 1000) < rank(p.pid / 1000))
  {
    var key := Adopted(parents, Entries(table), p.pid, own[p]);
    assert key in table && par[p] == table[key];
    if parents.Some? {
      var n: nat :| Returns(parents.value, Entries(table), p.pid / 1000, n)
        && Climbed(parents.value, Entries(table), p.pid / 1000) == FindParentIdFor(parents.value, Entries(table), p.pid / 1000, n);
      ClimbLowers(parents.value, Entries(table), p.pid / 1000, n, rank);
    }
  }

  lemma {:induction false} AcyclicReachesRoot(ps: seq<Process>, table: map<int, Process>, parents: Option<map<int, int>>,
                             own: map<Process, int>, par: B.Links, rank: int -> nat, p: Process)
    requires AllEnd(ps, parents, Entries(table)) && Filed(ps, table, own)
    requires Stitched(ps, table, parents, own, par) && Acyclic(ps, table, parents, own, rank)
    requires p in ps
    ensures B.ReachesRoot(par, p)
    decreases p.pid != 1, rank(p.pid / 1000)
  {
    if p.pid == 1 || par[p] == null {
      assert B.Rooted(par, p, 0);
    } else {
      LinkLowers(ps, table, parents, own, par, rank, p);
      AcyclicReachesRoot(ps, table, parents, own, par, rank, par[p]);
      var n: nat :| B.Rooted(par, par[p], n);
      assert B.Rooted(par, p, n + 1);
    }
  }

  // Compiled and built from data without circles, the forest has every process exactly once.
  lemma EveryProcessIsPlaced(ps: seq<Process>, table: map<int, Process>, parents: Option<map<int, int>>,
                             own: map<Process, int>, par: B.Links, rank: int -> nat, f: Forest)
    requires AllEnd(ps, parents, Entries(table)) && Filed(ps, table, own)
    requires Stitched(ps, table, parents, own, par) && Acyclic(ps, table, parents, own, rank)
    requires B.Built(ps, par, f)
    ensures Distinct(f) && Objs(f) == set p | p in ps
  {
    forall p | p in ps ensures B.ReachesRoot(par, p) {
      AcyclicReachesRoot(ps, table, parents, own, par, rank, p);
    }
  }
}
