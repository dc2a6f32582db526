/**
 Readings, the lines that are written of them, and the steps to what Elision says.

 Full is the log with a line for every reading, Kept the one that is written, Dropped which readings are
 left out. Shown is what the last readable line of a process has said; it is the name and total of the
 current incarnation (ShownIsCurrent), so a line that repeats it changes nothing. A line that does not
 touches its process, at a time at which nothing in the written log does (KeptTouches, FullTouches),
 and that shows in the process map, since maps and incarnations determine each other
 (SameMapsSameIncarnations, SameIncarnationsSameMaps).
 */
module ElisionSteps {
  import opened Wrappers
  import opened TaskStats

  const U64: int := 0x1_0000_0000_0000_0000

  // One call of dump_taskstat: the kernel's totals for the process, and the parent known from
  // PROC_EVENTS (0 when there is none).
  datatype Reading = Reading(time: int, pid: nat, acPpid: nat, scanPpid: nat, comm: string,
                             cpu: nat, blkio: nat, swap: nat)

  datatype PidEntry = PidEntry(ppid: nat, total: nat)

  const ZERO: PidEntry := PidEntry(0, 0)

  // time_total, an unsigned 64-bit sum
  function Total(r: Reading): nat { (r.cpu + r.blkio + r.swap) % U64 }

  // %lld of an unsigned 64-bit number
  function Signed(n: nat): int {
    var m := n % U64;
    if m >= U64 / 2 then m - U64 else m
  }

  // The parser splits lines at blanks, so a blank in the name makes it skip the line.
  predicate Readable(r: Reading) { ' ' !in r.comm }

  function Line(r: Reading): Timed {
    Timed(r.time,
          if Readable(r)
          then Stat(r.pid, if r.scanPpid != 0 then r.scanPpid else r.acPpid, r.comm, Signed(r.cpu), Signed(r.blkio), Signed(r.swap))
          else Other)
  }

  function Init<T>(s: seq<T>): seq<T>
    requires s != []
  { s[..|s| - 1] }

  function Last<T>(s: seq<T>): T
    requires s != []
  { s[|s| - 1] }

  // The total and parent of the last reading of P; zero if there is none.
  function Entry(P: nat, rs: seq<Reading>): PidEntry {
    if rs == [] then ZERO
    else if Last(rs).pid == P then PidEntry(Last(rs).acPpid, Total(Last(rs)))
    else Entry(P, Init(rs))
  }

  predicate Dropped(rs: seq<Reading>, r: Reading) {
    Entry(r.pid, rs) == PidEntry(r.acPpid, Total(r))
  }

  // The log with a line for every reading, and the log as it is written.
  function Full(rs: seq<Reading>): seq<Timed> {
    if rs == [] then [] else Full(Init(rs)) + [Line(Last(rs))]
  }

  function Kept(rs: seq<Reading>): seq<Timed> {
    if rs == [] then []
    else Kept(Init(rs)) + if Dropped(Init(rs), Last(rs)) then [] else [Line(Last(rs))]
  }

  // ---- what a dropped line would have said ---------------------------------------

  // Name and total on the last readable line of P; init is known from the start.
  function Shown(P: nat, rs: seq<Reading>): Option<(string, int)> {
    if rs == [] then if P == 1 then Some((INIT_PROC.cmd, 0)) else None
    else if Last(rs).pid == P && Readable(Last(rs)) then Some((Name(Last(rs).comm), Total(Last(rs))))
    else Shown(P, Init(rs))
  }

  // The line says nothing that the last readable one did not say.
  predicate Harmless(rs: seq<Reading>, r: Reading) {
    Readable(r) ==> Shown(r.pid, rs) == Some((Name(r.comm), Total(r)))
  }

  predicate AllHarmless(rs: seq<Reading>) {
    rs == [] || (AllHarmless(Init(rs)) && (Dropped(Init(rs), Last(rs)) ==> Harmless(Init(rs), Last(rs))))
  }

  function Raw(r: Reading, c: Counter): nat {
    match c case Cpu => r.cpu case Blkio => r.blkio case Swap => r.swap
  }

  ghost predicate After(a: Reading, b: Reading) {
    a.time < b.time && a.cpu <= b.cpu && a.blkio <= b.blkio && a.swap <= b.swap
  }

  // Per process, time goes on and no counter falls; no total leaves the signed 64-bit range.
  ghost predicate Regular(rs: seq<Reading>) {
    && (forall i :: 0 <= i < |rs| ==> rs[i].cpu + rs[i].blkio + rs[i].swap < U64 / 2)
    && (forall i, j :: 0 <= i < j < |rs| && rs[i].pid == rs[j].pid ==> After(rs[i], rs[j]))
  }

  // The reading before r may be left out, and if it is of the same process, r is after it.
  lemma RegularWithout(rs: seq<Reading>, r: Reading)
    requires rs != [] && Regular(rs + [r])
    ensures Regular(Init(rs) + [r]) && (Last(rs).pid == r.pid ==> After(Last(rs), r))
    ensures Last(rs).cpu + Last(rs).blkio + Last(rs).swap < U64 / 2
  {
    var all, some, n := rs + [r], Init(rs) + [r], |rs| - 1;
    assert all[n] == Last(rs) && all[n + 1] == r;
    assert forall k :: 0 <= k < n ==> some[k] == all[k];
  }

  lemma {:induction false} ReportedBefore(P: nat, rs: seq<Reading>, r: Reading, c: Counter)
    requires Regular(rs + [r]) && r.pid == P
    ensures LastReported(P, Full(rs), c) <= Raw(r, c)
  {
    if rs != [] {
      RegularWithout(rs, r);
      assert Init(Full(rs)) == Full(Init(rs)) && Last(Full(rs)) == Line(Last(rs));
      if Last(rs).pid == P && Readable(Last(rs)) {
        InRange(Last(rs));
      } else {
        ReportedBefore(P, Init(rs), r, c);
      }
    }
  }

  lemma FullStep(P: int, rs: seq<Reading>)
    requires rs != []
    ensures Incs(P, Full(rs)) == Feeds(P, Incs(P, Full(Init(rs))), Line(Last(rs)))
  {
    assert Init(Full(rs)) == Full(Init(rs));
  }

  lemma KeptStep(P: int, rs: seq<Reading>)
    requires rs != []
    ensures var incs := Incs(P, Kept(Init(rs)));
      Incs(P, Kept(rs)) == if Dropped(Init(rs), Last(rs)) then incs else Feeds(P, incs, Line(Last(rs)))
  {
    if Dropped(Init(rs), Last(rs)) {
      assert Kept(rs) == Kept(Init(rs));
    } else {
      assert Init(Kept(rs)) == Kept(Init(rs));
    }
  }

  function Now(incs: seq<Proc>): Option<(string, int)> {
    if incs == [] then None else Some((Last(incs).cmd, Last(incs).cpu + Last(incs).blkio + Last(incs).swap))
  }

  // A line leaves its name and counters with the last incarnation, a new one if the name is new.
  lemma FeedsFacts(incs: seq<Proc>, t: Timed)
    requires t.row.Stat?
    ensures var incs' := Feeds(t.row.pid, incs, t);
      && incs' != [] && Last(incs').cmd == Name(t.row.comm)
      && Now(incs') == Some((Name(t.row.comm), t.row.cpu + t.row.blkio + t.row.swap))
      && |incs'| == |incs| + if incs != [] && Last(incs).cmd == Name(t.row.comm) then 0 else 1
  {
  }

  lemma InRange(r: Reading)
    requires r.cpu + r.blkio + r.swap < U64 / 2
    ensures Total(r) == r.cpu + r.blkio + r.swap
    ensures Signed(r.cpu) == r.cpu && Signed(r.blkio) == r.blkio && Signed(r.swap) == r.swap
  {
  }

  lemma RegularInit(rs: seq<Reading>)
    requires Regular(rs) && rs != []
    ensures Regular(Init(rs)) && Last(rs).cpu + Last(rs).blkio + Last(rs).swap < U64 / 2
  {
  }

  lemma {:induction false} ShownStep(P: nat, r: Reading, incs: seq<Proc>)
    requires r.cpu + r.blkio + r.swap < U64 / 2
    ensures Now(Feeds(P, incs, Line(r))) ==
      if r.pid == P && Readable(r) then Some((Name(r.comm), Total(r))) else Now(incs)
  {
    InRange(r);
    if r.pid == P && Readable(r) {
      FeedsFacts(incs, Line(r));
    }
  }

  // The current incarnation has the name and the total of the last readable line.
  lemma {:induction false} ShownIsCurrent(P: nat, rs: seq<Reading>)
    requires Regular(rs)
    ensures Shown(P, rs) == Now(Incs(P, Full(rs)))
  {
    if rs != [] {
      RegularInit(rs);
      ShownIsCurrent(P, Init(rs));
      FullStep(P, rs);
      ShownStep(P, Last(rs), Incs(P, Full(Init(rs))));
    }
  }

  lemma NothingFalls(rs: seq<Reading>, r: Reading)
    requires Regular(rs + [r])
    ensures forall c :: Current(Incs(r.pid, Full(rs)), c) <= Raw(r, c)
  {
    forall c ensures Current(Incs(r.pid, Full(rs)), c) <= Raw(r, c) {
      CurrentIsReported(r.pid, Full(rs), c);
      ReportedBefore(r.pid, rs, r, c);
    }
  }

  lemma {:induction false} NoOpStep(incs: seq<Proc>, r: Reading)
    requires r.cpu + r.blkio + r.swap < U64 / 2 && (r.pid == 1 ==> incs != [])
    requires forall c :: Current(incs, c) <= Raw(r, c)
    ensures var incs' := Feeds(r.pid, incs, Line(r));
      if Readable(r) ==> Now(incs) == Some((Name(r.comm), Total(r))) then incs' == incs
      else incs' != incs && Touched(r.pid, incs', r.time)
  {
    InRange(r);
    if Readable(r) {
      if incs == [] || Last(incs).cmd != Name(r.comm) {
        NewIsTouched(incs, Line(r));
      } else {
        assert Current(incs, Cpu) <= Raw(r, Cpu) && Current(incs, Blkio) <= Raw(r, Blkio) && Current(incs, Swap) <= Raw(r, Swap);
        FeedNoOpIff(incs, Line(r));
      }
    }
  }

  lemma NewIsTouched(incs: seq<Proc>, t: Timed)
    requires t.row.Stat? && (incs == [] || Last(incs).cmd != Name(t.row.comm))
    requires t.row.pid == 1 ==> incs != []
    ensures var incs' := Feeds(t.row.pid, incs, t);
      incs' != incs && Touched(t.row.pid, incs', t.time)
  {
    var incs' := Feeds(t.row.pid, incs, t);
    assert |incs'| == |incs| + 1;
    assert StartedAt(t.row.pid, incs', |incs|, t.time);
  }

  // Feeding a line of the same name to the last incarnation, when no counter falls.
  lemma FeedNoOpIff(incs: seq<Proc>, t: Timed)
    requires t.row.Stat? && incs != [] && Last(incs).cmd == Name(t.row.comm)
    requires Last(incs).cpu <= t.row.cpu && Last(incs).blkio <= t.row.blkio && Last(incs).swap <= t.row.swap
    ensures var (p, incs') := (Last(incs), Feeds(t.row.pid, incs, t));
      if p.cpu + p.blkio + p.swap == t.row.cpu + t.row.blkio + t.row.swap then incs' == incs
      else incs' != incs && Touched(t.row.pid, incs', t.time)
  {
    var p := Last(incs);
    var incs' := Feeds(t.row.pid, incs, t);
    assert incs' == incs[|incs| - 1 := Feed(p, t.time, t.row)];
    if p.cpu + p.blkio + p.swap == t.row.cpu + t.row.blkio + t.row.swap {
      assert Feed(p, t.time, t.row) == p;
    } else {
      assert |Last(incs').samples| == |p.samples| + 1;
      assert SampledAt(incs', |incs| - 1, |p.samples|, t.time);
    }
  }

  lemma {:induction false} BornFirst(P: int, rows: seq<Timed>)
    ensures P == 1 ==> Incs(P, rows) != []
  {
    if rows != [] {
      BornFirst(P, Init(rows));
    }
  }

  // ---- dropping any other line shows ------------------------------------------------

  ghost predicate StartedAt(P: int, incs: seq<Proc>, i: nat, time: int) {
    i < |incs| && (P == 1 ==> i > 0) && incs[i].start == time
  }

  ghost predicate SampledAt(incs: seq<Proc>, i: nat, k: nat, time: int) {
    i < |incs| && k < |incs[i].samples| && incs[i].samples[k].time == time
  }

  // Some incarnation starts or has a sample at this time; init's own start does not count.
  ghost predicate Touched(P: int, incs: seq<Proc>, time: int) {
    || (exists i: nat :: StartedAt(P, incs, i, time))
    || (exists i: nat, k: nat :: SampledAt(incs, i, k, time))
  }

  lemma TouchedStays(P: int, incs: seq<Proc>, t: Timed, time: int)
    requires Touched(P, incs, time)
    ensures Touched(P, Feeds(P, incs, t), time)
  {
    var incs' := Feeds(P, incs, t);
    if i: nat :| StartedAt(P, incs, i, time) {
      assert StartedAt(P, incs', i, time);
    } else {
      var i: nat, k: nat :| SampledAt(incs, i, k, time);
      assert SampledAt(incs', i, k, time);
    }
  }

  lemma TouchedIsNew(P: int, incs: seq<Proc>, t: Timed, time: int)
    requires P == 1 ==> incs != []
    requires Touched(P, Feeds(P, incs, t), time)
    ensures Touched(P, incs, time) || (t.row.Stat? && t.row.pid == P && t.time == time)
  {
    if t.row.Stat? && t.row.pid == P && t.time != time {
      var incs' := Feeds(P, incs, t);
      if i: nat :| StartedAt(P, incs', i, time) {
        StartIsOld(P, incs, t, i, time);
      } else {
        var i: nat, k: nat :| SampledAt(incs', i, k, time);
        SampleIsOld(P, incs, t, i, k, time);
      }
    }
  }

  lemma StartIsOld(P: int, incs: seq<Proc>, t: Timed, i: nat, time: int)
    requires (P == 1 ==> incs != []) && t.time != time && StartedAt(P, Feeds(P, incs, t), i, time)
    ensures StartedAt(P, incs, i, time)
  {
  }

  lemma SampleIsOld(P: int, incs: seq<Proc>, t: Timed, i: nat, k: nat, time: int)
    requires t.time != time && SampledAt(Feeds(P, incs, t), i, k, time)
    ensures SampledAt(incs, i, k, time)
  {
  }

  ghost predicate WrittenAt(P: nat, rs: seq<Reading>, i: nat, time: int) {
    i < |rs| && rs[i].pid == P && rs[i].time == time && !Dropped(rs[..i], rs[i])
  }

  lemma BornUntouched(P: int, time: int)
    ensures !Touched(P, Born(P), time)
  {
  }

  lemma StillWritten(P: nat, rs: seq<Reading>, i: nat, time: int)
    requires rs != [] && WrittenAt(P, Init(rs), i, time)
    ensures WrittenAt(P, rs, i, time)
  {
    assert Init(rs)[..i] == rs[..i];
  }

  lemma KeptTouchedNow(P: nat, rs: seq<Reading>, time: int)
    requires rs != [] && Touched(P, Incs(P, Kept(rs)), time)
    ensures WrittenAt(P, rs, |rs| - 1, time) || Touched(P, Incs(P, Kept(Init(rs))), time)
  {
    KeptStep(P, rs);
    if !Dropped(Init(rs), Last(rs)) {
      BornFirst(P, Kept(Init(rs)));
      TouchedIsNew(P, Incs(P, Kept(Init(rs))), Line(Last(rs)), time);
    }
  }

  // The written log touches P only at the times of its kept readings.
  lemma {:induction false} KeptTouches(P: nat, rs: seq<Reading>, time: int) returns (i: nat)
    requires Touched(P, Incs(P, Kept(rs)), time)
    ensures WrittenAt(P, rs, i, time)
  {
    if rs == [] {
      BornUntouched(P, time);
      assert false;
    } else {
      KeptTouchedNow(P, rs, time);
      if WrittenAt(P, rs, |rs| - 1, time) {
        i := |rs| - 1;
      } else {
        i := KeptTouches(P, Init(rs), time);
        StillWritten(P, rs, i, time);
      }
    }
  }

  lemma {:induction false} FullTouches(P: nat, rs: seq<Reading>, k: nat, time: int)
    requires k <= |rs| && Touched(P, Incs(P, Full(rs[..k])), time)
    ensures Touched(P, Incs(P, Full(rs)), time)
  {
    if k == |rs| {
      assert rs[..k] == rs;
    } else {
      assert Init(rs)[..k] == rs[..k];
      FullTouches(P, Init(rs), k, time);
      FullStep(P, rs);
      TouchedStays(P, Incs(P, Full(Init(rs))), Line(Last(rs)), time);
    }
  }

  lemma {:induction false} FirstHarm(rs: seq<Reading>) returns (k: nat)
    requires !AllHarmless(rs)
    ensures k < |rs| && Dropped(rs[..k], rs[k]) && !Harmless(rs[..k], rs[k])
  {
    if AllHarmless(Init(rs)) {
      k := |rs| - 1;
    } else {
      k := FirstHarm(Init(rs));
      assert Init(rs)[..k] == rs[..k];
    }
  }

  lemma SameTime(rs: seq<Reading>, i: nat, k: nat)
    requires Regular(rs) && i < |rs| && k < |rs| && rs[i].pid == rs[k].pid && rs[i].time == rs[k].time
    ensures i == k
  {
    assert i < k ==> After(rs[i], rs[k]);
    assert k < i ==> After(rs[k], rs[i]);
  }

  // ---- on the process map -----------------------------------------------------------

  ghost predicate SameEnd(a: seq<Proc>, b: seq<Proc>) {
    if a == [] || b == [] then a == b else Last(a).cmd == Last(b).cmd
  }

  // Leaving lines out never makes more incarnations.
  lemma {:induction false} FewerIncarnations(P: nat, rs: seq<Reading>)
    ensures var (k, f) := (|Incs(P, Kept(rs))|, |Incs(P, Full(rs))|);
      k <= f && (SameEnd(Incs(P, Kept(rs)), Incs(P, Full(rs))) || k < f)
  {
    if rs != [] {
      FewerIncarnations(P, Init(rs));
      FullStep(P, rs);
      if Line(Last(rs)).row.Stat? && Last(rs).pid == P {
        FeedsFacts(Incs(P, Full(Init(rs))), Line(Last(rs)));
        FeedsFacts(Incs(P, Kept(Init(rs))), Line(Last(rs)));
      }
      KeptStep(P, rs);
    }
  }

  ghost predicate Few(rows: seq<Timed>) {
    forall Q :: |Incs(Q, rows)| <= 1000
  }

  lemma {:induction false} SameMapsSameIncarnations(a: seq<Timed>, b: seq<Timed>, Q: int)
    requires Few(a) && Few(b) && Parse(a).procs == Parse(b).procs
    ensures Incs(Q, a) == Incs(Q, b)
  {
    forall i: nat | i < 1000
      ensures i < |Incs(Q, a)| <==> i < |Incs(Q, b)|
      ensures i < |Incs(Q, a)| ==> Incs(Q, a)[i] == Incs(Q, b)[i]
    {
      ParseIsAllIncarnations(a, Q, i);
      ParseIsAllIncarnations(b, Q, i);
    }
    var shorter := if |Incs(Q, a)| < |Incs(Q, b)| then |Incs(Q, a)| else |Incs(Q, b)|;
    if shorter < 1000 {
      ParseIsAllIncarnations(a, Q, shorter);
      ParseIsAllIncarnations(b, Q, shorter);
    }
  }

  lemma {:induction false} SameIncarnationsSameMaps(a: seq<Timed>, b: seq<Timed>)
    requires Few(a) && Few(b) && forall Q :: Incs(Q, a) == Incs(Q, b)
    ensures Parse(a).procs == Parse(b).procs
  {
    var (m, n) := (Parse(a).procs, Parse(b).procs);
    forall key ensures (key in m <==> key in n) && (key in m ==> m[key] == n[key]) {
      var Q, i := key / 1000, key % 1000;
      assert Key(Q, i) == key && Incs(Q, a) == Incs(Q, b);
      ParseIsAllIncarnations(a, Q, i);
      ParseIsAllIncarnations(b, Q, i);
    }
  }

  lemma {:induction false} NotNegative(P: int, rs: seq<Reading>)
    requires P < 0
    ensures Incs(P, Kept(rs)) == Incs(P, Full(rs)) == []
  {
    if rs != [] {
      NotNegative(P, Init(rs));
      FullStep(P, rs);
      KeptStep(P, rs);
    }
  }

  // The previous reading of a process.
  function Previous(P: nat, rs: seq<Reading>): Option<Reading> {
    if rs == [] then None else if Last(rs).pid == P then Some(Last(rs)) else Previous(P, Init(rs))
  }

  // No name has a blank, no process comes in with nothing to say, and none changes its name
  // between two lines that are otherwise the same.
  ghost predicate Plain(rs: seq<Reading>) {
    forall k :: 0 <= k < |rs| ==> Unsurprising(rs[..k], rs[k])
  }

  ghost predicate Unsurprising(rs: seq<Reading>, r: Reading) {
    && Readable(r)
    && match Previous(r.pid, rs)
       case None => r.acPpid != 0 || Total(r) != 0
       case Some(q) => r.acPpid == q.acPpid && Total(r) == Total(q) ==> Name(r.comm) == Name(q.comm)
  }

  lemma {:induction false} EntryIsPrevious(P: nat, rs: seq<Reading>)
    requires forall k :: 0 <= k < |rs| ==> Readable(rs[k])
    ensures var q := Previous(P, rs);
      if q.None? then Entry(P, rs) == ZERO
      else && q.value in rs && Entry(P, rs) == PidEntry(q.value.acPpid, Total(q.value))
           && Shown(P, rs) == Some((Name(q.value.comm), Total(q.value)))
  {
    if rs != [] {
      EntryIsPrevious(P, Init(rs));
    }
  }
}
