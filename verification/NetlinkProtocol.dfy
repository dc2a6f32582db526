/** Listener, main thread and event queue of tasks-netlink.c, one memory step at a time. */
module NetlinkProtocol {
  import opened PidTable

  // The kernel emits events in an order; the listener receives them in that order and queues each
  // under the lock; the main thread first scans /proc, pid by pid while processes come and go, and
  // from then on repeatedly takes the whole queue under the lock and replays it without the lock.

  datatype Lock = Free | ByListener | ByMain

  datatype Listener =
    | Listening
    | Waiting(ev: Event)    // has an event, wants the lock
    | Holding(ev: Event)    // has the lock
    | Grown(ev: Event)      // realloc done
    | Written(ev: Event)    // memcpy done
    | Counted               // buffer_size raised

  datatype Main =
    | Scanning              // the bootstrap
    | Resting               // between restarts
    | Asking                // restart begun, wants the lock
    | Inside                // has the lock
    | Taken(evs: seq<Event>, count: nat)             // queue copied
    | Cleared(evs: seq<Event>, count: nat)           // queue emptied
    | Replaying(evs: seq<Event>, count: nat, i: nat) // lock given back

  // emitted, received: what the kernel sent and how much of it the listener has taken from the
  // socket. queued: everything ever put into the queue. done: how much of it has been replayed.
  // cut: how much had been queued when the queue was last taken.
  // visited: how many events had been emitted when the scan came past a pid.
  datatype State = State(
    lock: Lock, listener: Listener, main: Main,
    buffer: seq<Event>, size: nat, table: seq<Entry>,
    emitted: seq<Event>, received: nat, queued: seq<Event>, done: nat, cut: nat,
    scanned: seq<Entry>, visited: map<int, nat>)

  datatype Step =
    | Emit(ev: Event)
    | Receive
    | ListenerLocks
    | Grow(junk: Event)
    | Write
    | Count
    | ListenerUnlocks
    | Visit(pid: int, threads: seq<int>)
    | ScanEnds
    | RestartBegins
    | MainLocks
    | Take
    | Clear
    | MainUnlocks
    | ReplayOne
    | RestartEnds

  // The processes alive after the given events, starting from those alive at subscription.
  function Alive(before: set<int>, evs: seq<Event>): set<int> {
    if evs == [] then before else AliveAfter(Alive(before, evs[..|evs| - 1]), evs[|evs| - 1])
  }

  predicate Enabled(st: State, step: Step) {
    match step
    case Emit(_) => true
    case Receive => st.listener.Listening? && st.received < |st.emitted|
    case ListenerLocks => st.listener.Waiting? && st.lock.Free?
    case Grow(_) => st.listener.Holding? && st.size <= |st.buffer|
    case Write => st.listener.Grown? && st.size < |st.buffer|
    case Count => st.listener.Written?
    case ListenerUnlocks => st.listener.Counted?
    case Visit(pid, _) => st.main.Scanning? && pid !in st.visited
    case ScanEnds => st.main.Scanning?
    case RestartBegins => st.main.Resting?
    case MainLocks => st.main.Asking? && st.lock.Free?
    case Take => st.main.Inside?
    case Clear => st.main.Taken?
    case MainUnlocks => st.main.Cleared?
    case ReplayOne => st.main.Replaying? && st.main.i < st.main.count && st.main.i < |st.main.evs|
    case RestartEnds => st.main.Replaying? && st.main.i == st.main.count
  }

  // insert_pid (nls, pid, 0), then every thread found
  function Listed(v: seq<Entry>, pid: int, threads: seq<int>): (r: seq<Entry>)
    requires Sorted(v)
    ensures Sorted(r) && ToMap(r).Keys == ToMap(v).Keys + {pid}
  {
    if threads == [] then
      ApplyFacts(v, Fork(0, pid, pid));
      Apply(v, Fork(0, pid, pid))
    else
      var r := Listed(v, pid, threads[..|threads| - 1]);
      InsertThreadFacts(r, pid, threads[|threads| - 1]);
      InsertPidThread(r, pid, threads[|threads| - 1])
  }

  lemma InsertThreadFacts(v: seq<Entry>, pid: int, thread: int)
    requires Sorted(v)
    ensures Sorted(InsertPidThread(v, pid, thread)) && ToMap(InsertPidThread(v, pid, thread)).Keys == ToMap(v).Keys + {pid}
  {
    EnsureFacts(v, pid);
    var e := Ensure(v, pid);
    UpdateFacts(e, Entries(e, pid).(threads := AddThread(Entries(e, pid).threads, thread)));
  }

  // live: the processes alive when the listener subscribed
  function Next(live: set<int>, st: State, step: Step): State
    requires Enabled(st, step) && Sorted(st.table)
  {
    match step
    case Emit(ev) => st.(emitted := st.emitted + [ev])
    case Receive => st.(listener := Waiting(st.emitted[st.received]), received := st.received + 1)
    case ListenerLocks => st.(listener := Holding(st.listener.ev), lock := ByListener)
    case Grow(junk) => st.(listener := Grown(st.listener.ev), buffer := st.buffer[..st.size] + [junk])
    case Write => st.(listener := Written(st.listener.ev), buffer := st.buffer[st.size := st.listener.ev])
    case Count => st.(listener := Counted, size := st.size + 1, queued := st.queued + [st.listener.ev])
    case ListenerUnlocks => st.(listener := Listening, lock := Free)
    case Visit(pid, threads) =>
      var st' := st.(visited := st.visited[pid := |st.emitted|]);
      if pid in Alive(live, st.emitted) then st'.(table := Listed(st.table, pid, threads)) else st'
    case ScanEnds => st.(main := Resting, scanned := st.table)
    case RestartBegins => st.(main := Asking)
    case MainLocks => st.(main := Inside, lock := ByMain)
    case Take => st.(main := Taken(st.buffer, st.size))
    case Clear => st.(main := Cleared(st.main.evs, st.main.count), buffer := [], size := 0, cut := |st.queued|)
    case MainUnlocks => st.(main := Replaying(st.main.evs, st.main.count, 0), lock := Free)
    case ReplayOne =>
      var m := st.main;
      st.(main := Replaying(m.evs, m.count, m.i + 1), table := Apply(st.table, m.evs[m.i]), done := st.done + 1)
    case RestartEnds => st.(main := Resting)
  }

  const INIT: State := State(Free, Listening, Scanning, [], 0, [], [], 0, [], 0, 0, [], map[])

  // ---- the invariant -------------------------------------------------------------

  predicate ListenerInside(l: Listener) { l.Holding? || l.Grown? || l.Written? || l.Counted? }

  predicate MainInside(m: Main) { m.Inside? || m.Taken? || m.Cleared? }

  // Taken out of the queue and not replayed yet.
  function InHand(m: Main): seq<Event> {
    match m
    case Cleared(evs, count) => if count <= |evs| then evs[..count] else []
    case Replaying(evs, count, i) => if i <= count <= |evs| then evs[i..count] else []
    case _ => []
  }

  // The lock is held by whoever is inside, so never by both.
  ghost predicate Excluded(st: State) {
    && (ListenerInside(st.listener) <==> st.lock == ByListener)
    && (MainInside(st.main) <==> st.lock == ByMain)
  }

  // What was queued is what was replayed, then what is in hand, then what is in the queue.
  ghost predicate Accounted(st: State) {
    && st.size <= |st.buffer| && st.done <= |st.queued|
    && st.queued[st.done..] == InHand(st.main) + st.buffer[..st.size]
    && st.done + |InHand(st.main)| == st.cut
    && (st.listener.Grown? ==> st.size < |st.buffer|)
    && (st.listener.Written? ==> st.size < |st.buffer| && st.buffer[st.size] == st.listener.ev)
    && (st.main.Taken? ==> st.main.count <= |st.main.evs| && st.main.evs[..st.main.count] == st.buffer[..st.size])
    && (st.main.Cleared? ==> st.main.count <= |st.main.evs| && st.size == 0)
    && (st.main.Replaying? ==> st.main.i <= st.main.count <= |st.main.evs|)
  }

  // The queue follows the kernel: received events, but for the one still in the listener's hands.
  ghost predicate InOrder(st: State) {
    && st.received <= |st.emitted|
    && st.queued + (if st.listener.Listening? || st.listener.Counted? then [] else [st.listener.ev]) == st.emitted[..st.received]
  }

  ghost predicate TableOk(live: set<int>, st: State) {
    && Sorted(st.table) && st.done <= |st.queued|
    && (st.main.Scanning? ==> st.done == 0 && FromScan(live, st.emitted, st.visited, st.table))
    && (!st.main.Scanning? ==>
      && Sorted(st.scanned) && st.table == Replay(st.scanned, st.queued[..st.done])
      && FromScan(live, st.emitted, st.visited, st.scanned))
  }

  // The scan lists a pid exactly if it was alive at the moment the scan came past it.
  ghost predicate FromScan(live: set<int>, emitted: seq<Event>, visited: map<int, nat>, v: seq<Entry>) {
    && (forall p :: p in visited ==> visited[p] <= |emitted|)
    && (forall p :: p in ToMap(v) <==> p in visited && p in Alive(live, emitted[..visited[p]]))
  }

  ghost predicate Inv(live: set<int>, st: State) {
    Excluded(st) && Accounted(st) && InOrder(st) && TableOk(live, st)
  }

  lemma KeepsExcluded(live: set<int>, st: State, step: Step)
    requires Inv(live, st) && Enabled(st, step)
    ensures Excluded(Next(live, st, step))
  {
  }

  lemma ListenerKeepsAccounted(live: set<int>, st: State, step: Step)
    requires Inv(live, st) && Enabled(st, step)
    requires step.Receive? || step.ListenerLocks? || step.Grow? || step.Write? || step.Count? || step.ListenerUnlocks?
    ensures Accounted(Next(live, st, step))
  {
    var st' := Next(live, st, step);
    if step.Count? {
      assert st'.buffer[..st'.size] == st.buffer[..st.size] + [st.listener.ev];
      assert st'.queued[st'.done..] == st.queued[st.done..] + [st.listener.ev];
    } else {
      assert st'.buffer[..st'.size] == st.buffer[..st.size];
    }
  }

  lemma ReplayKeepsAccounted(live: set<int>, st: State)
    requires Inv(live, st) && Enabled(st, ReplayOne)
    ensures Accounted(Next(live, st, ReplayOne))
  {
    var m := st.main;
    assert InHand(m) == m.evs[m.i..m.count];
    BothAdvance(st.queued, st.done, m.evs, m.i, m.count, st.buffer[..st.size]);
  }

  lemma BothAdvance(queued: seq<Event>, done: nat, evs: seq<Event>, i: nat, count: nat, rest: seq<Event>)
    requires done <= |queued| && i < count <= |evs| && queued[done..] == evs[i..count] + rest
    ensures done < |queued| && queued[done + 1..] == evs[i + 1..count] + rest
  {
    assert evs[i..count] == [evs[i]] + evs[i + 1..count];
    assert queued[done + 1..] == queued[done..][1..];
  }

  lemma MainKeepsAccounted(live: set<int>, st: State, step: Step)
    requires Inv(live, st) && Enabled(st, step)
    requires step.RestartBegins? || step.MainLocks? || step.Take? || step.Clear? || step.MainUnlocks? || step.RestartEnds?
    ensures Accounted(Next(live, st, step))
  {
    var st' := Next(live, st, step);
    assert InHand(st'.main) + st'.buffer[..st'.size] == InHand(st.main) + st.buffer[..st.size];
  }

  lemma KeepsInOrder(live: set<int>, st: State, step: Step)
    requires Inv(live, st) && Enabled(st, step)
    ensures InOrder(Next(live, st, step))
  {
    if step.Receive? {
      assert st.emitted[..st.received + 1] == st.emitted[..st.received] + [st.emitted[st.received]];
    }
  }

  lemma FromScanLater(live: set<int>, emitted: seq<Event>, ev: Event, visited: map<int, nat>, v: seq<Entry>)
    requires FromScan(live, emitted, visited, v)
    ensures FromScan(live, emitted + [ev], visited, v)
  {
    forall p | p in visited ensures (emitted + [ev])[..visited[p]] == emitted[..visited[p]] {
    }
  }

  lemma VisitKeepsScan(live: set<int>, st: State, pid: int, threads: seq<int>)
    requires Inv(live, st) && Enabled(st, Visit(pid, threads))
    ensures var st' := Next(live, st, Visit(pid, threads));
      Sorted(st'.table) && FromScan(live, st'.emitted, st'.visited, st'.table)
  {
    assert st.emitted[..|st.emitted|] == st.emitted;
  }

  lemma {:induction false} ReplayKeepsTable(live: set<int>, st: State)
    requires Inv(live, st) && Enabled(st, ReplayOne)
    ensures TableOk(live, Next(live, st, ReplayOne))
  {
    var m := st.main;
    assert st.queued[st.done] == st.queued[st.done..][0] == m.evs[m.i];
    ReplayNext(st.scanned, st.queued, st.done);
    ApplyFacts(st.table, m.evs[m.i]);
  }

  lemma EmitKeepsTable(live: set<int>, st: State, ev: Event)
    requires Inv(live, st) && Enabled(st, Emit(ev))
    ensures TableOk(live, Next(live, st, Emit(ev)))
  {
    FromScanLater(live, st.emitted, ev, st.visited, if st.main.Scanning? then st.table else st.scanned);
  }

  lemma KeepsTable(live: set<int>, st: State, step: Step)
    requires Inv(live, st) && Enabled(st, step)
    ensures TableOk(live, Next(live, st, step))
  {
    var st' := Next(live, st, step);
    match step
    case Emit(ev) => EmitKeepsTable(live, st, ev);
    case Visit(pid, threads) => VisitKeepsScan(live, st, pid, threads);
    case ReplayOne => ReplayKeepsTable(live, st);
    case Count => assert st'.queued[..st'.done] == st.queued[..st.done];
    case _ =>
  }

  lemma {:induction false} StepKeepsInv(live: set<int>, st: State, step: Step)
    requires Inv(live, st) && Enabled(st, step)
    ensures Inv(live, Next(live, st, step))
  {
    KeepsExcluded(live, st, step);
    match step {
      case Emit(_) =>
      case Visit(_, _) =>
      case ScanEnds =>
      case ReplayOne => ReplayKeepsAccounted(live, st);
      case RestartBegins | MainLocks | Take | Clear | MainUnlocks | RestartEnds => MainKeepsAccounted(live, st, step);
      case Receive | ListenerLocks | Grow(_) | Write | Count | ListenerUnlocks => ListenerKeepsAccounted(live, st, step);
    }
    KeepsInOrder(live, st, step);
    KeepsTable(live, st, step);
  }

  // ---- runs ----------------------------------------------------------------------

  // The steps, in this order, lead from st to st'.
  ghost predicate Runs(live: set<int>, st: State, steps: seq<Step>, st': State)
    decreases |steps|
  {
    if steps == [] then st' == st
    else Sorted(st.table) && Enabled(st, steps[0]) && Runs(live, Next(live, st, steps[0]), steps[1..], st')
  }

  lemma {:induction false} RunKeepsInv(live: set<int>, st: State, steps: seq<Step>, st': State)
    requires Inv(live, st) && Runs(live, st, steps, st')
    ensures Inv(live, st')
    decreases |steps|
  {
    if steps != [] {
      StepKeepsInv(live, st, steps[0]);
      RunKeepsInv(live, Next(live, st, steps[0]), steps[1..], st');
    }
  }

  // After a restart the table is the scan with exactly the events queued before the queue was
  // taken applied to it, in the order in which the kernel sent them; all later ones are waiting.
  lemma RestartIsAReplay(live: set<int>, steps: seq<Step>, st: State)
    requires Runs(live, INIT, steps, st) && st.main.Resting?
    ensures Sorted(st.scanned) && st.cut <= |st.queued| <= |st.emitted| && st.size <= |st.buffer|
    ensures st.table == Replay(st.scanned, st.emitted[..st.cut])
    ensures st.queued == st.emitted[..|st.queued|] && st.buffer[..st.size] == st.emitted[st.cut..|st.queued|]
  {
    RunKeepsInv(live, INIT, steps, st);
    assert st.queued == st.emitted[..|st.queued|] by {
      assert st.emitted[..st.received][..|st.queued|] == st.emitted[..|st.queued|];
    }
    assert st.queued[..st.cut] == st.emitted[..st.cut];
  }

  // The two threads are never both inside.
  lemma MutualExclusion(live: set<int>, steps: seq<Step>, st: State)
    requires Runs(live, INIT, steps, st)
    ensures !(ListenerInside(st.listener) && MainInside(st.main))
  {
    RunKeepsInv(live, INIT, steps, st);
  }

  // ---- convergence of the scan ---------------------------------------------------

  // Whether the last event about p left it alive.
  datatype Verdict = Silent | Says(alive: bool)

  function Last(evs: seq<Event>, p: int): Verdict {
    if evs == [] then Silent
    else
      match evs[|evs| - 1]
      case Fork(_, _, tgid) => if tgid == p then Says(true) else Last(evs[..|evs| - 1], p)
      case Exit(pid, tgid) => if pid == tgid == p then Says(false) else Last(evs[..|evs| - 1], p)
  }

  lemma {:induction false} AliveByLast(before: set<int>, evs: seq<Event>, p: int)
    ensures p in Alive(before, evs) <==> if Last(evs, p).Says? then Last(evs, p).alive else p in before
  {
    if evs != [] {
      AliveByLast(before, evs[..|evs| - 1], p);
    }
  }

  lemma {:induction false} SilentBefore(evs: seq<Event>, k: nat, p: int)
    requires k <= |evs| && Last(evs, p).Silent?
    ensures Last(evs[..k], p).Silent?
  {
    if k < |evs| {
      SilentBefore(evs[..|evs| - 1], k, p);
      assert evs[..|evs| - 1][..k] == evs[..k];
    } else {
      assert evs[..k] == evs;
    }
  }

  lemma {:induction false} ReplayKeys(v: seq<Entry>, evs: seq<Event>)
    requires Sorted(v)
    ensures ToMap(Replay(v, evs)).Keys == Alive(ToMap(v).Keys, evs)
  {
    if evs != [] {
      var init := evs[..|evs| - 1];
      ReplayKeys(v, init);
      ApplyFacts(Replay(v, init), evs[|evs| - 1]);
    }
  }

  // A pid listed by its state at any one moment is right once all events up to that moment have
  // been replayed: after every restart that has got that far the table tells exactly whether it
  // is alive. (For a pid that the scan never came past it is enough that it was not alive at
  // subscription.)
  lemma ScanConverges(live: set<int>, steps: seq<Step>, st: State, p: int)
    requires Runs(live, INIT, steps, st) && st.main.Resting?
    requires if p in st.visited then st.visited[p] <= st.cut else p !in live
    ensures st.cut <= |st.emitted|
    ensures p in ToMap(st.table) <==> p in Alive(live, st.emitted[..st.cut])
  {
    RunKeepsInv(live, INIT, steps, st);
    RestartIsAReplay(live, steps, st);
    var evs := st.emitted[..st.cut];
    ReplayKeys(st.scanned, evs);
    AliveByLast(live, evs, p);
    AliveByLast(ToMap(st.scanned).Keys, evs, p);
    if p in st.visited && Last(evs, p).Silent? {
      SilentBefore(evs, st.visited[p], p);
      assert evs[..st.visited[p]] == st.emitted[..st.visited[p]];
      AliveByLast(live, st.emitted[..st.visited[p]], p);
    }
  }

  lemma RunsCons(live: set<int>, st: State, step: Step, rest: seq<Step>, st': State)
    requires Sorted(st.table) && Enabled(st, step) && Runs(live, Next(live, st, step), rest, st')
    ensures Runs(live, st, [step] + rest, st')
  {
    assert ([step] + rest)[1..] == rest;
  }

  lemma NeverBoth(k: nat)
    requires k <= 2
    ensures Alive({1}, [Exit(1, 1), Fork(1, 2, 2)][..k]) != {1, 2}
  {
    var evs := [Exit(1, 1), Fork(1, 2, 2)];
    assert evs[..0] == [] && evs[..1] == [evs[0]] && evs[..2] == evs && [evs[0]][..0] == [];
    assert Alive({1}, []) == {1} && Alive({1}, [evs[0]]) == {} && Alive({1}, evs) == {2};
  }

  lemma FourSteps(live: set<int>, st: State, a: Step, b: Step, c: Step, d: Step) returns (steps: seq<Step>)
    requires Sorted(st.table) && Enabled(st, a) && Sorted(Next(live, st, a).table) && Enabled(Next(live, st, a), b)
    requires var st2 := Next(live, Next(live, st, a), b); Sorted(st2.table) && Enabled(st2, c) && Sorted(Next(live, st2, c).table)
    requires Enabled(Next(live, Next(live, Next(live, st, a), b), c), d)
    ensures Runs(live, st, steps, Next(live, Next(live, Next(live, Next(live, st, a), b), c), d))
  {
    var st1 := Next(live, st, a);
    var st2 := Next(live, st1, b);
    var st3 := Next(live, st2, c);
    var st4 := Next(live, st3, d);
    RunsCons(live, st3, d, [], st4);
    RunsCons(live, st2, c, [d] + [], st4);
    RunsCons(live, st1, b, [c] + ([d] + []), st4);
    RunsCons(live, st, a, [b] + ([c] + ([d] + [])), st4);
    steps := [a] + ([b] + ([c] + ([d] + [])));
  }

  // The scan itself need not match any moment: 1 was seen before it exited, 2 after it was forked.
  lemma ScanMatchesNoMoment() returns (steps: seq<Step>, st: State)
    ensures Runs({1}, INIT, steps, st) && ToMap(st.table).Keys == {1, 2}
    ensures forall k :: 0 <= k <= |st.emitted| ==> Alive({1}, st.emitted[..k]) != {1, 2}
  {
    var (exit, fork) := (Exit(1, 1), Fork(1, 2, 2));
    var st1 := AfterVisit();
    var st2 := Next({1}, st1, Emit(exit));
    var st3 := Next({1}, st2, Emit(fork));
    assert st3.emitted == [exit, fork];
    NeverBothEver();
    st := Next({1}, st3, Visit(2, []));
    assert st.table == Listed(st1.table, 2, []);
    steps := FourSteps({1}, INIT, Visit(1, []), Emit(exit), Emit(fork), Visit(2, []));
  }

  lemma AfterVisit() returns (st: State)
    ensures Enabled(INIT, Visit(1, [])) && st == Next({1}, INIT, Visit(1, [])) && Sorted(INIT.table)
    ensures st.main.Scanning? && st.emitted == [] && 2 !in st.visited && ToMap(st.table).Keys == {1} && Sorted(st.table)
  {
    st := Next({1}, INIT, Visit(1, []));
    assert st.table == Listed([], 1, []);
  }

  lemma NeverBothEver()
    ensures var evs := [Exit(1, 1), Fork(1, 2, 2)];
      Alive({1}, evs) == {2} && forall k :: 0 <= k <= |evs| ==> Alive({1}, evs[..k]) != {1, 2}
  {
    var evs := [Exit(1, 1), Fork(1, 2, 2)];
    NeverBoth(0);
    NeverBoth(1);
    NeverBoth(2);
    assert evs[..1] == [evs[0]] && [evs[0]][..0] == [];
    assert Alive({1}, []) == {1} && Alive({1}, [evs[0]]) == {} && Alive({1}, evs) == {2};
  }
}
