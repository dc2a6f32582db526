/** The process table of tasks-netlink.c, as sorted entries and as a map. */
module PidTable {
  // The code has pointers to process records in one growing array, kept in increasing pid order by
  // shifting. It is specified as a sorted sequence of entries, and that sequence as a map from pid to
  // the rest of its entry.

  datatype Entry = Entry(pid: int, parent: int, threads: seq<int>)

  datatype Info = Info(parent: int, threads: seq<int>)

  ghost predicate Sorted(v: seq<Entry>) {
    forall i, j :: 0 <= i < j < |v| ==> v[i].pid < v[j].pid
  }

  function ToMap(v: seq<Entry>): map<int, Info> {
    if v == [] then map[] else ToMap(v[1..])[v[0].pid := Info(v[0].parent, v[0].threads)]
  }

  // find_pid_an_idx with create set: an entry for pid, a blank one where there was none
  function Ensure(v: seq<Entry>, pid: int): seq<Entry> {
    if v == [] || v[0].pid > pid then [Entry(pid, 0, [])] + v
    else if v[0].pid == pid then v
    else [v[0]] + Ensure(v[1..], pid)
  }

  function Update(v: seq<Entry>, e: Entry): seq<Entry> {
    if v == [] then [] else if v[0].pid == e.pid then [e] + v[1..] else [v[0]] + Update(v[1..], e)
  }

  function Delete(v: seq<Entry>, pid: int): seq<Entry> {
    if v == [] then [] else if v[0].pid == pid then v[1..] else [v[0]] + Delete(v[1..], pid)
  }

  // ---- the sequence as a map -----------------------------------------------------

  lemma {:induction false} KeysAt(v: seq<Entry>, pid: int)
    requires Sorted(v)
    ensures pid in ToMap(v) <==> exists i :: 0 <= i < |v| && v[i].pid == pid
    ensures forall i :: 0 <= i < |v| && v[i].pid == pid ==> ToMap(v)[pid] == Info(v[i].parent, v[i].threads)
  {
    if v != [] {
      KeysAt(v[1..], pid);
      assert forall i :: 1 <= i < |v| ==> v[i] == v[1..][i - 1];
      if pid in ToMap(v[1..]) {
        var i :| 0 <= i < |v[1..]| && v[1..][i].pid == pid;
        assert v[i + 1].pid == pid;
      }
    }
  }

  lemma ConsSorted(e: Entry, v: seq<Entry>)
    ensures Sorted([e] + v) <==> Sorted(v) && (v != [] ==> e.pid < v[0].pid)
    ensures ToMap([e] + v) == ToMap(v)[e.pid := Info(e.parent, e.threads)]
  {
    var c := [e] + v;
    assert c[1..] == v;
    assert forall i :: 0 <= i < |v| ==> c[i + 1] == v[i];
    if Sorted(c) {
      forall i, j | 0 <= i < j < |v| ensures v[i].pid < v[j].pid {
        assert c[i + 1].pid < c[j + 1].pid;
      }
      assert v != [] ==> c[0].pid < c[1].pid;
    }
  }

  lemma EnsureFacts(v: seq<Entry>, pid: int)
    requires Sorted(v)
    ensures Sorted(Ensure(v, pid))
    ensures Ensure(v, pid)[0].pid == if v == [] || pid < v[0].pid then pid else v[0].pid
    ensures ToMap(Ensure(v, pid)) == if pid in ToMap(v) then ToMap(v) else ToMap(v)[pid := Info(0, [])]
  {
    EnsureSorted(v, pid);
    EnsureMap(v, pid);
  }

  lemma {:induction false} EnsureSorted(v: seq<Entry>, pid: int)
    requires Sorted(v)
    ensures Sorted(Ensure(v, pid))
    ensures Ensure(v, pid)[0].pid == if v == [] || pid < v[0].pid then pid else v[0].pid
  {
    if v == [] || v[0].pid > pid {
      ConsSorted(Entry(pid, 0, []), v);
    } else if v[0].pid < pid {
      EnsureSorted(v[1..], pid);
      ConsSorted(v[0], Ensure(v[1..], pid));
    }
  }

  lemma {:induction false} EnsureMap(v: seq<Entry>, pid: int)
    requires Sorted(v)
    ensures ToMap(Ensure(v, pid)) == if pid in ToMap(v) then ToMap(v) else ToMap(v)[pid := Info(0, [])]
  {
    if v == [] || v[0].pid > pid {
      KeysAt(v, pid);
      ConsSorted(Entry(pid, 0, []), v);
    } else if v[0].pid < pid {
      EnsureMap(v[1..], pid);
      ConsSorted(v[0], Ensure(v[1..], pid));
    }
  }

  lemma {:induction false} UpdateFacts(v: seq<Entry>, e: Entry)
    requires Sorted(v) && e.pid in ToMap(v)
    ensures Sorted(Update(v, e)) && |Update(v, e)| == |v| && Update(v, e)[0].pid == v[0].pid
    ensures ToMap(Update(v, e)) == ToMap(v)[e.pid := Info(e.parent, e.threads)]
  {
    assert v == [v[0]] + v[1..];
    ConsSorted(v[0], v[1..]);
    if v[0].pid == e.pid {
      ConsSorted(e, v[1..]);
    } else {
      UpdateFacts(v[1..], e);
      ConsSorted(v[0], Update(v[1..], e));
    }
  }

  lemma {:induction false} DeleteFacts(v: seq<Entry>, pid: int)
    requires Sorted(v)
    ensures Sorted(Delete(v, pid))
    ensures v != [] && Delete(v, pid) != [] ==> v[0].pid <= Delete(v, pid)[0].pid
    ensures ToMap(Delete(v, pid)) == ToMap(v) - {pid}
  {
    if v != [] {
      KeysAt(v[1..], v[0].pid);
      if v[0].pid != pid {
        DeleteFacts(v[1..], pid);
        ConsSorted(v[0], Delete(v[1..], pid));
      }
    }
  }

  // ---- the sequence as an array --------------------------------------------------

  lemma {:induction false} EnsureAt(v: seq<Entry>, pid: int, k: nat)
    requires k <= |v| && (forall i :: 0 <= i < k ==> v[i].pid < pid) && (k < |v| ==> v[k].pid > pid)
    ensures Ensure(v, pid) == v[..k] + [Entry(pid, 0, [])] + v[k..]
  {
    if k > 0 {
      EnsureAt(v[1..], pid, k - 1);
      assert v[..k] == [v[0]] + v[1..][..k - 1] && v[1..][k - 1..] == v[k..];
    }
  }

  lemma {:induction false} EnsurePresent(v: seq<Entry>, pid: int, k: nat)
    requires Sorted(v) && k < |v| && v[k].pid == pid
    ensures Ensure(v, pid) == v
  {
    if k > 0 {
      EnsurePresent(v[1..], pid, k - 1);
    }
  }

  lemma {:induction false} UpdateAt(v: seq<Entry>, e: Entry, k: nat)
    requires Sorted(v) && k < |v| && v[k].pid == e.pid
    ensures Update(v, e) == v[k := e]
  {
    if k > 0 {
      UpdateAt(v[1..], e, k - 1);
    }
  }

  lemma {:induction false} DeleteAt(v: seq<Entry>, pid: int, k: nat)
    requires Sorted(v) && k < |v| && v[k].pid == pid
    ensures Delete(v, pid) == v[..k] + v[k + 1..]
  {
    if k > 0 {
      DeleteAt(v[1..], pid, k - 1);
      assert v[..k] == [v[0]] + v[1..][..k - 1] && v[1..][k..] == v[k + 1..];
    }
  }

  lemma {:induction false} DeleteAbsent(v: seq<Entry>, pid: int)
    requires forall i :: 0 <= i < |v| ==> v[i].pid != pid
    ensures Delete(v, pid) == v
  {
    if v != [] {
      DeleteAbsent(v[1..], pid);
    }
  }

  // ---- events --------------------------------------------------------------------

  // PROC_EVENT_FORK and PROC_EVENT_EXIT as queued by handle_news
  datatype Event =
    | Fork(parentTgid: int, childPid: int, childTgid: int)
    | Exit(pid: int, tgid: int)

  // The entry of a pid known to be there.
  function Entries(v: seq<Entry>, pid: int): Entry
    requires pid in ToMap(v)
  {
    Entry(pid, ToMap(v)[pid].parent, ToMap(v)[pid].threads)
  }

  function InsertPid(v: seq<Entry>, pid: int, parent: int): seq<Entry>
    requires Sorted(v)
  {
    EnsureFacts(v, pid);
    var e := Ensure(v, pid);
    Update(e, Entries(e, pid).(parent := parent))
  }

  // A thread id of 0 ends the list in memory and so changes nothing.
  function AddThread(threads: seq<int>, thread: int): seq<int> {
    if thread == 0 || thread in threads then threads else threads + [thread]
  }

  function InsertPidThread(v: seq<Entry>, pid: int, thread: int): seq<Entry>
    requires Sorted(v)
  {
    EnsureFacts(v, pid);
    var e := Ensure(v, pid);
    Update(e, Entries(e, pid).(threads := AddThread(Entries(e, pid).threads, thread)))
  }

  // remove_pid_thread's loop on the list and its closing 0, and what can be read of the list
  // afterwards. The index j is meant to keep ahead of i by the number of matches; it moves on
  // nothing else.
  function Squeeze(t: seq<int>, i: nat, j: nat, thread: int): seq<int>
    requires i < |t| && j < |t| && t[|t| - 1] == 0
    decreases |t| - i
  {
    if t[i] == 0 || t[j] == 0 then t[..i]
    else
      var j' := if t[i] == thread then j + 1 else j;
      var t' := t[i := t[j']];
      if t[j'] == 0 then t[..i] else Squeeze(t', i + 1, j', thread)
  }

  function DropThread(threads: seq<int>, thread: int): seq<int> {
    Squeeze(threads + [0], 0, 0, thread)
  }

  function RemovePidThread(v: seq<Entry>, pid: int, thread: int): seq<Entry> {
    if pid in ToMap(v) then Update(v, Entries(v, pid).(threads := DropThread(Entries(v, pid).threads, thread))) else v
  }

  // One queued event, as netlink_pid_scanner_restart replays it.
  function Apply(v: seq<Entry>, ev: Event): seq<Entry>
    requires Sorted(v)
  {
    match ev
    case Fork(parent, pid, tgid) =>
      if pid == tgid then InsertPid(v, tgid, parent) else InsertPidThread(v, tgid, pid)
    case Exit(pid, tgid) =>
      if pid == tgid then Delete(v, pid) else RemovePidThread(v, tgid, pid)
  }

  // The processes alive after an event. A new thread shows that its process is alive; a process
  // is gone once its leader, the thread with the pid of the process, has exited.
  function AliveAfter(alive: set<int>, ev: Event): set<int> {
    match ev
    case Fork(_, _, tgid) => alive + {tgid}
    case Exit(pid, tgid) => if pid == tgid then alive - {pid} else alive
  }

  lemma ApplyFacts(v: seq<Entry>, ev: Event)
    requires Sorted(v)
    ensures Sorted(Apply(v, ev))
    ensures ToMap(Apply(v, ev)).Keys == AliveAfter(ToMap(v).Keys, ev)
  {
    match ev
    case Fork(parent, pid, tgid) =>
      EnsureFacts(v, tgid);
      var e := Ensure(v, tgid);
      UpdateFacts(e, Entries(e, tgid).(parent := parent));
      UpdateFacts(e, Entries(e, tgid).(threads := AddThread(Entries(e, tgid).threads, pid)));
    case Exit(pid, tgid) =>
      DeleteFacts(v, pid);
      if tgid in ToMap(v) {
        UpdateFacts(v, Entries(v, tgid).(threads := DropThread(Entries(v, tgid).threads, pid)));
      }
  }

  // The same three updates, given where the entry is.
  lemma UpdatesAt(v: seq<Entry>, pid: int, k: nat, parent: int, thread: int)
    requires Sorted(v) && k < |Ensure(v, pid)| && Ensure(v, pid)[k].pid == pid
    ensures var e := Ensure(v, pid);
      && InsertPid(v, pid, parent) == e[k := e[k].(parent := parent)]
      && InsertPidThread(v, pid, thread) == e[k := e[k].(threads := AddThread(e[k].threads, thread))]
  {
    EnsureFacts(v, pid);
    var e := Ensure(v, pid);
    KeysAt(e, pid);
    UpdateAt(e, e[k].(parent := parent), k);
    UpdateAt(e, e[k].(threads := AddThread(e[k].threads, thread)), k);
  }

  lemma RemoveThreadAt(v: seq<Entry>, pid: int, k: nat, thread: int)
    requires Sorted(v) && k < |v| && v[k].pid == pid
    ensures RemovePidThread(v, pid, thread) == v[k := v[k].(threads := DropThread(v[k].threads, thread))]
  {
    KeysAt(v, pid);
    UpdateAt(v, v[k].(threads := DropThread(v[k].threads, thread)), k);
  }

  // What a fork and an exit of a process do to the table read as a map.
  lemma ForkInMap(v: seq<Entry>, pid: int, parent: int)
    requires Sorted(v)
    ensures var m := ToMap(v);
      ToMap(Apply(v, Fork(parent, pid, pid))) == m[pid := Info(parent, if pid in m then m[pid].threads else [])]
  {
    EnsureFacts(v, pid);
    var e := Ensure(v, pid);
    UpdateFacts(e, Entries(e, pid).(parent := parent));
    ParentSet(ToMap(v), ToMap(e), pid, parent);
  }

  lemma ParentSet(m: map<int, Info>, e: map<int, Info>, pid: int, parent: int)
    requires e == if pid in m then m else m[pid := Info(0, [])]
    ensures e[pid := Info(parent, e[pid].threads)] == m[pid := Info(parent, if pid in m then m[pid].threads else [])]
  {
  }

  lemma ExitInMap(v: seq<Entry>, pid: int)
    requires Sorted(v)
    ensures ToMap(Apply(v, Exit(pid, pid))) == ToMap(v) - {pid}
  {
    DeleteFacts(v, pid);
  }

  function Replay(v: seq<Entry>, evs: seq<Event>): (r: seq<Entry>)
    requires Sorted(v)
    ensures Sorted(r)
  {
    if evs == [] then v
    else
      var r := Replay(v, evs[..|evs| - 1]);
      ApplyFacts(r, evs[|evs| - 1]);
      Apply(r, evs[|evs| - 1])
  }

  lemma ReplayNext(v: seq<Entry>, evs: seq<Event>, i: nat)
    requires Sorted(v) && i < |evs|
    ensures Replay(v, evs[..i + 1]) == Apply(Replay(v, evs[..i]), evs[i])
  {
    assert evs[..i + 1][..i] == evs[..i];
  }

  // ---- scanning ------------------------------------------------------------------

  function Pids(v: seq<Entry>): seq<int> {
    seq(|v|, i requires 0 <= i < |v| => v[i].pid)
  }

  // What a caller sees that stops at the first 0.
  function UpToZero(pids: seq<int>): seq<int> {
    if pids == [] || pids[0] == 0 then [] else [pids[0]] + UpToZero(pids[1..])
  }

  lemma {:induction false} NoZeroNoCut(pids: seq<int>)
    requires 0 !in pids
    ensures UpToZero(pids) == pids
  {
    if pids != [] {
      NoZeroNoCut(pids[1..]);
    }
  }

  // A scan names every process of the table once, in increasing order.
  lemma ScanIsComplete(v: seq<Entry>)
    requires Sorted(v) && 0 !in ToMap(v)
    ensures var r := UpToZero(Pids(v));
      && (forall p :: p in r <==> p in ToMap(v))
      && (forall i, j :: 0 <= i < j < |r| ==> r[i] < r[j])
  {
    forall p ensures p in Pids(v) <==> p in ToMap(v) {
      KeysAt(v, p);
      if p in ToMap(v) {
        var i :| 0 <= i < |v| && v[i].pid == p;
        assert Pids(v)[i] == p;
      }
    }
    NoZeroNoCut(Pids(v));
  }

  // ---- remove_pid_thread ---------------------------------------------------------

  function Without(threads: seq<int>, thread: int): seq<int> {
    if threads == [] then []
    else (if threads[0] == thread then [] else [threads[0]]) + Without(threads[1..], thread)
  }

  ghost predicate ThreadList(threads: seq<int>) {
    && (forall i :: 0 <= i < |threads| ==> threads[i] != 0)
    && (forall i, j :: 0 <= i < j < |threads| ==> threads[i] != threads[j])
  }

  lemma {:induction false} SqueezeKeepsPrefix(t: seq<int>, i: nat, j: nat, thread: int)
    requires i < |t| && j < |t| && t[|t| - 1] == 0
    ensures i <= |Squeeze(t, i, j, thread)| && Squeeze(t, i, j, thread)[..i] == t[..i]
    decreases |t| - i
  {
    if t[i] != 0 && t[j] != 0 {
      var j' := if t[i] == thread then j + 1 else j;
      if t[j'] != 0 {
        var t' := t[i := t[j']];
        SqueezeKeepsPrefix(t', i + 1, j', thread);
        assert Squeeze(t', i + 1, j', thread)[..i] == t'[..i + 1][..i];
      }
    }
  }

  lemma {:induction false} SqueezeKeepsLength(t: seq<int>, i: nat, j: nat, thread: int)
    requires |t| >= 3 && i < |t| && j <= 1 && t[|t| - 1] == 0
    requires forall k :: 0 <= k < |t| - 1 ==> t[k] != 0
    requires forall k, l :: i <= k < l < |t| ==> t[k] != t[l]
    requires j == 1 ==> forall k :: i <= k < |t| - 1 ==> t[k] != thread
    ensures |Squeeze(t, i, j, thread)| == |t| - 1
    decreases |t| - i
  {
    if i < |t| - 1 {
      var j' := if t[i] == thread then j + 1 else j;
      SqueezeKeepsLength(t[i := t[j']], i + 1, j', thread);
    }
  }

  lemma {:induction false} WithoutLength(threads: seq<int>, thread: int)
    ensures |Without(threads, thread)| <= |threads|
    ensures thread !in threads <==> Without(threads, thread) == threads
    ensures thread in threads ==> |Without(threads, thread)| < |threads|
  {
    if threads != [] {
      WithoutLength(threads[1..], thread);
    }
  }

  // The loop removes the thread, and leaves the others alone, only from lists of at most one.
  lemma DropThreadRightIff(threads: seq<int>, thread: int)
    requires ThreadList(threads)
    ensures DropThread(threads, thread) == Without(threads, thread) <==> |threads| <= 1
  {
    var t := threads + [0];
    WithoutLength(threads, thread);
    if |threads| == 1 {
      assert threads == [threads[0]] && Without(threads[1..], thread) == [];
      if threads[0] != thread {
        assert t[0 := t[0]] == t && Squeeze(t, 1, 0, thread) == t[..1];
      }
    } else if |threads| >= 2 {
      SqueezeKeepsLength(t, 0, 0, thread);
      if thread !in threads {
        assert t[0] != thread && t[1] != thread;
        var t1 := t[0 := t[0]];
        var t2 := t1[1 := t1[0]];
        assert DropThread(threads, thread) == Squeeze(t1, 1, 0, thread) == Squeeze(t2, 2, 0, thread);
        SqueezeKeepsPrefix(t2, 2, 0, thread);
        assert t2[..2][1] == threads[0];
      }
    }
  }
}
