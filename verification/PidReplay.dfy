/** What events leave of one process in the table. */
module PidReplay {
  import opened PidTable

  // ---- the fork of a thread --------------------------------------------------------------

  ghost predicate NoTwice(s: seq<int>) { forall i, j :: 0 <= i < j < |s| ==> s[i] != s[j] }

  lemma AddedThread(before: seq<int>, tid: int)
    requires tid != 0
    ensures var threads := AddThread(before, tid);
      && before <= threads && tid in threads && (forall t :: t in threads ==> t in before || t == tid)
      && (NoTwice(before) ==> NoTwice(threads)) && threads == if tid in before then before else before + [tid]
  {
  }

  lemma ThreadForkIs(v: seq<Entry>, parent: int, tid: int, tgid: int)
    requires Sorted(v) && tid != tgid
    ensures var m := ToMap(v);
      ToMap(Apply(v, Fork(parent, tid, tgid))) ==
        m[tgid := Info(if tgid in m then m[tgid].parent else 0, AddThread(ThreadsIn(m, tgid), tid))]
  {
    EnsureFacts(v, tgid);
    var e := Ensure(v, tgid);
    UpdateFacts(e, Entries(e, tgid).(threads := AddThread(Entries(e, tgid).threads, tid)));
  }

  lemma ThreadExitIs(v: seq<Entry>, tid: int, tgid: int)
    requires Sorted(v) && tid != tgid
    ensures var m := ToMap(v);
      ToMap(Apply(v, Exit(tid, tgid))) == if tgid in m then m[tgid := Info(m[tgid].parent, DropThread(m[tgid].threads, tid))] else m
  {
    if tgid in ToMap(v) {
      UpdateFacts(v, Entries(v, tgid).(threads := DropThread(Entries(v, tgid).threads, tid)));
    }
  }

  // The fork of a thread puts the thread on the list of its process, behind the others and once, and
  // does nothing else. A process not known before has no parent.
  lemma {:induction false} ThreadForkInMap(v: seq<Entry>, parent: int, tid: int, tgid: int)
    requires Sorted(v) && tid != tgid && tid != 0
    ensures var m, m' := ToMap(v), ToMap(Apply(v, Fork(parent, tid, tgid)));
      && m'.Keys == m.Keys + {tgid}
      && (forall p :: p in m && p != tgid ==> m'[p] == m[p])
      && m'[tgid].parent == (if tgid in m then m[tgid].parent else 0)
      && var before, threads := if tgid in m then m[tgid].threads else [], m'[tgid].threads;
      && before <= threads && tid in threads && (forall t :: t in threads ==> t in before || t == tid)
      && (NoTwice(before) ==> NoTwice(threads)) && (tid in before ==> threads == before)
  {
    ThreadForkIs(v, parent, tid, tgid);
    AddedThread(ThreadsIn(ToMap(v), tgid), tid);
  }

  // ---- replays -----------------------------------------------------------------------------

  function ThreadsIn(m: map<int, Info>, pid: int): seq<int> { if pid in m then m[pid].threads else [] }

  // The thread ids forked for a process since its last exit.
  function ThreadForks(evs: seq<Event>, pid: int): seq<int> {
    if evs == [] then []
    else
      match evs[|evs| - 1]
      case Fork(_, tid, tgid) =>
        ThreadForks(evs[..|evs| - 1], pid) + if tgid == pid && tid != pid && tid != 0 then [tid] else []
      case Exit(tid, tgid) => if tid == tgid == pid then [] else ThreadForks(evs[..|evs| - 1], pid)
  }

  ghost predicate Exited(evs: seq<Event>, pid: int) { Exit(pid, pid) in evs }

  ghost predicate NoThreadExits(evs: seq<Event>, pid: int) {
    forall e <- evs :: e.Exit? && e.tgid == pid ==> e.pid == pid
  }

  // The place of the first x.
  function First(s: seq<int>, x: int): nat {
    if s == [] || s[0] == x then 0 else 1 + First(s[1..], x)
  }

  lemma {:induction false} FirstSnoc(s: seq<int>, x: int, y: int)
    ensures First(s + [y], x) == if x in s then First(s, x) else if x == y then |s| else |s| + 1
    ensures First(s, x) <= |s| && (x in s ==> First(s, x) < |s|)
  {
    if s == [] {
      assert [] + [y] == [y] && [y][1..] == [];
    } else {
      FirstSnoc(s[1..], x, y);
      assert (s + [y])[1..] == s[1..] + [y];
      assert x in s <==> x == s[0] || x in s[1..];
    }
  }

  // t is s without repetitions, in order of first mention.
  ghost predicate Mentions(t: seq<int>, s: seq<int>) {
    (forall x :: x in t <==> x in s) && forall i, j :: 0 <= i < j < |t| ==> First(s, t[i]) < First(s, t[j])
  }

  lemma MentionsSnoc(t: seq<int>, s: seq<int>, x: int)
    requires Mentions(t, s)
    ensures Mentions(if x in t then t else t + [x], s + [x])
  {
    forall y ensures First(s + [x], y) == if y in s then First(s, y) else if y == x then |s| else |s| + 1
      ensures y in s ==> First(s, y) < |s|
    {
      FirstSnoc(s, y, x);
    }
    forall i | 0 <= i < |t| ensures t[i] in s {
      assert t[i] in t;
    }
  }

  lemma {:induction false} FirstIs(s: seq<int>, i: nat)
    requires NoTwice(s) && i < |s|
    ensures First(s, s[i]) == i
  {
    if i > 0 {
      assert s[0] != s[i];
      FirstIs(s[1..], i - 1);
    }
  }

  lemma NoTwiceMentions(s: seq<int>)
    requires NoTwice(s)
    ensures Mentions(s, s)
  {
    forall i: nat | i < |s| ensures First(s, s[i]) == i {
      FirstIs(s, i);
    }
  }

  // The id of the thread that an event adds to a process.
  ghost predicate Adds(ev: Event, pid: int) {
    ev.Fork? && ev.childTgid == pid && ev.childPid != pid && ev.childPid != 0
  }

  // What an event does to the threads of a process.
  lemma ThreadsStep(v: seq<Entry>, ev: Event, pid: int)
    requires Sorted(v) && (ev.Exit? && ev.tgid == pid ==> ev.pid == pid)
    ensures var t := ThreadsIn(ToMap(v), pid);
      ThreadsIn(ToMap(Apply(v, ev)), pid) ==
        if ev == Exit(pid, pid) then [] else if Adds(ev, pid) && ev.childPid !in t then t + [ev.childPid] else t
  {
    match ev
    case Fork(parent, tid, tgid) =>
      if tid == tgid {
        ForkInMap(v, tgid, parent);
      } else {
        ThreadForkIs(v, parent, tid, tgid);
      }
    case Exit(tid, tgid) =>
      if tid == tgid {
        ExitInMap(v, tid);
      } else {
        ThreadExitIs(v, tid, tgid);
      }
  }

  // The threads a process had, and those forked since its last exit.
  ghost function History(had: seq<int>, evs: seq<Event>, pid: int): seq<int> {
    (if Exited(evs, pid) then [] else had) + ThreadForks(evs, pid)
  }

  lemma HistoryNext(had: seq<int>, evs: seq<Event>, ev: Event, pid: int)
    ensures History(had, evs + [ev], pid) ==
      if ev == Exit(pid, pid) then [] else if Adds(ev, pid) then History(had, evs, pid) + [ev.childPid] else History(had, evs, pid)
  {
    assert (evs + [ev])[..|evs|] == evs;
    assert Exited(evs + [ev], pid) <==> Exited(evs, pid) || ev == Exit(pid, pid);
    if Adds(ev, pid) {
      Behind(if Exited(evs, pid) then [] else had, ThreadForks(evs, pid), ev.childPid);
    } else {
      assert ThreadForks(evs, pid) + [] == ThreadForks(evs, pid);
    }
  }

  // Without exits of its threads, a process has the threads it had and those forked since its last
  // exit, in order of first mention.
  lemma {:induction false} ReplayThreads(v: seq<Entry>, evs: seq<Event>, pid: int)
    requires Sorted(v) && NoThreadExits(evs, pid) && NoTwice(ThreadsIn(ToMap(v), pid))
    ensures Mentions(ThreadsIn(ToMap(Replay(v, evs)), pid),
                     (if Exited(evs, pid) then [] else ThreadsIn(ToMap(v), pid)) + ThreadForks(evs, pid))
    decreases |evs|
  {
    var had := ThreadsIn(ToMap(v), pid);
    if evs == [] {
      NoTwiceMentions(had);
      assert had + [] == had;
    } else {
      var init, ev := evs[..|evs| - 1], evs[|evs| - 1];
      ReplayThreads(v, init, pid);
      assert evs == init + [ev];
      StepMentions(Replay(v, init), had, init, ev, pid);
    }
  }

  lemma StepMentions(r: seq<Entry>, had: seq<int>, evs: seq<Event>, ev: Event, pid: int)
    requires Sorted(r) && (ev.Exit? && ev.tgid == pid ==> ev.pid == pid)
    requires Mentions(ThreadsIn(ToMap(r), pid), History(had, evs, pid))
    ensures Mentions(ThreadsIn(ToMap(Apply(r, ev)), pid), History(had, evs + [ev], pid))
  {
    ThreadsStep(r, ev, pid);
    HistoryNext(had, evs, ev, pid);
    MentionsNext(ThreadsIn(ToMap(r), pid), History(had, evs, pid), ev, pid);
  }

  lemma MentionsNext(t: seq<int>, s: seq<int>, ev: Event, pid: int)
    requires Mentions(t, s)
    ensures ev == Exit(pid, pid) ==> Mentions([], [])
    ensures Adds(ev, pid) ==> Mentions(if ev.childPid in t then t else t + [ev.childPid], s + [ev.childPid])
  {
    if Adds(ev, pid) {
      MentionsSnoc(t, s, ev.childPid);
    }
  }

  lemma Behind(a: seq<int>, b: seq<int>, x: int)
    ensures a + b + [x] == a + (b + [x])
  {
  }

  // The parent of a process is the one its last fork named, if it has not exited since.
  lemma {:induction false} ReplayParent(v: seq<Entry>, evs: seq<Event>, pid: int, k: nat)
    requires Sorted(v) && k < |evs| && evs[k].Fork? && evs[k].childPid == evs[k].childTgid == pid
    requires forall j :: k < j < |evs| ==> evs[j] != Exit(pid, pid)
    requires forall j :: k < j < |evs| && evs[j].Fork? ==> !(evs[j].childPid == evs[j].childTgid == pid)
    ensures pid in ToMap(Replay(v, evs)) && ToMap(Replay(v, evs))[pid].parent == evs[k].parentTgid
    decreases |evs|
  {
    var init, ev := evs[..|evs| - 1], evs[|evs| - 1];
    var r := Replay(v, init);
    if k == |evs| - 1 {
      ForkInMap(r, pid, ev.parentTgid);
    } else {
      ReplayParent(v, init, pid, k);
      ParentStep(r, ev, pid);
    }
  }

  lemma ParentStep(v: seq<Entry>, ev: Event, pid: int)
    requires Sorted(v) && pid in ToMap(v) && ev != Exit(pid, pid)
    requires ev.Fork? ==> !(ev.childPid == ev.childTgid == pid)
    ensures pid in ToMap(Apply(v, ev)) && ToMap(Apply(v, ev))[pid].parent == ToMap(v)[pid].parent
  {
    match ev
    case Fork(parent, tid, tgid) =>
      if tid == tgid {
        ForkInMap(v, tgid, parent);
      } else {
        ThreadForkIs(v, parent, tid, tgid);
      }
    case Exit(tid, tgid) =>
      if tid == tgid {
        ExitInMap(v, tid);
      } else {
        ThreadExitIs(v, tid, tgid);
      }
  }

  // ---- the exit of a thread ------------------------------------------------------------------

  // From the third place on, the loop that takes a thread out writes the same thread everywhere.
  lemma {:induction false} SqueezeTail(t: seq<int>, i: nat, j: nat, thread: int, c: int)
    requires 2 <= i < |t| && j <= 1 && t[|t| - 1] == 0 && t[j] == c && t[1] == c
    requires forall k :: 0 <= k < |t| - 1 ==> t[k] != 0
    requires forall k, l :: i <= k < l < |t| ==> t[k] != t[l]
    requires j == 1 ==> forall k :: i <= k < |t| - 1 ==> t[k] != thread
    ensures |Squeeze(t, i, j, thread)| == |t| - 1 && Squeeze(t, i, j, thread)[..i] == t[..i]
    ensures forall k :: i <= k < |t| - 1 ==> Squeeze(t, i, j, thread)[k] == c
    decreases |t| - i
  {
    if i < |t| - 1 {
      var j' := if t[i] == thread then j + 1 else j;
      var t' := t[i := t[j']];
      SqueezeTail(t', i + 1, j', thread, c);
      var r := Squeeze(t', i + 1, j', thread);
      assert r[..i] == t'[..i + 1][..i] && r[i] == t'[..i + 1][i];
    }
  }

  // What the loop leaves of a list of two and more: the first thread everywhere, or the second one, or
  // the first once and then the second, depending on where the thread stood.
  lemma DropThreadIs(threads: seq<int>, thread: int)
    requires ThreadList(threads) && |threads| >= 2
    ensures |DropThread(threads, thread)| == |threads|
    ensures forall k :: 0 <= k < |threads| ==>
      DropThread(threads, thread)[k] ==
        if thread == threads[0] || (thread == threads[1] && k >= 1) then threads[1] else threads[0]
  {
    var t := threads + [0];
    assert threads[0] != threads[1] && t[1] == threads[1];
    var j1 := if t[0] == thread then 1 else 0;
    var t1 := t[0 := t[j1]];
    var j2 := if t1[1] == thread then j1 + 1 else j1;
    var t2 := t1[1 := t1[j2]];
    assert DropThread(threads, thread) == Squeeze(t1, 1, j1, thread) == Squeeze(t2, 2, j2, thread);
    SqueezeTail(t2, 2, j2, thread, t2[j2]);
    var r := Squeeze(t2, 2, j2, thread);
    assert r[0] == t2[..2][0] && r[1] == t2[..2][1];
  }
}
