/**
 The scanner of tasks-netlink.c as the main thread sees it: the table of process records and the
 methods that keep it.

 View() is the table as a value of PidTable; every method that changes it says by which function.
 The queue of events that the listener fills is a sequence here, replayed by Restart; who may touch it
 when is the matter of NetlinkProtocol.
 */
module PidScanner {
  import T = PidTable
  import opened PidTable

  class Process {
    const pid: int
    var parent: int
    var threads: seq<int>

    // calloc: everything but the pid is 0
    constructor (pid: int)
      ensures this.pid == pid && parent == 0 && threads == []
    {
      this.pid, parent, threads := pid, 0, [];
    }

    ghost function View(): Entry
      reads this
    {
      Entry(pid, parent, threads)
    }
  }

  ghost function Views(ps: seq<Process>): (v: seq<Entry>)
    reads ps
    ensures |v| == |ps| && forall i :: 0 <= i < |ps| ==> v[i] == ps[i].View()
  {
    seq(|ps|, i requires 0 <= i < |ps| reads ps => ps[i].View())
  }

  // Strictly increasing pids; so all records differ.
  ghost predicate Increasing(ps: seq<Process>) {
    forall i, j :: 0 <= i < j < |ps| ==> ps[i].pid < ps[j].pid
  }

  class Scanner {
    var procs: array<Process?>
    var nProcs: nat
    var curProc: nat
    var buffer: seq<Event>
    ghost var recs: seq<Process>   // procs[..nProcs]
    ghost var Repr: set<object>

    ghost predicate Valid()
      reads this, Repr
    {
      && this in Repr && procs in Repr && (forall p :: p in recs ==> p in Repr)
      && nProcs <= procs.Length && procs[..nProcs] == recs && Increasing(recs)
    }

    ghost function View(): seq<Entry>
      reads this, Repr
      requires Valid()
    {
      Views(recs)
    }

    constructor ()
      ensures Valid() && fresh(Repr) && View() == [] && buffer == []
    {
      procs := new Process?[0];
      nProcs, curProc, buffer, recs := 0, 0, [], [];
      new;
      Repr := {this, procs};
    }

    // The slot for pid: where its record is, or where it would have to go.
    method Slot(pid: int) returns (i: nat, present: bool)
      requires Valid()
      ensures i <= |recs|
      ensures present ==> i < |recs| && recs[i].pid == pid
      ensures !present ==> (forall k :: 0 <= k < i ==> recs[k].pid < pid) && (i < |recs| ==> recs[i].pid > pid)
    {
      if nProcs > 0 && pid > procs[nProcs - 1].pid {
        i := nProcs;
      } else {
        i := 0;
        while i < nProcs
          invariant i <= nProcs && forall k :: 0 <= k < i ==> recs[k].pid <= pid
        {
          if procs[i].pid > pid { break; }
          i := i + 1;
        }
      }
      present := i > 0 && procs[i - 1].pid == pid;
      if present {
        i := i - 1;
      }
    }

    // find_pid_an_idx
    method FindPidAnIdx(pid: int, create: bool) returns (idx: int)
      requires Valid()
      modifies Repr
      ensures Valid() && fresh(Repr - old(Repr)) && buffer == old(buffer) && curProc == old(curProc)
      ensures create ==> View() == Ensure(old(View()), pid) && 0 <= idx < |recs| && recs[idx].pid == pid
      ensures !create ==> recs == old(recs) && View() == old(View()) && -1 <= idx < |recs|
      ensures !create && idx >= 0 ==> recs[idx].pid == pid
      ensures !create && idx < 0 ==> forall k :: 0 <= k < |recs| ==> recs[k].pid != pid
    {
      var i, present := Slot(pid);
      if present {
        ViewsSorted(recs);
        EnsurePresent(View(), pid, i);
        return i;
      }
      if !create {
        return -1;
      }
      if nProcs >= procs.Length {
        Enlarge();
      }
      OpenSlot(pid, i);
      idx := i;
    }

    // Doubling, from 256 when there was nothing.
    method Enlarge()
      requires Valid() && nProcs == procs.Length
      modifies this
      ensures Valid() && fresh(Repr - old(Repr)) && nProcs < procs.Length
      ensures recs == old(recs) && View() == old(View()) && buffer == old(buffer) && curProc == old(curProc)
    {
      var size := (if procs.Length == 0 then 256 else procs.Length) * 2;
      var bigger := new Process?[size](_ => null);
      forall k | 0 <= k < nProcs {
        bigger[k] := procs[k];
      }
      procs := bigger;
      Repr := Repr + {bigger};
      assert procs[..nProcs] == recs;
    }

    // insert_pid
    method InsertPid(pid: int, parent: int)
      requires Valid()
      modifies Repr
      ensures Valid() && fresh(Repr - old(Repr)) && buffer == old(buffer) && curProc == old(curProc)
      ensures Sorted(old(View())) && View() == T.InsertPid(old(View()), pid, parent)
    {
      ViewsSorted(recs);
      ghost var v := View();
      var idx := FindPidAnIdx(pid, true);
      UpdatesAt(v, pid, idx, parent, 0);
      procs[idx].parent := parent;
      OneChanged(recs, idx, Ensure(v, pid));
    }

    // insert_pid_thread
    method InsertPidThread(pid: int, thread: int)
      requires Valid()
      modifies Repr
      ensures Valid() && fresh(Repr - old(Repr)) && buffer == old(buffer) && curProc == old(curProc)
      ensures Sorted(old(View())) && View() == T.InsertPidThread(old(View()), pid, thread)
    {
      ViewsSorted(recs);
      ghost var v := View();
      var idx := FindPidAnIdx(pid, true);
      UpdatesAt(v, pid, idx, 0, thread);
      AddThreadTo(procs[idx], thread);
      OneChanged(recs, idx, Ensure(v, pid));
    }

    static method AddThreadTo(p: Process, thread: int)
      modifies p`threads
      ensures p.threads == AddThread(old(p.threads), thread)
    {
      var n := 0;
      while n < |p.threads| && p.threads[n] != thread
        invariant n <= |p.threads| && thread !in p.threads[..n]
      {
        n := n + 1;
      }
      if n == |p.threads| && thread != 0 {
        p.threads := p.threads + [thread];
      }
    }

    // remove_pid
    method RemovePid(pid: int)
      requires Valid()
      modifies Repr
      ensures Valid() && fresh(Repr - old(Repr)) && buffer == old(buffer) && curProc == old(curProc)
      ensures View() == Delete(old(View()), pid)
    {
      var i := FindPidAnIdx(pid, false);
      if i < 0 {
        DeleteAbsent(View(), pid);
        return;
      }
      CloseSlot(i);
    }

    // Everyone behind slot k moves down by one.
    method ShiftDown(k: nat)
      requires k <= nProcs < procs.Length
      modifies procs
      ensures procs[..nProcs] == old(procs[..k]) + old(procs[k + 1..nProcs + 1])
    {
      var i := k;
      while i < nProcs
        invariant k <= i <= nProcs
        invariant forall j :: 0 <= j < k ==> procs[j] == old(procs[j])
        invariant forall j :: k <= j < i ==> procs[j] == old(procs[..])[j + 1]
        invariant forall j :: i <= j <= nProcs ==> procs[j] == old(procs[j])
      {
        procs[i] := procs[i + 1];
        i := i + 1;
      }
    }

    method CloseSlot(k: nat)
      requires Valid() && k < nProcs
      modifies this, procs
      ensures Valid() && Repr == old(Repr) && buffer == old(buffer) && curProc == old(curProc)
      ensures View() == Delete(old(View()), old(recs[k].pid))
    {
      ViewsSorted(recs);
      DeleteAt(View(), recs[k].pid, k);
      ViewsCut(recs, k);
      CutSlot(k);
    }

    method CutSlot(k: nat)
      requires Valid() && k < nProcs
      modifies this`nProcs, this`recs, procs
      ensures Valid() && recs == old(recs[..k] + recs[k + 1..])
    {
      nProcs := nProcs - 1;
      ShiftDown(k);
      recs := recs[..k] + recs[k + 1..];
      assert procs[..nProcs] == recs;
    }

    // remove_pid_thread
    method RemovePidThread(pid: int, thread: int)
      requires Valid()
      modifies Repr
      ensures Valid() && fresh(Repr - old(Repr)) && buffer == old(buffer) && curProc == old(curProc)
      ensures View() == T.RemovePidThread(old(View()), pid, thread)
    {
      ViewsSorted(recs);
      KeysAt(View(), pid);
      ghost var v := View();
      var idx := FindPidAnIdx(pid, false);
      if idx < 0 {
        return;
      }
      var p := procs[idx];
      RemoveThreadAt(v, pid, idx, thread);
      p.threads := DropThreadLoop(p.threads, thread);
      OneChanged(recs, idx, v);
    }

    // The two-index loop of remove_pid_thread, on the list with its terminator.
    static method DropThreadLoop(threads: seq<int>, thread: int) returns (r: seq<int>)
      ensures r == DropThread(threads, thread)
    {
      var t := threads + [0];
      var i, j := 0, 0;
      while t[i] != 0 && t[j] != 0
        invariant i < |t| && j < |t| && t[|t| - 1] == 0
        invariant Squeeze(t, i, j, thread) == DropThread(threads, thread)
        decreases |t| - i
      {
        if t[i] == thread {
          j := j + 1;
        }
        if t[j] == 0 { break; }
        t := t[i := t[j]];
        i := i + 1;
      }
      r := t[..i];
    }

    // netlink_pid_scanner_restart, without the lock: the queue is taken and replayed in order.
    method Restart()
      requires Valid()
      modifies Repr
      ensures Valid() && fresh(Repr - old(Repr)) && buffer == [] && curProc == 0
      ensures Sorted(old(View())) && View() == Replay(old(View()), old(buffer))
    {
      ViewsSorted(recs);
      ghost var v := View();
      curProc := 0;
      var evs := buffer;
      buffer := [];
      for i := 0 to |evs|
        invariant Valid() && fresh(Repr - old(Repr)) && buffer == [] && curProc == 0
        invariant View() == Replay(v, evs[..i])
      {
        ReplayNext(v, evs, i);
        match evs[i]
        case Fork(parent, pid, tgid) =>
          if pid == tgid {
            InsertPid(tgid, parent);
          } else {
            InsertPidThread(tgid, pid);
          }
        case Exit(pid, tgid) =>
          if pid == tgid {
            RemovePid(pid);
          } else {
            RemovePidThread(tgid, pid);
          }
      }
      assert evs[..|evs|] == evs;
    }

    // netlink_pid_scanner_next
    method Next() returns (pid: int)
      requires Valid()
      modifies this`curProc
      ensures Valid() && View() == old(View())
      ensures if old(curProc) >= |recs| then pid == 0 && curProc == old(curProc)
              else pid == recs[old(curProc)].pid && curProc == old(curProc) + 1
    {
      if curProc >= nProcs {
        return 0;
      }
      pid := procs[curProc].pid;
      curProc := curProc + 1;
    }

    // The collector's loop: restart, then next until it returns 0.
    method ScanAll() returns (pids: seq<int>)
      requires Valid()
      modifies Repr
      ensures Valid() && fresh(Repr - old(Repr)) && Sorted(old(View()))
      ensures View() == Replay(old(View()), old(buffer))
      ensures pids == UpToZero(Pids(View()))
    {
      Restart();
      pids := Drain();
    }

    method Drain() returns (pids: seq<int>)
      requires Valid() && curProc == 0
      modifies this`curProc
      ensures Valid() && View() == old(View()) && pids == UpToZero(Pids(View()))
    {
      ghost var all := Pids(View());
      pids := [];
      var pid := Next();
      while pid != 0
        invariant Valid() && View() == old(View()) && Drained(all, pids, pid, curProc)
        decreases |all| - |pids|
      {
        DrainNext(all, pids, pid, curProc);
        pids := pids + [pid];
        pid := Next();
      }
      DrainNext(all, pids, pid, curProc);
    }

    // pids have been read, and pid, the next one, is in hand.
    static ghost predicate Drained(all: seq<int>, pids: seq<int>, pid: int, at: nat) {
      && |pids| <= |all| && UpToZero(all) == pids + UpToZero(all[|pids|..])
      && if |pids| < |all| then pid == all[|pids|] && at == |pids| + 1 else pid == 0
    }

    static lemma DrainNext(all: seq<int>, pids: seq<int>, pid: int, at: nat)
      requires Drained(all, pids, pid, at)
      ensures pid == 0 ==> UpToZero(all) == pids
      ensures pid != 0 ==> |pids| < |all| && UpToZero(all) == pids + [pid] + UpToZero(all[|pids| + 1..])
    {
      if |pids| < |all| {
        TakeNext(UpToZero(all), pids, all[|pids|..]);
        assert all[|pids|..][1..] == all[|pids| + 1..];
      }
    }

    static lemma TakeNext(whole: seq<int>, pids: seq<int>, rest: seq<int>)
      requires rest != [] && whole == pids + UpToZero(rest)
      ensures whole == if rest[0] == 0 then pids else pids + [rest[0]] + UpToZero(rest[1..])
    {
      if rest[0] != 0 {
        var more := UpToZero(rest[1..]);
        assert UpToZero(rest) == [rest[0]] + more;
        assert pids + ([rest[0]] + more) == pids + [rest[0]] + more;
      }
    }

    // Shuffle everyone from slot i up by one and put p there.
    method PutAt(i: nat, p: Process)
      requires i <= nProcs < procs.Length
      modifies procs
      ensures procs[..nProcs + 1] == old(procs[..i]) + [p] + old(procs[i..nProcs])
    {
      var j := nProcs;
      while j > i
        invariant i <= j <= nProcs < procs.Length
        invariant forall k :: 0 <= k < j ==> procs[k] == old(procs[k])
        invariant forall k :: j < k <= nProcs ==> procs[k] == old(procs[..])[k - 1]
      {
        procs[j] := procs[j - 1];
        j := j - 1;
      }
      procs[i] := p;
    }

    method Place(i: nat, p: Process)
      requires Valid() && nProcs < procs.Length && i <= |recs|
      requires (forall k :: 0 <= k < i ==> recs[k].pid < p.pid) && (i < |recs| ==> recs[i].pid > p.pid)
      modifies this`nProcs, this`recs, this`Repr, procs
      ensures Valid() && Repr == old(Repr) + {p} && recs == old(recs)[..i] + [p] + old(recs)[i..]
    {
      IncreasingInsert(recs, i, p);
      PutAt(i, p);
      nProcs := nProcs + 1;
      recs := recs[..i] + [p] + recs[i..];
      Repr := Repr + {p};
    }

    // A new record in the slot between the smaller and the greater pids.
    method OpenSlot(pid: int, i: nat)
      requires Valid() && nProcs < procs.Length && i <= |recs|
      requires (forall k :: 0 <= k < i ==> recs[k].pid < pid) && (i < |recs| ==> recs[i].pid > pid)
      modifies this`nProcs, this`recs, this`Repr, procs
      ensures Valid() && fresh(Repr - old(Repr))
      ensures View() == Ensure(old(View()), pid) && i < |recs| && recs[i].pid == pid
    {
      EnsureAt(View(), pid, i);
      var p := new Process(pid);
      ghost var was := recs;
      Place(i, p);
      ViewsSplice(was, i, p);
    }
  }

  lemma IncreasingInsert(ps: seq<Process>, i: nat, p: Process)
    requires Increasing(ps) && i <= |ps|
    requires (forall k :: 0 <= k < i ==> ps[k].pid < p.pid) && (i < |ps| ==> ps[i].pid > p.pid)
    ensures Increasing(ps[..i] + [p] + ps[i..])
  {
  }

  lemma ViewsAppend(a: seq<Process>, b: seq<Process>)
    ensures Views(a + b) == Views(a) + Views(b)
  {
  }

  lemma ViewsSplice(ps: seq<Process>, i: nat, p: Process)
    requires i <= |ps|
    ensures Views(ps[..i] + [p] + ps[i..]) == Views(ps)[..i] + [p.View()] + Views(ps)[i..]
  {
    ViewsAppend(ps[..i] + [p], ps[i..]);
    ViewsAppend(ps[..i], [p]);
    assert ps[..i] + ps[i..] == ps;
    ViewsAppend(ps[..i], ps[i..]);
  }

  // Only the record in slot k differs from the picture v.
  lemma OneChanged(ps: seq<Process>, k: nat, v: seq<Entry>)
    requires k < |ps| == |v| && forall i :: 0 <= i < |ps| && i != k ==> v[i] == ps[i].View()
    ensures Views(ps) == v[k := ps[k].View()]
  {
  }

  lemma ViewsCut(ps: seq<Process>, k: nat)
    requires k < |ps|
    ensures Views(ps[..k] + ps[k + 1..]) == Views(ps)[..k] + Views(ps)[k + 1..]
  {
  }

  lemma ViewsSorted(ps: seq<Process>)
    ensures Sorted(Views(ps)) <==> Increasing(ps)
  {
    if Sorted(Views(ps)) {
      forall i, j | 0 <= i < j < |ps| ensures ps[i].pid < ps[j].pid {
        assert Views(ps)[i].pid < Views(ps)[j].pid;
      }
    }
  }
}
