/** `find_parent_id_for` in Trace.compile: the climb to an ancestor that has an entry. */
module OrphanClimb {
  import opened Wrappers

  // A short-lived parent may have left no process entry, so the climb goes on until it meets an
  // ancestor that has one. The parent map is log data; nothing in the code keeps it free of circles.

  // What one lookup yields: `parent_map.get(pid)`, where 0 counts as missing.
  function Next(parents: map<int, int>, pid: int): Option<int> {
    if pid == 0 || pid !in parents || parents[pid] == 0 then None else Some(parents[pid])
  }

  // The pid k lookups above, if the chain is that long.
  ghost function Ancestor(parents: map<int, int>, pid: int, k: nat): Option<int>
    decreases k
  {
    if k == 0 then Some(pid)
    else match Next(parents, pid)
      case None => None
      case Some(ppid) => Ancestor(parents, ppid, k - 1)
  }

  // The recursion comes back after at most n nested calls.
  ghost predicate Returns(parents: map<int, int>, entries: set<int>, pid: int, n: nat)
    decreases n
  {
    match Next(parents, pid)
    case None => true
    case Some(ppid) => ppid in entries || (n > 0 && Returns(parents, entries, ppid, n - 1))
  }

  // entries: the pids for which `pid * 1000` is in the process map
  function FindParentIdFor(parents: map<int, int>, entries: set<int>, pid: int, ghost n: nat): int
    requires Returns(parents, entries, pid, n)
    decreases n
  {
    match Next(parents, pid)
    case None => 0
    case Some(ppid) => if ppid in entries then ppid else FindParentIdFor(parents, entries, ppid, n - 1)
  }

  // The first ancestor with an entry, k steps up.
  ghost predicate Nearest(parents: map<int, int>, entries: set<int>, pid: int, k: nat, found: int) {
    && k > 0 && Ancestor(parents, pid, k) == Some(found) && found in entries
    && forall j :: 0 < j < k ==> Ancestor(parents, pid, j).Some? && Ancestor(parents, pid, j).value !in entries
  }

  ghost predicate NoEntryAbove(parents: map<int, int>, entries: set<int>, pid: int) {
    forall k: nat :: k > 0 && Ancestor(parents, pid, k).Some? ==> Ancestor(parents, pid, k).value !in entries
  }

  lemma {:induction false} ClimbFindsNearest(parents: map<int, int>, entries: set<int>, pid: int, n: nat)
    requires Returns(parents, entries, pid, n)
    ensures var r := FindParentIdFor(parents, entries, pid, n);
      if r == 0 then NoEntryAbove(parents, entries, pid)
      else exists k: nat :: Nearest(parents, entries, pid, k, r)
    decreases n
  {
    match Next(parents, pid)
    case None =>
    case Some(ppid) =>
      assert Ancestor(parents, pid, 1) == Some(ppid);
      if ppid in entries {
        assert Nearest(parents, entries, pid, 1, ppid);
      } else {
        ClimbFindsNearest(parents, entries, ppid, n - 1);
        var r := FindParentIdFor(parents, entries, ppid, n - 1);
        if r == 0 {
          forall k: nat | k > 0 && Ancestor(parents, pid, k).Some?
            ensures Ancestor(parents, pid, k).value !in entries
          {
            assert Ancestor(parents, pid, k) == Ancestor(parents, ppid, k - 1);
          }
        } else {
          var k: nat :| Nearest(parents, entries, ppid, k, r);
          forall j | 0 < j < k + 1
            ensures Ancestor(parents, pid, j).Some? && Ancestor(parents, pid, j).value !in entries
          {
            assert Ancestor(parents, pid, j) == Ancestor(parents, ppid, j - 1);
          }
          assert Nearest(parents, entries, pid, k + 1, r);
        }
      }
  }

  // ---- when the climb ends at all ------------------------------------------------

  // The chain meets a pid again before it meets an entry.
  ghost predicate Circles(parents: map<int, int>, entries: set<int>, pid: int, j: nat, k: nat) {
    && j < k && Ancestor(parents, pid, j) == Ancestor(parents, pid, k)
    && forall i :: 0 < i <= k ==> Ancestor(parents, pid, i).Some? && Ancestor(parents, pid, i).value !in entries
  }

  lemma {:induction false} AncestorSplit(parents: map<int, int>, pid: int, i: nat, k: nat)
    ensures Ancestor(parents, pid, i + k)
            == match Ancestor(parents, pid, i) case None => None case Some(p) => Ancestor(parents, p, k)
    decreases i
  {
    if i > 0 && Next(parents, pid).Some? {
      AncestorSplit(parents, Next(parents, pid).value, i - 1, k);
    }
  }

  // One step round or towards the circle leaves the climber in front of a circle.
  lemma CirclesStep(parents: map<int, int>, entries: set<int>, pid: int, j: nat, k: nat)
    requires Circles(parents, entries, pid, j, k)
    ensures Next(parents, pid).Some? && Next(parents, pid).value !in entries
    ensures var ppid := Next(parents, pid).value;
      if j > 0 then Circles(parents, entries, ppid, j - 1, k - 1) else Circles(parents, entries, ppid, 0, k)
  {
    assert Ancestor(parents, pid, 1).Some?;
    var ppid := Next(parents, pid).value;
    assert Ancestor(parents, pid, 1) == Some(ppid);
    forall i | 0 < i <= k
      ensures Ancestor(parents, ppid, i) == Ancestor(parents, pid, i + 1)
    {
      AncestorSplit(parents, pid, 1, i);
    }
    if j == 0 {
      AncestorSplit(parents, pid, k, 1);
    }
  }

  lemma {:induction false} CircleNeverReturns(parents: map<int, int>, entries: set<int>, pid: int, j: nat, k: nat, n: nat)
    requires Circles(parents, entries, pid, j, k)
    ensures !Returns(parents, entries, pid, n)
    decreases n
  {
    CirclesStep(parents, entries, pid, j, k);
    if n > 0 {
      var ppid := Next(parents, pid).value;
      if j > 0 {
        CircleNeverReturns(parents, entries, ppid, j - 1, k - 1, n - 1);
      } else {
        CircleNeverReturns(parents, entries, ppid, 0, k, n - 1);
      }
    }
  }

  ghost predicate Ends(parents: map<int, int>, entries: set<int>, pid: int) {
    exists n: nat :: Returns(parents, entries, pid, n)
  }

  ghost predicate RunsInCircles(parents: map<int, int>, entries: set<int>, pid: int) {
    exists j: nat, k: nat :: Circles(parents, entries, pid, j, k)
  }

  // s was passed in the first i steps of the climb from start.
  ghost predicate Passed(parents: map<int, int>, start: int, i: nat, s: int) {
    exists h: nat :: h < i && Ancestor(parents, start, h) == Some(s)
  }

  // Climbing from start, i steps up and over pids not met before, either returns or circles:
  // there are only so many pids in the map.
  lemma {:induction false} ReturnsOrCircles(parents: map<int, int>, entries: set<int>, start: int, i: nat, pid: int, seen: set<int>)
    requires Ancestor(parents, start, i) == Some(pid)
    requires forall h :: 0 < h <= i ==> Ancestor(parents, start, h).Some? && Ancestor(parents, start, h).value !in entries
    requires forall s :: s in seen ==> Passed(parents, start, i, s)
    ensures Ends(parents, entries, pid) || RunsInCircles(parents, entries, start)
    decreases parents.Keys - seen
  {
    AncestorSplit(parents, start, i, 1);
    if pid in seen {
      var h: nat :| h < i && Ancestor(parents, start, h) == Some(pid);
      assert Circles(parents, entries, start, h, i);
    } else if Next(parents, pid) == None || Next(parents, pid).value in entries {
      assert Returns(parents, entries, pid, 0);
    } else {
      var ppid := Next(parents, pid).value;
      assert Ancestor(parents, pid, 1) == Some(ppid);
      assert pid in parents.Keys - seen;
      forall s | s in seen + {pid} ensures Passed(parents, start, i + 1, s) {
        if s != pid {
          var h: nat :| h < i && Ancestor(parents, start, h) == Some(s);
        }
      }
      ReturnsOrCircles(parents, entries, start, i + 1, ppid, seen + {pid});
      if n: nat :| Returns(parents, entries, ppid, n) {
        assert Returns(parents, entries, pid, n + 1);
      }
    }
  }

  // The climb from pid ends exactly when its chain does not circle before the first entry.
  lemma ClimbEndsIff(parents: map<int, int>, entries: set<int>, pid: int)
    ensures Ends(parents, entries, pid) <==> !RunsInCircles(parents, entries, pid)
  {
    ReturnsOrCircles(parents, entries, pid, 0, pid, {});
    if j: nat, k: nat :| Circles(parents, entries, pid, j, k) {
      forall n: nat ensures !Returns(parents, entries, pid, n) {
        CircleNeverReturns(parents, entries, pid, j, k, n);
      }
    }
  }
}
