/**
 process_tree.py's passes over the mutable objects.

 A Python list handed down as `process_subtree` is always the child list of one object, so a
 pass takes the owner of the list; the top list belongs to a holder that is not itself part of
 the forest. The ghost argument `f` pictures the forest below the owner on entry.
 */
module ProcessTree {
  import opened Samples
  import opened Forest
  import opened Pruning
  import opened Merging

  // owner's child list heads exactly the forest f
  ghost predicate Holds(owner: Process, f: Forest)
    reads owner, Objs(f)
  {
    owner !in Objs(f) && Distinct(f) && Live(f) && owner.childList == Roots(f)
  }

  // A scan of owner's child list: `done` lies before the index, `rest` from the index on.
  ghost predicate Scanning(owner: Process, done: Forest, rest: Forest)
    reads owner, Objs(done), Objs(rest)
  {
    && owner !in Objs(done) && owner !in Objs(rest) && Objs(done) !! Objs(rest)
    && Distinct(done) && Distinct(rest) && Live(done) && Live(rest)
    && owner.childList == Roots(done) + Roots(rest)
  }

  ghost function Snoc(done: Forest, f: Forest): Forest
    requires f.Tree?
  {
    Append(done, f.(rest := Empty))
  }

  // ---- list.pop and list.insert --------------------------------------------------

  function Pop<T>(s: seq<T>, i: nat): seq<T>
    requires i < |s|
  {
    s[..i] + s[i + 1..]
  }

  function InsertAt<T>(s: seq<T>, i: nat, x: T): seq<T>
    requires i <= |s|
  {
    s[..i] + [x] + s[i..]
  }

  lemma PopAfter<T>(a: seq<T>, x: T, b: seq<T>)
    ensures Pop(a + ([x] + b), |a|) == a + b
  {
  }

  lemma PopSecond<T>(a: seq<T>, x: T, y: T, b: seq<T>)
    ensures Pop(a + ([x] + ([y] + b)), |a| + 1) == a + ([x] + b)
  {
  }

  lemma InsertAfter<T>(a: seq<T>, x: T, b: seq<T>)
    ensures InsertAt(a + b, |a|, x) == a + ([x] + b)
  {
  }

  // ---- how a scan advances -------------------------------------------------------

  // What lies under the index, and that it is apart from everything else.
  lemma UnderIndex(owner: Process, done: Forest, f: Forest)
    requires Scanning(owner, done, f)
    ensures |owner.childList| == Length(done) + Length(f)
    ensures f.Tree? ==>
              && owner.childList[Length(done)] == f.proc && f.proc.Snapshot() == f.info
              && |f.proc.childList| == Length(f.kids) && f.proc !in Objs(done) && f.proc !in Objs(f.rest)
              && Holds(f.proc, f.kids) && Live(f.rest) && f.proc != owner && owner !in Objs(f.kids)
              && Objs(f.kids) !! Objs(done) && Objs(f.kids) !! Objs(f.rest)
  {
    RootsLength(done);
    RootsLength(f);
    if f.Tree? {
      RootsLength(f.kids);
    }
  }

  // The head's fields and subtree changed, the subtree into a part of itself.
  lemma HeadRedone(owner: Process, done: Forest, f: Forest, g: Forest)
    requires f.Tree? && g.Tree? && g.proc == f.proc && g.rest == f.rest
    requires Objs(g.kids) <= Objs(f.kids) && Distinct(g.kids)
    requires owner !in Objs(done) && owner !in Objs(f) && Objs(done) !! Objs(f) && Distinct(done) && Distinct(f)
    requires owner.childList == Roots(done) + Roots(f)
    requires Live(done) && Live(f.rest) && Live(g.kids)
    requires g.proc.Snapshot() == g.info && g.proc.childList == Roots(g.kids)
    ensures Scanning(owner, done, g) && Objs(g) <= Objs(f)
    ensures Size(g) == Size(f) - Size(f.kids) + Size(g.kids)
  {
    Open(f);
    Open(g);
  }

  lemma SnocFacts(done: Forest, f: Forest)
    requires f.Tree?
    ensures Roots(Snoc(done, f)) == Roots(done) + [f.proc] && Length(Snoc(done, f)) == Length(done) + 1
    ensures Objs(Snoc(done, f)) == Objs(done) + {f.proc} + Objs(f.kids)
    ensures Size(Snoc(done, f)) == Size(done) + 1 + Size(f.kids)
    ensures Distinct(Snoc(done, f)) <==>
      Distinct(done) && f.proc !in Objs(f.kids) && Distinct(f.kids) && Objs(done) !! {f.proc} + Objs(f.kids)
  {
    var one := f.(rest := Empty);
    Open(one);
    AppendFacts(done, one);
    AppendDistinct(done, one);
    RootsLength(done);
    RootsLength(Snoc(done, f));
  }

  // The index moves past a head that is finished.
  lemma StepPast(owner: Process, done: Forest, f: Forest)
    requires Scanning(owner, done, f) && f.Tree?
    ensures Scanning(owner, Snoc(done, f), f.rest) && Length(Snoc(done, f)) == Length(done) + 1
    ensures Objs(Snoc(done, f)) + Objs(f.rest) == Objs(done) + Objs(f)
    ensures Size(Snoc(done, f)) + Size(f.rest) == Size(done) + Size(f)
  {
    Open(f);
    OpenLive(f);
    SnocFacts(done, f);
    AppendLive(done, f.(rest := Empty));
    assert Roots(done) + [f.proc] + Roots(f.rest) == Roots(done) + ([f.proc] + Roots(f.rest));
  }

  // The finished part and what is still to come make up the same result.
  lemma SnocAppend(done: Forest, f: Forest, g: Forest)
    requires f.Tree?
    ensures Append(Snoc(done, f), g) == Append(done, f.(rest := g))
  {
    AppendAssoc(done, f.(rest := Empty), g);
  }

  lemma HoistDoomed(c: Clock, f: Forest, top: bool)
    requires f.Tree? && Doomed(c, f.info, f.kids, top)
    ensures Hoist(c, MoveFront(f.kids, f.rest), top) == Hoist(c, f, top)
  {
    HoistSpliced(c, f.kids, f.rest, top);
  }

  lemma HoistKept(c: Clock, done: Forest, f: Forest, top: bool)
    requires f.Tree? && !Doomed(c, f.info, f.kids, top)
    ensures Append(Snoc(done, f.(kids := Hoist(c, f.kids, false))), Hoist(c, f.rest, top)) == Append(done, Hoist(c, f, top))
  {
    SnocAppend(done, f.(kids := Hoist(c, f.kids, false)), Hoist(c, f.rest, top));
  }

  method NumNodes(list: seq<Process>, ghost f: Forest) returns (nodes: nat)
    requires Live(f) && list == Roots(f)
    ensures nodes == Size(f)
    decreases Size(f)
  {
    nodes := 0;
    ghost var rest := f;
    for i := 0 to |list|
      invariant Live(rest) && list[i..] == Roots(rest) && Size(rest) <= Size(f)
      invariant nodes + i + Size(rest) == Size(f)
    {
      assert Live(rest.rest);
      Allocated(rest.rest);
      var below := NumNodes(list[i].childList, rest.kids);
      nodes := nodes + below;
      rest := rest.rest;
    }
    nodes := nodes + |list|;
  }

  class ProcessTree {
    var startTime: real
    var duration: real
    var samplePeriod: real

    constructor (startTime: real, duration: real, samplePeriod: real)
      ensures this.startTime == startTime && this.duration == duration && this.samplePeriod == samplePeriod
    {
      this.startTime, this.duration, this.samplePeriod := startTime, duration, samplePeriod;
    }

    function Clock(): Clock
      reads this
    {
      Pruning.Clock(startTime, duration, samplePeriod)
    }

    // ---- prune -------------------------------------------------------------------

    method IsIdleBackgroundProcessWithoutChildren(p: Process, ghost kids: Forest) returns (idle: bool)
      requires p.childList == Roots(kids) && Live(kids)
      ensures idle == IdleBackground(Clock(), p.Snapshot(), kids)
    {
      var processEnd := p.startTime + p.duration;
      idle := false;
      if && !p.active
         && processEnd >= startTime + duration
         && p.startTime > startTime
         && p.duration > 0.9 * duration {
        var below := NumNodes(p.childList, kids);
        idle := below == 0;
      }
    }

    // The list up to the index is pruned; the rest will be.
    ghost predicate HalfPruned(owner: Process, idx: nat, done: Forest, rest: Forest, f: Forest, top: bool)
      reads this, owner, Objs(done), Objs(rest)
    {
      && Scanning(owner, done, rest) && idx == Length(done) && |owner.childList| == idx + Length(rest)
      && Objs(done) + Objs(rest) <= Objs(f) && Size(rest) <= Size(f)
      && Append(done, Hoist(Clock(), rest, top)) == Hoist(Clock(), f, top)
    }

    // prune(process_subtree, parent)
    method Prune(owner: Process, parent: Process?, ghost f: Forest) returns (removed: nat)
      requires Holds(owner, f)
      modifies {owner}`childList, Objs(f)`childList
      ensures Holds(owner, Hoist(Clock(), f, parent == null))
      ensures removed == Size(f) - Size(Hoist(Clock(), f, parent == null))
      decreases Size(f), 1
    {
      ghost var done: Forest, rest: Forest := Empty, f;
      var idx: nat := 0;
      removed := 0;
      UnderIndex(owner, done, rest);
      while idx < |owner.childList|
        invariant HalfPruned(owner, idx, done, rest, f, parent == null)
        invariant removed + Size(done) + Size(rest) == Size(f)
        decreases Size(rest)
      {
        var r;
        r, idx, done, rest := PruneNext(owner, idx, parent, done, rest, f);
        removed := removed + r;
      }
      AppendEmpty(done);
    }

    // The body of the loop.
    method PruneNext(owner: Process, idx: nat, parent: Process?, ghost done: Forest, ghost rest: Forest, ghost f: Forest)
      returns (removed: nat, idx': nat, ghost done': Forest, ghost rest': Forest)
      requires HalfPruned(owner, idx, done, rest, f, parent == null) && idx < |owner.childList|
      modifies {owner}`childList, Objs(f)`childList
      ensures HalfPruned(owner, idx', done', rest', f, parent == null) && Size(rest') < Size(rest)
      ensures removed + Size(done') + Size(rest') == Size(done) + Size(rest)
      decreases Size(f), 0
    {
      UnderIndex(owner, done, rest);
      var p := owner.childList[idx];
      var doomed := IsDoomed(owner, p, parent, done, rest);
      if doomed {
        SpliceChildren(owner, idx, p, done, rest);
        HoistDoomed(Clock(), rest, parent == null);
        removed, idx' := 1, idx;
        done', rest' := done, MoveFront(rest.kids, rest.rest);
      } else {
        removed := PruneBelow(owner, p, done, rest);
        HoistKept(Clock(), done, rest, parent == null);
        idx' := idx + 1;
        done', rest' := Snoc(done, rest.(kids := Hoist(Clock(), rest.kids, false))), rest.rest;
      }
      UnderIndex(owner, done', rest');
    }

    // The test on the process under the index.
    method IsDoomed(owner: Process, p: Process, parent: Process?, ghost done: Forest, ghost f: Forest)
      returns (doomed: bool)
      requires Scanning(owner, done, f) && f.Tree? && p == f.proc
      ensures Scanning(owner, done, f)
      ensures doomed == Doomed(Clock(), f.info, f.kids, parent == null)
    {
      UnderIndex(owner, done, f);
      Allocated(done);
      Allocated(f);
      doomed := false;
      if parent != null || |p.childList| == 0 {
        var idle := IsIdleBackgroundProcessWithoutChildren(p, f.kids);
        if idle {
          doomed := true;
        } else if p.duration <= 2.0 * samplePeriod {
          doomed := true;
        }
      }
    }

    // process_subtree.pop(idx), then every child of p inserted at idx
    method SpliceChildren(owner: Process, idx: nat, p: Process, ghost done: Forest, ghost f: Forest)
      requires Scanning(owner, done, f) && f.Tree? && p == f.proc && idx == Length(done)
      modifies {owner}`childList
      ensures var g := MoveFront(f.kids, f.rest);
        Scanning(owner, done, g) && Objs(g) <= Objs(f) && Size(g) == Size(f) - 1
    {
      UnderIndex(owner, done, f);
      Allocated(done);
      Allocated(f);
      RootsLength(done);
      Open(f);
      PopAfter(Roots(done), p, Roots(f.rest));
      owner.childList := Pop(owner.childList, idx);
      InsertChildren(owner, idx, p, Roots(done), f.kids, f.rest);
      SplicedScan(owner, done, f);
    }

    method InsertChildren(owner: Process, idx: nat, p: Process, ghost before: seq<Process>, ghost kids: Forest, ghost after: Forest)
      requires p != owner && p.childList == Roots(kids)
      requires owner.childList == before + Roots(after) && idx == |before|
      modifies {owner}`childList
      ensures owner.childList == before + Roots(MoveFront(kids, after))
    {
      ghost var left, moved := kids, after;
      for i := 0 to |p.childList|
        invariant p.childList[i..] == Roots(left)
        invariant owner.childList == before + Roots(moved)
        invariant MoveFront(left, moved) == MoveFront(kids, after)
      {
        var c := p.childList[i];
        InsertAfter(before, c, Roots(moved));
        owner.childList := InsertAt(owner.childList, idx, c);
        left, moved := left.rest, left.(rest := moved);
      }
    }

    // The recursive call on the process under the index.
    method PruneBelow(owner: Process, p: Process, ghost done: Forest, ghost f: Forest) returns (removed: nat)
      requires Scanning(owner, done, f) && f.Tree? && p == f.proc
      modifies {p}`childList, Objs(f.kids)`childList
      ensures var g := f.(kids := Hoist(Clock(), f.kids, false));
        && Scanning(owner, Snoc(done, g), f.rest) && Length(Snoc(done, g)) == Length(done) + 1
        && Objs(Snoc(done, g)) + Objs(f.rest) <= Objs(done) + Objs(f)
        && removed + Size(Snoc(done, g)) + Size(f.rest) == Size(done) + Size(f)
      decreases Size(f.kids), 2
    {
      UnderIndex(owner, done, f);
      HoistObjects(Clock(), f.kids, false);
      HoistDistinct(Clock(), f.kids, false);
      Allocated(done);
      Allocated(f.rest);
      removed := Prune(p, p, f.kids);
      ghost var g := f.(kids := Hoist(Clock(), f.kids, false));
      HeadRedone(owner, done, f, g);
      StepPast(owner, done, g);
    }

    // ---- merge_processes ---------------------------------------------------------

    // merge_processes(p1, p2)
    method MergeProcesses(p1: Process, p2: Process)
      requires p1 != p2
      modifies {p1}`samples, {p1}`startTime, {p1}`duration
      ensures p1.Snapshot() == MergeInfo(old(p1.Snapshot()), old(p2.Snapshot()))
    {
      p1.samples := p1.samples + p2.samples;
      p1.samples := SortByTime(p1.samples);
      var p1time, p2time := p1.startTime, p2.startTime;
      p1.startTime := Min(p1time, p2time);
      var pendtime := Max(p1time + p1.duration, p2time + p2.duration);
      p1.duration := pendtime - p1.startTime;
    }

    // ---- merge_siblings ----------------------------------------------------------

    // The list up to the index is merged; the rest will be.
    ghost predicate HalfMerged(owner: Process, idx: nat, done: Forest, rest: Forest, f: Forest)
      reads owner, Objs(done), Objs(rest)
    {
      && Scanning(owner, done, rest) && idx == Length(done) && |owner.childList| == idx + Length(rest)
      && (rest.Empty? ==> done.Empty?) && Objs(done) + Objs(rest) <= Objs(f) && Size(rest) <= Size(f)
      && Append(done, Siblings(rest)) == Siblings(f)
    }

    // merge_siblings(process_subtree)
    method MergeSiblings(owner: Process, ghost f: Forest) returns (removed: nat)
      requires Holds(owner, f)
      modifies {owner}`childList, Objs(f)`childList, Objs(f)`samples, Objs(f)`startTime, Objs(f)`duration
      ensures Holds(owner, Siblings(f))
      ensures removed == Size(f) - Size(Siblings(f))
      decreases Size(f), 1
    {
      ghost var done: Forest, rest: Forest := Empty, f;
      var idx: nat := 0;
      removed := 0;
      UnderIndex(owner, done, rest);
      while idx < |owner.childList| - 1
        invariant HalfMerged(owner, idx, done, rest, f)
        invariant removed + Size(done) + Size(rest) == Size(f)
        decreases Length(rest)
      {
        var r;
        r, idx, done, rest := MergeNext(owner, idx, done, rest, f);
        removed := removed + r;
      }
      if |owner.childList| > 0 {
        UnderIndex(owner, done, rest);
        var r := FinishHead(owner, owner.childList[|owner.childList| - 1], done, rest);
        removed := removed + r;
        done, rest := Snoc(done, rest.(kids := Siblings(rest.kids))), rest.rest;
      }
      AppendEmpty(done);
    }

    // The body of the loop.
    method MergeNext(owner: Process, idx: nat, ghost done: Forest, ghost rest: Forest, ghost f: Forest)
      returns (removed: nat, idx': nat, ghost done': Forest, ghost rest': Forest)
      requires HalfMerged(owner, idx, done, rest, f) && idx < |owner.childList| - 1
      modifies {owner}`childList, Objs(f)`childList, Objs(f)`samples, Objs(f)`startTime, Objs(f)`duration
      ensures HalfMerged(owner, idx', done', rest', f) && Length(rest') < Length(rest)
      ensures removed + Size(done') + Size(rest') == Size(done) + Size(rest)
      decreases Size(f), 0
    {
      UnderIndex(owner, done, rest);
      SecondRoot(owner, done, rest);
      var p, nextp := owner.childList[idx], owner.childList[idx + 1];
      if nextp.cmd == p.cmd {
        FoldNext(owner, idx, p, nextp, done, rest);
        var r := MergeBelow(owner, p, done, Fold(rest));
        removed, idx' := r + 1, idx;
        done', rest' := done, Fold(rest).(kids := Siblings(Fold(rest).kids));
      } else {
        removed := FinishHead(owner, p, done, rest);
        idx' := idx + 1;
        done', rest' := Snoc(done, rest.(kids := Siblings(rest.kids))), rest.rest;
      }
      UnderIndex(owner, done', rest');
    }

    // The right neighbour disappears into p.
    method FoldNext(owner: Process, idx: nat, p: Process, nextp: Process, ghost done: Forest, ghost f: Forest)
      requires Scanning(owner, done, f) && f.Tree? && f.rest.Tree?
      requires idx == Length(done) && p == f.proc && nextp == f.rest.proc
      modifies {owner}`childList, {p}`childList, {p}`samples, {p}`startTime, {p}`duration
      ensures Scanning(owner, done, Fold(f)) && Objs(Fold(f)) <= Objs(f) && Size(Fold(f)) == Size(f) - 1
      ensures Length(Fold(f)) == Length(f) - 1
    {
      UnderIndex(owner, done, f);
      NextUnderIndex(owner, done, f);
      Allocated(done);
      Allocated(f.kids);
      Allocated(f.rest);
      RootsLength(done);
      PopSecond(Roots(done), p, nextp, Roots(f.rest.rest));
      Absorb(owner, idx, p, nextp);
      FoldedScan(owner, done, f, Fold(f));
    }

    method Absorb(owner: Process, idx: nat, p: Process, nextp: Process)
      requires owner != p && p != nextp && owner != nextp && idx + 1 < |owner.childList|
      modifies {owner}`childList, {p}`childList, {p}`samples, {p}`startTime, {p}`duration
      ensures owner.childList == Pop(old(owner.childList), idx + 1)
      ensures p.Snapshot() == MergeInfo(old(p.Snapshot()), old(nextp.Snapshot()))
      ensures p.childList == old(p.childList) + old(nextp.childList)
    {
      owner.childList := Pop(owner.childList, idx + 1);
      p.childList := p.childList + nextp.childList;
      MergeProcesses(p, nextp);
    }

    // The recursive call on the process under the index.
    method MergeBelow(owner: Process, p: Process, ghost done: Forest, ghost f: Forest) returns (removed: nat)
      requires Scanning(owner, done, f) && f.Tree? && p == f.proc
      modifies {p}`childList, Objs(f.kids)`childList, Objs(f.kids)`samples, Objs(f.kids)`startTime, Objs(f.kids)`duration
      ensures var g := f.(kids := Siblings(f.kids));
        && Scanning(owner, done, g) && Objs(g) <= Objs(f) && removed + Size(g) == Size(f)
        && Siblings(g) == Siblings(f)
      decreases Size(f.kids), 2
    {
      UnderIndex(owner, done, f);
      EarlyDescent(f);
      SiblingsShape(f.kids);
      Allocated(done);
      Allocated(f.rest);
      removed := MergeSiblings(p, f.kids);
      HeadRedone(owner, done, f, f.(kids := Siblings(f.kids)));
    }

    // The same on a head that no neighbour will join any more.
    method FinishHead(owner: Process, p: Process, ghost done: Forest, ghost f: Forest) returns (removed: nat)
      requires Scanning(owner, done, f) && f.Tree? && !Twins(f) && p == f.proc
      modifies {p}`childList, Objs(f.kids)`childList, Objs(f.kids)`samples, Objs(f.kids)`startTime, Objs(f.kids)`duration
      ensures var d := Snoc(done, f.(kids := Siblings(f.kids)));
        && Scanning(owner, d, f.rest) && Length(d) == Length(done) + 1
        && Objs(d) + Objs(f.rest) <= Objs(done) + Objs(f)
        && removed + Size(d) + Size(f.rest) == Size(done) + Size(f)
        && Append(d, Siblings(f.rest)) == Append(done, Siblings(f))
      decreases Size(f.kids), 3
    {
      removed := MergeBelow(owner, p, done, f);
      ghost var g := f.(kids := Siblings(f.kids));
      StepPast(owner, done, g);
      SnocAppend(done, g, Siblings(f.rest));
    }

    // ---- merge_runs --------------------------------------------------------------

    // The list up to the index is collapsed; the rest will be.
    ghost predicate HalfCollapsed(owner: Process, idx: nat, done: Forest, rest: Forest, f: Forest)
      reads owner, Objs(done), Objs(rest)
    {
      && Scanning(owner, done, rest) && idx == Length(done) && |owner.childList| == idx + Length(rest)
      && Objs(done) + Objs(rest) <= Objs(f) && Size(rest) <= Size(f)
      && Append(done, Runs(rest)) == Runs(f)
    }

    // merge_runs(process_subtree)
    method MergeRuns(owner: Process, ghost f: Forest) returns (removed: nat)
      requires Holds(owner, f)
      modifies {owner}`childList, Objs(f)`childList, Objs(f)`samples, Objs(f)`startTime, Objs(f)`duration
      ensures Holds(owner, Runs(f)) && owner.childList == old(owner.childList)
      ensures removed == Size(f) - Size(Runs(f))
      decreases Size(f), 1
    {
      ghost var done: Forest, rest: Forest := Empty, f;
      var idx: nat := 0;
      removed := 0;
      UnderIndex(owner, done, rest);
      while idx < |owner.childList|
        invariant HalfCollapsed(owner, idx, done, rest, f) && owner.childList == old(owner.childList)
        invariant removed + Size(done) + Size(rest) == Size(f)
        decreases Size(rest)
      {
        var r;
        r, idx, done, rest := CollapseNext(owner, idx, done, rest, f);
        removed := removed + r;
      }
      UnderIndex(owner, done, rest);
      AppendEmpty(done);
    }

    // The body of the loop.
    method CollapseNext(owner: Process, idx: nat, ghost done: Forest, ghost rest: Forest, ghost f: Forest)
      returns (removed: nat, idx': nat, ghost done': Forest, ghost rest': Forest)
      requires HalfCollapsed(owner, idx, done, rest, f) && idx < |owner.childList|
      modifies {owner}`childList, Objs(f)`childList, Objs(f)`samples, Objs(f)`startTime, Objs(f)`duration
      ensures HalfCollapsed(owner, idx', done', rest', f) && owner.childList == old(owner.childList)
      ensures Size(rest') < Size(rest) && removed + Size(done') + Size(rest') == Size(done) + Size(rest)
      decreases Size(f), 0
    {
      UnderIndex(owner, done, rest);
      OnlyChild(rest.proc, rest.kids);
      var p := owner.childList[idx];
      if |p.childList| == 1 && p.childList[0].cmd == p.cmd {
        TakeOver(owner, p, p.childList[0], done, rest);
        CollapseFacts(rest);
        removed, idx' := 1, idx;
        done', rest' := done, Collapse(rest);
      } else {
        removed := RunsBelow(owner, p, done, rest);
        ghost var g := rest.(kids := Runs(rest.kids));
        StepPast(owner, done, g);
        SnocAppend(done, g, Runs(rest.rest));
        idx' := idx + 1;
        done', rest' := Snoc(done, g), rest.rest;
      }
      UnderIndex(owner, done', rest');
    }

    // p adopts the children and the samples of its only child.
    method TakeOver(owner: Process, p: Process, child: Process, ghost done: Forest, ghost f: Forest)
      requires Scanning(owner, done, f) && IsRun(f) && p == f.proc && child == f.kids.proc
      modifies {p}`childList, {p}`samples, {p}`startTime, {p}`duration
      ensures Scanning(owner, done, Collapse(f))
    {
      UnderIndex(owner, done, f);
      Allocated(done);
      Allocated(f);
      Open(f.kids);
      p.childList := child.childList;
      MergeProcesses(p, child);
      HeadRedone(owner, done, f, Collapse(f));
    }

    // The recursive call on the process under the index.
    method RunsBelow(owner: Process, p: Process, ghost done: Forest, ghost f: Forest) returns (removed: nat)
      requires Scanning(owner, done, f) && f.Tree? && p == f.proc
      modifies {p}`childList, Objs(f.kids)`childList, Objs(f.kids)`samples, Objs(f.kids)`startTime, Objs(f.kids)`duration
      ensures var g := f.(kids := Runs(f.kids));
        Scanning(owner, done, g) && Objs(g) <= Objs(f) && removed + Size(g) == Size(f)
      decreases Size(f.kids), 2
    {
      UnderIndex(owner, done, f);
      RunsShape(f.kids);
      Allocated(done);
      Allocated(f.rest);
      removed := MergeRuns(p, f.kids);
      HeadRedone(owner, done, f, f.(kids := Runs(f.kids)));
    }

    // The three passes of __init__, in order.
    method Reduce(owner: Process, ghost f: Forest) returns (pruned: nat, threads: nat, runs: nat)
      requires Holds(owner, f)
      modifies {owner}`childList, Objs(f)`childList, Objs(f)`samples, Objs(f)`startTime, Objs(f)`duration
      ensures Holds(owner, Merging.Reduce(Clock(), f))
      ensures pruned + threads + runs == Size(f) - Size(Merging.Reduce(Clock(), f))
    {
      ghost var g := Hoist(Clock(), f, true);
      HoistObjects(Clock(), f, true);
      SiblingsShape(g);
      pruned := Prune(owner, null, f);
      threads := MergeSiblings(owner, g);
      runs := MergeRuns(owner, Siblings(g));
    }
  }

  lemma SplicedScan(owner: Process, done: Forest, f: Forest)
    requires f.Tree? && owner !in Objs(done) && owner !in Objs(f) && Objs(done) !! Objs(f) && Distinct(done) && Distinct(f)
    requires Live(done) && Live(f.kids) && Live(f.rest)
    requires owner.childList == Roots(done) + Roots(MoveFront(f.kids, f.rest))
    ensures var g := MoveFront(f.kids, f.rest);
      Scanning(owner, done, g) && Objs(g) <= Objs(f) && Size(g) == Size(f) - 1
  {
    Open(f);
    MoveFrontFacts(f.kids, f.rest);
    MoveFrontDistinct(f.kids, f.rest);
  }

  lemma SecondRoot(owner: Process, done: Forest, f: Forest)
    requires Scanning(owner, done, f) && f.Tree? && Length(f) > 1
    ensures f.rest.Tree? && |owner.childList| > Length(done) + 1 && owner.childList[Length(done) + 1] == f.rest.proc && f.rest.proc.cmd == f.rest.info.cmd
  {
    RootsLength(done);
    NextUnderIndex(owner, done, f);
  }

  lemma NextUnderIndex(owner: Process, done: Forest, f: Forest)
    requires Scanning(owner, done, f) && f.Tree? && f.rest.Tree?
    ensures f.rest.proc.Snapshot() == f.rest.info && f.rest.proc.childList == Roots(f.rest.kids)
    ensures f.rest.proc != f.proc && f.proc !in Objs(f.rest.kids) && f.proc !in Objs(f.rest.rest)
    ensures f.rest.proc != owner && owner !in Objs(f.rest.kids) && owner !in Objs(f.rest.rest)
    ensures Live(f.rest.kids) && Live(f.rest.rest)
    ensures Roots(f) == [f.proc] + ([f.rest.proc] + Roots(f.rest.rest))
  {
    OpenLive(f);
    OpenLive(f.rest);
    Open(f.rest);
  }

  lemma OnlyChild(p: Process, kids: Forest)
    requires Holds(p, kids)
    ensures |p.childList| == 1 <==> kids.Tree? && kids.rest.Empty?
    ensures kids.Tree? ==> p.childList[0] == kids.proc && kids.proc.cmd == kids.info.cmd
  {
    RootsLength(kids);
  }

  lemma {:induction false} FoldedScan(owner: Process, done: Forest, f: Forest, g: Forest)
    requires f.Tree? && f.rest.Tree? && g == Fold(f)
    requires owner !in Objs(done) && owner !in Objs(f) && Objs(done) !! Objs(f) && Distinct(done) && Distinct(f)
    requires Live(done) && Live(f.kids) && Live(f.rest.kids) && Live(f.rest.rest)
    requires owner.childList == Roots(done) + ([f.proc] + Roots(f.rest.rest))
    requires g.proc.childList == Roots(f.kids) + Roots(f.rest.kids) && g.proc.Snapshot() == g.info
    ensures Scanning(owner, done, g) && Objs(g) <= Objs(f) && Size(g) == Size(f) - 1 && Length(g) == Length(f) - 1
  {
    FoldFacts(f);
    AppendFacts(f.kids, f.rest.kids);
    AppendLive(f.kids, f.rest.kids);
  }
}
