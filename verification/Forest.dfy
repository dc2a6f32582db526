/**
 The process forest of process_tree.py.

 `Process` is the mutable object. `Forest` is an immutable picture of a child list and
 everything below it: the first tree of the list (its process object, the fields the passes
 read, its own child list) and the rest of the list. A picture names the objects it shows, so
 the set of objects it covers is a function of the picture alone and needs no heap.
 */
module Forest {
  import opened Samples

  class Process {
    const pid: int
    var cmd: string
    var exe: string
    var args: seq<string>
    var ppid: int
    var startTime: real
    var duration: real
    var active: bool
    var samples: seq<Sample>
    var parent: Process?
    var childList: seq<Process>

    constructor (pid: int, cmd: string, ppid: int, startTime: real)
      ensures this.pid == pid && this.cmd == cmd && this.ppid == ppid && this.startTime == startTime
      ensures exe == cmd && args == [] && duration == 0.0 && !active && samples == [] && parent == null && childList == []
    {
      this.pid, this.cmd, this.ppid, this.startTime := pid, cmd, ppid, startTime;
      exe, args := cmd, [];
      duration, active, samples, parent, childList := 0.0, false, [], null, [];
    }

    function Snapshot(): Info
      reads this
    {
      Info(cmd, startTime, duration, active, samples)
    }
  }

  datatype Info = Info(cmd: string, start: real, duration: real, active: bool, samples: seq<Sample>) {
    function End(): real { start + duration }
  }

  datatype Forest = Empty | Tree(proc: Process, info: Info, kids: Forest, rest: Forest)

  // num_nodes
  function Size(f: Forest): nat {
    if f.Empty? then 0 else 1 + Size(f.kids) + Size(f.rest)
  }

  ghost function Objs(f: Forest): set<Process> {
    if f.Empty? then {} else {f.proc} + Objs(f.kids) + Objs(f.rest)
  }

  // The list itself.
  function Roots(f: Forest): seq<Process> {
    if f.Empty? then [] else [f.proc] + Roots(f.rest)
  }

  // No process object occurs twice.
  ghost predicate Distinct(f: Forest) {
    f.Empty? ||
    (&& f.proc !in Objs(f.kids) && f.proc !in Objs(f.rest)
     && Objs(f.kids) !! Objs(f.rest)
     && Distinct(f.kids) && Distinct(f.rest))
  }

  // u lies properly above v
  ghost predicate Above(f: Forest, u: Process, v: Process) {
    f.Tree? &&
    ((f.proc == u && v in Objs(f.kids)) || Above(f.kids, u, v) || Above(f.rest, u, v))
  }

  // The heap looks exactly like the picture.
  ghost predicate Live(f: Forest)
    reads Objs(f)
  {
    f.Empty? ||
    (&& f.proc.Snapshot() == f.info && f.proc.childList == Roots(f.kids)
     && Live(f.kids) && Live(f.rest))
  }

  function Append(f: Forest, g: Forest): Forest {
    if f.Empty? then g else f.(rest := Append(f.rest, g))
  }

  // The trees of f, moved one by one to the front of g.
  function MoveFront(f: Forest, g: Forest): Forest {
    if f.Empty? then g else MoveFront(f.rest, f.(rest := g))
  }

  // One level of every definition at once.
  lemma Open(f: Forest)
    requires f.Tree?
    ensures Size(f) == 1 + Size(f.kids) + Size(f.rest)
    ensures Objs(f) == {f.proc} + Objs(f.kids) + Objs(f.rest)
    ensures Roots(f) == [f.proc] + Roots(f.rest)
    ensures Distinct(f) <==>
            && f.proc !in Objs(f.kids) && f.proc !in Objs(f.rest) && Objs(f.kids) !! Objs(f.rest)
            && Distinct(f.kids) && Distinct(f.rest)
  {
  }

  lemma OpenLive(f: Forest)
    requires f.Tree? && Live(f)
    ensures f.proc.Snapshot() == f.info && f.proc.childList == Roots(f.kids) && Live(f.kids) && Live(f.rest)
  {
  }

  lemma AppendFacts(f: Forest, g: Forest)
    ensures Size(Append(f, g)) == Size(f) + Size(g)
    ensures Objs(Append(f, g)) == Objs(f) + Objs(g)
    ensures Roots(Append(f, g)) == Roots(f) + Roots(g)
  {
    AppendSize(f, g);
    AppendObjs(f, g);
    AppendRoots(f, g);
  }

  lemma {:induction false} AppendSize(f: Forest, g: Forest)
    ensures Size(Append(f, g)) == Size(f) + Size(g)
  {
    if f.Tree? {
      AppendSize(f.rest, g);
    }
  }

  lemma {:induction false} AppendObjs(f: Forest, g: Forest)
    ensures Objs(Append(f, g)) == Objs(f) + Objs(g)
  {
    if f.Tree? {
      AppendObjs(f.rest, g);
    }
  }

  lemma {:induction false} AppendRoots(f: Forest, g: Forest)
    ensures Roots(Append(f, g)) == Roots(f) + Roots(g)
  {
    if f.Tree? {
      AppendRoots(f.rest, g);
    }
  }

  lemma {:induction false} AppendDistinct(f: Forest, g: Forest)
    ensures Distinct(Append(f, g)) <==> Distinct(f) && Distinct(g) && Objs(f) !! Objs(g)
  {
    if f.Tree? {
      AppendDistinct(f.rest, g);
      AppendFacts(f.rest, g);
    }
  }

  lemma {:induction false} AppendLive(f: Forest, g: Forest)
    ensures Live(Append(f, g)) <==> Live(f) && Live(g)
  {
    if f.Tree? {
      AppendLive(f.rest, g);
    }
  }

  lemma {:induction false} AppendEmpty(f: Forest)
    ensures Append(f, Empty) == f
  {
    if f.Tree? {
      AppendEmpty(f.rest);
    }
  }

  lemma {:induction false} AppendAssoc(f: Forest, g: Forest, h: Forest)
    ensures Append(Append(f, g), h) == Append(f, Append(g, h))
  {
    if f.Tree? {
      AppendAssoc(f.rest, g, h);
    }
  }

  lemma {:induction false} MoveFrontFacts(f: Forest, g: Forest)
    ensures Size(MoveFront(f, g)) == Size(f) + Size(g)
    ensures Objs(MoveFront(f, g)) == Objs(f) + Objs(g)
    ensures Live(MoveFront(f, g)) <==> Live(f) && Live(g)
  {
    if f.Tree? {
      MoveFrontFacts(f.rest, f.(rest := g));
    }
  }

  lemma {:induction false} MoveFrontDistinct(f: Forest, g: Forest)
    requires Distinct(f) && Distinct(g) && Objs(f) !! Objs(g)
    ensures Distinct(MoveFront(f, g))
  {
    if f.Tree? {
      Open(f.(rest := g));
      MoveFrontDistinct(f.rest, f.(rest := g));
    }
  }

  lemma {:induction false} AppendAbove(f: Forest, g: Forest, u: Process, v: Process)
    ensures Above(Append(f, g), u, v) <==> Above(f, u, v) || Above(g, u, v)
  {
    if f.Tree? {
      AppendAbove(f.rest, g, u, v);
    }
  }

  lemma {:induction false} AboveIsInside(f: Forest, u: Process, v: Process)
    ensures Above(f, u, v) ==> u in Objs(f) && v in Objs(f)
  {
    if f.Tree? {
      AboveIsInside(f.kids, u, v);
      AboveIsInside(f.rest, u, v);
    }
  }

  function Length(f: Forest): nat {
    if f.Empty? then 0 else 1 + Length(f.rest)
  }

  lemma {:induction false} RootsLength(f: Forest)
    ensures |Roots(f)| == Length(f)
  {
    if f.Tree? {
      RootsLength(f.rest);
    }
  }

  // Everything a picture shows exists, so a call that does not modify it cannot have created it.
  lemma {:induction false} Allocated(f: Forest)
    ensures forall o :: o in Objs(f) ==> allocated(o)
  {
    if f.Tree? {
      Allocated(f.kids);
      Allocated(f.rest);
    }
  }
}
