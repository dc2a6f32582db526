/**
 Processes with parent links, and the forest that the links describe, for Build.

 A process is Rooted if its links lead to one without a parent, after that many links. KidsOf are the
 children of a process in list order. Grow draws the processes of one level with everything below them;
 every process hangs below the level it was reached from (GrowSound, GrowComplete), none occurs twice
 (GrowDistinct), and one is above another if and only if links lead up to it (GrowAbove, AboveGrows).
 DrawnIsLive ties the picture to child lists on the heap.
 */
module BuildSteps {
  import opened Forest
  import opened ProcessTree

  // The links come from log data, so nothing guarantees that they lead to a root; a process whose
  // links never do so ends up in no list that is reachable from the top.

  type Links = map<Process, Process?>

  // par has the links of the processes in the list. They may lead out of it: `crop` takes processes
  // from the list, but not from the processes left.
  ghost predicate Linked(list: seq<Process>, par: Links) {
    par.Keys == set p | p in list
  }

  // n links lead from p to a root.
  ghost predicate Rooted(par: Links, p: Process, n: nat) {
    p in par && if n == 0 then par[p] == null else par[p] != null && Rooted(par, par[p], n - 1)
  }

  ghost predicate ReachesRoot(par: Links, p: Process) {
    exists n: nat :: Rooted(par, p, n)
  }

  // The process k links above p.
  ghost function Up(par: Links, p: Process, k: nat): Process? {
    if k == 0 then p
    else if p in par && par[p] != null then Up(par, par[p], k - 1)
    else null
  }

  ghost predicate LeadsTo(par: Links, p: Process, u: Process) {
    exists k: nat :: 0 < k && Up(par, p, k) == u
  }

  // The children of q, in list order.
  function KidsOf(list: seq<Process>, par: Links, q: Process?): seq<Process> {
    if list == [] then []
    else (if list[0] in par && par[list[0]] == q then [list[0]] else []) + KidsOf(list[1..], par, q)
  }

  ghost predicate NoRepeats(ps: seq<Process>) {
    ps == [] || (ps[0] !in ps[1..] && NoRepeats(ps[1..]))
  }

  lemma {:induction false} NoRepeatsAt(ps: seq<Process>, i: nat)
    requires NoRepeats(ps) && i < |ps|
    ensures forall k :: 0 <= k < |ps| && k != i ==> ps[k] != ps[i]
  {
    if i > 0 {
      NoRepeatsAt(ps[1..], i - 1);
      assert forall k :: 0 < k < |ps| ==> ps[k] == ps[1..][k - 1];
    }
  }

  // ---- the depth of a process is unique and bounded ------------------------------

  lemma {:induction false} OneDepth(par: Links, p: Process, m: nat, n: nat)
    requires Rooted(par, p, m) && Rooted(par, p, n)
    ensures m == n
  {
    if m > 0 && n > 0 {
      OneDepth(par, par[p], m - 1, n - 1);
    }
  }

  ghost predicate Bounds(list: seq<Process>, par: Links, bound: nat) {
    forall p, n: nat :: p in list && Rooted(par, p, n) ==> n < bound
  }

  lemma {:induction false} SomeBound(list: seq<Process>, par: Links) returns (bound: nat)
    ensures Bounds(list, par, bound)
  {
    if list == [] {
      bound := 0;
    } else {
      bound := SomeBound(list[1..], par);
      assert forall p :: p in list ==> p == list[0] || p in list[1..];
      if n: nat :| Rooted(par, list[0], n) {
        forall m: nat | Rooted(par, list[0], m) ensures m == n {
          OneDepth(par, list[0], m, n);
        }
        bound := if bound > n then bound else n + 1;
      }
    }
  }

  lemma {:induction false} KidsOfMember(list: seq<Process>, par: Links, q: Process?, p: Process)
    ensures p in KidsOf(list, par, q) <==> p in list && p in par && par[p] == q
  {
    if list != [] {
      KidsOfMember(list[1..], par, q, p);
    }
  }

  lemma {:induction false} KidsOfNoRepeats(list: seq<Process>, par: Links, q: Process?)
    requires NoRepeats(list)
    ensures NoRepeats(KidsOf(list, par, q))
  {
    if list != [] {
      KidsOfNoRepeats(list[1..], par, q);
      KidsOfMember(list[1..], par, q, list[0]);
      var k := KidsOf(list[1..], par, q);
      assert ([list[0]] + k)[1..] == k;
      assert [] + k == k;
    }
  }

  lemma {:induction false} KidsOfSnoc(list: seq<Process>, par: Links, q: Process?, p: Process)
    ensures KidsOf(list + [p], par, q) == KidsOf(list, par, q) + (if p in par && par[p] == q then [p] else [])
  {
    if list == [] {
      assert list + [p] == [p] && [p][1..] == [];
    } else {
      KidsOfSnoc(list[1..], par, q, p);
      assert (list + [p])[1..] == list[1..] + [p];
      var (first, rest, last) := (if list[0] in par && par[list[0]] == q then [list[0]] else [],
                                  KidsOf(list[1..], par, q), if p in par && par[p] == q then [p] else []);
      assert first + (rest + last) == first + rest + last;
    }
  }

  // u comes before v in the list.
  ghost predicate Precedes(list: seq<Process>, u: Process, v: Process) {
    exists i, j :: 0 <= i < j < |list| && list[i] == u && list[j] == v
  }

  lemma PrecedesLater(list: seq<Process>, first: seq<Process>, u: Process, v: Process)
    requires Precedes(list, u, v)
    ensures Precedes(first + list, u, v)
  {
    var i, j :| 0 <= i < j < |list| && list[i] == u && list[j] == v;
    assert (first + list)[|first| + i] == u && (first + list)[|first| + j] == v;
  }

  lemma PrecedesFirst(list: seq<Process>, u: Process, v: Process)
    requires v in list
    ensures Precedes([u] + list, u, v)
  {
    var j :| 0 <= j < |list| && list[j] == v;
    assert ([u] + list)[0] == u && ([u] + list)[j + 1] == v;
  }

  // Children stand in the order in which they are listed.
  lemma {:induction false} KidsInOrder(list: seq<Process>, par: Links, q: Process?, i: nat, j: nat)
    requires i < j < |list| && list[i] in par && list[j] in par && par[list[i]] == par[list[j]] == q
    ensures Precedes(KidsOf(list, par, q), list[i], list[j])
  {
    var kids := KidsOf(list[1..], par, q);
    if i == 0 {
      assert list[j] == list[1..][j - 1];
      KidsOfMember(list[1..], par, q, list[j]);
      PrecedesFirst(kids, list[0], list[j]);
    } else {
      KidsInOrder(list[1..], par, q, i - 1, j - 1);
      PrecedesLater(kids, if list[0] in par && par[list[0]] == q then [list[0]] else [], list[i], list[j]);
    }
  }

  // ---- the forest the links describe ---------------------------------------------

  datatype Table = Table(list: seq<Process>, par: Links, infos: map<Process, Info>, bound: nat) {
    ghost predicate Valid() {
      Linked(list, par) && Bounds(list, par, bound) && forall p :: p in list ==> p in infos
    }

    // All of ps lie `level` links below a root.
    ghost predicate AtLevel(ps: seq<Process>, level: nat) {
      forall p :: p in ps ==> p in list && Rooted(par, p, level)
    }

    function Kids(p: Process): seq<Process> { KidsOf(list, par, p) }
  }

  lemma KidsLevel(t: Table, p: Process, level: nat)
    requires Rooted(t.par, p, level)
    ensures t.AtLevel(t.Kids(p), level + 1)
  {
    forall k | k in t.Kids(p) ensures k in t.list && Rooted(t.par, k, level + 1) {
      KidsOfMember(t.list, t.par, p, k);
    }
  }

  // The processes ps with everything below them.
  ghost function Grow(t: Table, ps: seq<Process>, level: nat): Forest
    requires t.Valid() && t.AtLevel(ps, level)
    decreases t.bound - level, |ps|
  {
    if ps == [] then Empty
    else
      assert ps[0] in ps;
      KidsLevel(t, ps[0], level);
      Tree(ps[0], t.infos[ps[0]], Grow(t, t.Kids(ps[0]), level + 1), Grow(t, ps[1..], level))
  }

  lemma {:induction false} GrowRoots(t: Table, ps: seq<Process>, level: nat)
    requires t.Valid() && t.AtLevel(ps, level)
    ensures Roots(Grow(t, ps, level)) == ps
    decreases |ps|
  {
    if ps != [] {
      GrowRoots(t, ps[1..], level);
    }
  }

  // v is one of ps, or lies k links below one of them.
  ghost predicate Hangs(t: Table, ps: seq<Process>, level: nat, v: Process, k: nat) {
    v in t.list && Rooted(t.par, v, level + k) && Up(t.par, v, k) in ps
  }

  lemma {:induction false} UpStep(par: Links, v: Process, k: nat)
    ensures var u := Up(par, v, k); Up(par, v, k + 1) == if u != null && u in par then par[u] else null
  {
    if k > 0 && v in par && par[v] != null {
      UpStep(par, par[v], k - 1);
    }
  }

  // What hangs below the children of p hangs, one link further, below p; and conversely.
  lemma HangsBelow(t: Table, p: Process, level: nat, v: Process, k: nat)
    requires t.Valid()
    ensures Hangs(t, t.Kids(p), level + 1, v, k) <==> Hangs(t, [p], level, v, k + 1)
  {
    if v in t.list {
      UpStep(t.par, v, k);
      var u := Up(t.par, v, k);
      if u != null {
        KidsOfMember(t.list, t.par, p, u);
      }
    }
  }

  lemma HangsMore(t: Table, ps: seq<Process>, level: nat, v: Process, k: nat)
    requires ps != [] && (Hangs(t, [ps[0]], level, v, k) || Hangs(t, ps[1..], level, v, k))
    ensures Hangs(t, ps, level, v, k)
  {
  }

  lemma {:induction false} GrowSound(t: Table, ps: seq<Process>, level: nat, v: Process) returns (k: nat)
    requires t.Valid() && t.AtLevel(ps, level)
    requires v in Objs(Grow(t, ps, level))
    ensures Hangs(t, ps, level, v, k)
    decreases t.bound - level, |ps|
  {
    var p := ps[0];
    assert p in ps;
    KidsLevel(t, p, level);
    if v == p {
      k := 0;
    } else if v in Objs(Grow(t, t.Kids(p), level + 1)) {
      k := GrowSound(t, t.Kids(p), level + 1, v);
      HangsBelow(t, p, level, v, k);
      k := k + 1;
      HangsMore(t, ps, level, v, k);
    } else {
      k := GrowSound(t, ps[1..], level, v);
      HangsMore(t, ps, level, v, k);
    }
  }

  lemma {:induction false} GrowComplete(t: Table, ps: seq<Process>, level: nat, v: Process, k: nat)
    requires t.Valid() && t.AtLevel(ps, level)
    requires Hangs(t, ps, level, v, k)
    ensures v in Objs(Grow(t, ps, level))
    decreases t.bound - level, |ps|
  {
    var p := ps[0];
    assert p in ps;
    KidsLevel(t, p, level);
    if Up(t.par, v, k) != p {
      GrowComplete(t, ps[1..], level, v, k);
    } else if k > 0 {
      HangsBelow(t, p, level, v, k - 1);
      GrowComplete(t, t.Kids(p), level + 1, v, k - 1);
    }
  }

  lemma {:induction false} GrowDistinct(t: Table, ps: seq<Process>, level: nat)
    requires t.Valid() && t.AtLevel(ps, level) && NoRepeats(t.list) && NoRepeats(ps)
    ensures Distinct(Grow(t, ps, level))
    decreases t.bound - level, |ps|
  {
    if ps != [] {
      var p := ps[0];
      assert p in ps;
      KidsLevel(t, p, level);
      KidsOfNoRepeats(t.list, t.par, p);
      GrowDistinct(t, t.Kids(p), level + 1);
      GrowDistinct(t, ps[1..], level);
      HeadIsApart(t, ps, level);
    }
  }

  lemma HeadIsApart(t: Table, ps: seq<Process>, level: nat)
    requires t.Valid() && ps != [] && t.AtLevel(ps, level) && ps[0] !in ps[1..] && t.AtLevel(t.Kids(ps[0]), level + 1)
    ensures ps[0] !in Objs(Grow(t, ps[1..], level)) && ps[0] !in Objs(Grow(t, t.Kids(ps[0]), level + 1))
    ensures Objs(Grow(t, t.Kids(ps[0]), level + 1)) !! Objs(Grow(t, ps[1..], level))
  {
    var p := ps[0];
    assert p in ps;
    forall v | v in Objs(Grow(t, t.Kids(p), level + 1)) ensures v != p && v !in Objs(Grow(t, ps[1..], level)) {
      BelowIsApart(t, ps, level, v);
    }
    if p in Objs(Grow(t, ps[1..], level)) {
      var j := GrowSound(t, ps[1..], level, p);
      OneDepth(t.par, p, level, level + j);
    }
  }

  lemma BelowIsApart(t: Table, ps: seq<Process>, level: nat, v: Process)
    requires t.Valid() && ps != [] && t.AtLevel(ps[1..], level) && ps[0] !in ps[1..]
    requires Rooted(t.par, ps[0], level) && t.AtLevel(t.Kids(ps[0]), level + 1)
    requires v in Objs(Grow(t, t.Kids(ps[0]), level + 1))
    ensures v != ps[0] && v !in Objs(Grow(t, ps[1..], level))
  {
    var k := BelowHangs(t, ps[0], level, v);
    if v == ps[0] {
      OneDepth(t.par, v, level, level + k);
    }
    NotBeside(t, ps[0], ps[1..], level, v, k);
  }

  lemma BelowHangs(t: Table, p: Process, level: nat, v: Process) returns (k: nat)
    requires t.Valid() && t.AtLevel(t.Kids(p), level + 1) && v in Objs(Grow(t, t.Kids(p), level + 1))
    ensures k > 0 && Hangs(t, [p], level, v, k)
  {
    k := GrowSound(t, t.Kids(p), level + 1, v);
    HangsBelow(t, p, level, v, k);
    k := k + 1;
  }

  lemma NotBeside(t: Table, p: Process, rest: seq<Process>, level: nat, v: Process, k: nat)
    requires t.Valid() && t.AtLevel(rest, level) && p !in rest && Hangs(t, [p], level, v, k)
    ensures v !in Objs(Grow(t, rest, level))
  {
    if v in Objs(Grow(t, rest, level)) {
      var j := GrowSound(t, rest, level, v);
      HangsOnce(t, p, rest, level, v, k, j);
    }
  }

  lemma HangsOnce(t: Table, p: Process, rest: seq<Process>, level: nat, v: Process, k: nat, j: nat)
    requires p !in rest && Hangs(t, [p], level, v, k)
    ensures !Hangs(t, rest, level, v, j)
  {
    if Hangs(t, rest, level, v, j) {
      OneDepth(t.par, v, level + k, level + j);
    }
  }

  // In the forest u lies above v exactly when links lead from v to u.
  lemma {:induction false} GrowAbove(t: Table, ps: seq<Process>, level: nat, u: Process, v: Process, k: nat, j: nat)
    requires t.Valid() && t.AtLevel(ps, level)
    requires Hangs(t, ps, level, v, k) && 0 < j <= k && Up(t.par, v, j) == u
    ensures Above(Grow(t, ps, level), u, v)
    decreases t.bound - level, |ps|
  {
    var p := ps[0];
    assert p in ps;
    KidsLevel(t, p, level);
    if Up(t.par, v, k) != p {
      GrowAbove(t, ps[1..], level, u, v, k, j);
    } else {
      HangsBelow(t, p, level, v, k - 1);
      if j == k {
        GrowComplete(t, t.Kids(p), level + 1, v, k - 1);
      } else {
        GrowAbove(t, t.Kids(p), level + 1, u, v, k - 1, j);
      }
    }
  }

  lemma {:induction false} AboveGrows(t: Table, ps: seq<Process>, level: nat, u: Process, v: Process) returns (j: nat)
    requires t.Valid() && t.AtLevel(ps, level)
    requires Above(Grow(t, ps, level), u, v)
    ensures 0 < j && Up(t.par, v, j) == u
    decreases t.bound - level, |ps|
  {
    var p := ps[0];
    assert p in ps;
    KidsLevel(t, p, level);
    var kids := Grow(t, t.Kids(p), level + 1);
    if p == u && v in Objs(kids) {
      j := GrowSound(t, t.Kids(p), level + 1, v);
      HangsBelow(t, p, level, v, j);
      j := j + 1;
    } else if Above(kids, u, v) {
      j := AboveGrows(t, t.Kids(p), level + 1, u, v);
    } else {
      j := AboveGrows(t, ps[1..], level, u, v);
    }
  }

  // Once the child lists hold what the links say, the heap shows this forest.
  // Infos and child lists of the processes are what the table says.
  ghost predicate Shown(t: Table, p: Process)
    reads p
  {
    p in t.infos && t.infos[p] == p.Snapshot() && p.childList == t.Kids(p)
  }

  // The forest is drawn from the table.
  ghost predicate Drawn(t: Table, f: Forest) {
    f.Empty? ||
    (&& f.proc in t.infos && f.info == t.infos[f.proc] && Roots(f.kids) == t.Kids(f.proc)
     && Drawn(t, f.kids) && Drawn(t, f.rest))
  }

  lemma {:induction false} GrowIsDrawn(t: Table, ps: seq<Process>, level: nat)
    requires t.Valid() && t.AtLevel(ps, level)
    ensures Drawn(t, Grow(t, ps, level))
    decreases t.bound - level, |ps|
  {
    if ps != [] {
      assert ps[0] in ps;
      KidsLevel(t, ps[0], level);
      GrowIsDrawn(t, t.Kids(ps[0]), level + 1);
      GrowIsDrawn(t, ps[1..], level);
      DrawnHead(t, ps, level);
    }
  }

  lemma DrawnHead(t: Table, ps: seq<Process>, level: nat)
    requires t.Valid() && t.AtLevel(ps, level) && ps != [] && t.AtLevel(t.Kids(ps[0]), level + 1)
    requires Drawn(t, Grow(t, t.Kids(ps[0]), level + 1)) && Drawn(t, Grow(t, ps[1..], level))
    ensures Drawn(t, Grow(t, ps, level))
  {
    assert ps[0] in ps;
    GrowRoots(t, t.Kids(ps[0]), level + 1);
  }

  lemma {:induction false} DrawnIsLive(t: Table, f: Forest)
    requires Drawn(t, f) && forall p :: p in Objs(f) ==> Shown(t, p)
    ensures Live(f)
  {
    if f.Tree? {
      assert Shown(t, f.proc);
      DrawnIsLive(t, f.kids);
      DrawnIsLive(t, f.rest);
    }
  }

  // ---- build() -------------------------------------------------------------------

  // The forest contains each process whose links reach a root exactly once and no other process
  // (so all of them exactly when no links go round in a circle or out of the list), and it has u
  // above v exactly when links lead from v to u.
  ghost predicate Built(list: seq<Process>, par: Links, f: Forest) {
    && Distinct(f)
    && Objs(f) == (set v | v in list && ReachesRoot(par, v))
    && (forall u, v :: u in list && v in list ==> (Above(f, u, v) <==> v in Objs(f) && LeadsTo(par, v, u)))
  }

  lemma TopsAtLevel(t: Table)
    ensures t.AtLevel(KidsOf(t.list, t.par, null), 0)
  {
    forall p | p in KidsOf(t.list, t.par, null) ensures p in t.list && Rooted(t.par, p, 0) {
      KidsOfMember(t.list, t.par, null, p);
    }
  }

  lemma GrownMember(t: Table, v: Process)
    requires t.Valid() && t.AtLevel(KidsOf(t.list, t.par, null), 0)
    ensures v in Objs(Grow(t, KidsOf(t.list, t.par, null), 0)) <==> v in t.list && ReachesRoot(t.par, v)
  {
    var ps := KidsOf(t.list, t.par, null);
    if v in Objs(Grow(t, ps, 0)) {
      var k := GrowSound(t, ps, 0, v);
    }
    if v in t.list && ReachesRoot(t.par, v) {
      var n: nat :| Rooted(t.par, v, n);
      TopOf(t, v, n);
      GrowComplete(t, ps, 0, v, n);
    }
  }

  lemma GrownAbove(t: Table, u: Process, v: Process)
    requires t.Valid() && t.AtLevel(KidsOf(t.list, t.par, null), 0)
    ensures var f := Grow(t, KidsOf(t.list, t.par, null), 0);
      Above(f, u, v) <==> v in Objs(f) && LeadsTo(t.par, v, u)
  {
    var ps := KidsOf(t.list, t.par, null);
    var f := Grow(t, ps, 0);
    if Above(f, u, v) {
      AboveIsInside(f, u, v);
      var j := AboveGrows(t, ps, 0, u, v);
    }
    if v in Objs(f) && LeadsTo(t.par, v, u) {
      var j: nat :| 0 < j && Up(t.par, v, j) == u;
      var k := GrowSound(t, ps, 0, v);
      UpWithinDepth(t.par, v, k, j);
      GrowAbove(t, ps, 0, u, v, k, j);
    }
  }

  lemma {:induction false} TopOf(t: Table, v: Process, n: nat)
    requires t.Valid() && v in t.list && Rooted(t.par, v, n)
    ensures Hangs(t, KidsOf(t.list, t.par, null), 0, v, n)
  {
    KidsOfMember(t.list, t.par, null, v);
    if n > 0 {
      TopOf(t, t.par[v], n - 1);
    }
  }

  lemma {:induction false} UpWithinDepth(par: Links, v: Process, n: nat, j: nat)
    requires Rooted(par, v, n) && Up(par, v, j) != null
    ensures j <= n
  {
    if j > 0 {
      UpWithinDepth(par, par[v], n - 1, j - 1);
    }
  }

  // The child lists that build leaves.
  ghost predicate Listed(holder: Process, list: seq<Process>, par: Links)
    reads holder, list
  {
    holder.childList == KidsOf(list, par, null) && forall p :: p in list ==> p.childList == KidsOf(list, par, p)
  }

  ghost function Parents(list: seq<Process>): set<Process>
    reads list
  {
    set p | p in list && p.parent != null :: p.parent
  }
}
