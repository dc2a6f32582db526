/** `update_ppids_for_daemons` */
module Daemons {
  // Services started through runuser(1) hang below init; those that by their pids belong to the rc
  // script are put below it, and the forest is built again.

  import opened Forest
  import opened ProcessTree
  import opened Wrappers
  import C = Compile
  import opened BuildSteps
  import B = Build

  // ---- get_max_pid ---------------------------------------------------------------

  const LOWEST: int := -100000000

  function Max(a: int, b: int): int { if a >= b then a else b }

  function MaxPid(f: Forest): int {
    if f.Empty? then LOWEST else Max(Max(f.proc.pid, MaxPid(f.kids)), MaxPid(f.rest))
  }

  lemma {:induction false} MaxPidIs(f: Forest)
    ensures forall v :: v in Objs(f) ==> v.pid <= MaxPid(f)
    ensures MaxPid(f) == LOWEST || exists v :: v in Objs(f) && v.pid == MaxPid(f)
  {
    if f.Tree? {
      MaxPidIs(f.kids);
      MaxPidIs(f.rest);
      assert f.proc in Objs(f);
    }
  }

  method GetMaxPid(list: seq<Process>, ghost f: Forest) returns (m: int)
    requires Live(f) && list == Roots(f)
    ensures m == MaxPid(f)
    decreases Size(f)
  {
    m := LOWEST;
    AtLeastLowest(f);
    ghost var rest := f;
    for i := 0 to |list|
      invariant Live(rest) && list[i..] == Roots(rest) && Size(rest) <= Size(f)
      invariant Max(m, MaxPid(rest)) == MaxPid(f) && m >= LOWEST
    {
      assert Live(rest.rest);
      Allocated(rest.rest);
      var below := GetMaxPid(list[i].childList, rest.kids);
      m := Max(m, Max(list[i].pid, below));
      rest := rest.rest;
    }
    AtLeastLowest(rest);
  }

  lemma AtLeastLowest(f: Forest)
    ensures MaxPid(f) >= LOWEST
  {
  }

  // ---- the forest below a process ----------------------------------------------------

  // end is the greatest pid below rc, or the sentinel.
  ghost predicate IsMaxBelow(list: seq<Process>, par: Links, rc: Process, end: int) {
    && end >= LOWEST
    && (forall v :: v in list && LeadsTo(par, v, rc) ==> v.pid <= end)
    && (end == LOWEST || exists v :: v in list && LeadsTo(par, v, rc) && v.pid == end)
  }

  // The links with p made a root: below p nothing changes, even if p itself reaches no root.
  ghost function Cut(par: Links, p: Process): Links { par[p := null] }

  lemma {:induction false} CutKids(list: seq<Process>, par: Links, p: Process, q: Process)
    requires p in par && par[p] != q
    ensures KidsOf(list, Cut(par, p), q) == KidsOf(list, par, q)
  {
    if list != [] {
      CutKids(list[1..], par, p, q);
    }
  }

  lemma {:induction false} CutUp(par: Links, p: Process, v: Process, k: nat)
    requires p in par && Up(Cut(par, p), v, k) != null
    ensures Up(par, v, k) == Up(Cut(par, p), v, k)
    decreases k
  {
    if k > 0 {
      CutUp(par, p, par[v], k - 1);
    }
  }

  lemma {:induction false} UpCut(par: Links, p: Process, v: Process, k: nat)
    requires p in par && Up(par, v, k) == p && forall j: nat :: j < k ==> Up(par, v, j) != p
    ensures Up(Cut(par, p), v, k) == p && Rooted(Cut(par, p), v, k)
    decreases k
  {
    if k > 0 {
      assert Up(par, v, 0) == v;
      forall j: nat | j < k - 1 ensures Up(par, par[v], j) != p {
        assert Up(par, v, j + 1) == Up(par, par[v], j);
      }
      UpCut(par, p, par[v], k - 1);
    }
  }

  lemma {:induction false} FirstUp(par: Links, v: Process, p: Process, k: nat) returns (i: nat)
    requires 0 < k && Up(par, v, k) == p && v != p
    ensures 0 < i && Up(par, v, i) == p && forall j: nat :: j < i ==> Up(par, v, j) != p
  {
    assert Up(par, v, 0) == v;
    if j: nat :| 0 < j < k && Up(par, v, j) == p {
      i := FirstUp(par, v, p, j);
    } else {
      i := k;
    }
  }

  ghost predicate Circular(par: Links, p: Process) { LeadsTo(par, p, p) }

  // What lies below p, when p is not part of a circle of links.
  ghost predicate CutTable(t: Table, list: seq<Process>, par: Links, p: Process) {
    t.Valid() && t.list == list && p in list && Linked(list, par) && t.par == Cut(par, p) && !Circular(par, p)
  }

  ghost function Below(t: Table, p: Process): Forest
    requires t.Valid() && p in t.par && t.par[p] == null
  {
    assert Rooted(t.par, p, 0);
    KidsLevel(t, p, 0);
    Grow(t, t.Kids(p), 1)
  }

  lemma BelowIs(t: Table, list: seq<Process>, par: Links, p: Process, v: Process)
    requires CutTable(t, list, par, p)
    ensures v in Objs(Below(t, p)) <==> v in list && LeadsTo(par, v, p)
  {
    assert Rooted(t.par, p, 0);
    KidsLevel(t, p, 0);
    if v in Objs(Below(t, p)) {
      var k := GrowSound(t, t.Kids(p), 1, v);
      HangsBelow(t, p, 0, v, k);
      CutUp(par, p, v, k + 1);
    }
    if v in list && LeadsTo(par, v, p) {
      var k: nat :| 0 < k && Up(par, v, k) == p;
      var i := FirstUp(par, v, p, k);
      UpCut(par, p, v, i);
      assert Hangs(t, [p], 0, v, i);
      HangsBelow(t, p, 0, v, i - 1);
      GrowComplete(t, t.Kids(p), 1, v, i - 1);
    }
  }

  lemma BelowIsMax(t: Table, list: seq<Process>, par: Links, p: Process)
    requires CutTable(t, list, par, p)
    ensures IsMaxBelow(list, par, p, MaxPid(Below(t, p)))
  {
    var f := Below(t, p);
    MaxPidIs(f);
    AtLeastLowest(f);
    forall v | v in list && LeadsTo(par, v, p) ensures v.pid <= MaxPid(f) {
      BelowIs(t, list, par, p, v);
    }
    if MaxPid(f) != LOWEST {
      var v :| v in Objs(f) && v.pid == MaxPid(f);
      BelowIs(t, list, par, p, v);
    }
  }

  lemma BelowIsLive(t: Table, holder: Process, list: seq<Process>, par: Links, p: Process)
    requires CutTable(t, list, par, p) && Listed(holder, list, par)
    requires forall q :: q in list ==> t.infos[q] == q.Snapshot()
    ensures Live(Below(t, p)) && Roots(Below(t, p)) == p.childList
  {
    assert Rooted(t.par, p, 0);
    KidsLevel(t, p, 0);
    GrowRoots(t, t.Kids(p), 1);
    assert Up(par, p, 1) == par[p];
    CutKids(list, par, p, p);
    GrowIsDrawn(t, t.Kids(p), 1);
    forall q | q in Objs(Below(t, p)) ensures Shown(t, q) {
      BelowIs(t, list, par, p, q);
      NotAbove(par, p, q);
      CutKids(list, par, p, q);
    }
    DrawnIsLive(t, Below(t, p));
  }

  lemma NotAbove(par: Links, p: Process, q: Process)
    requires p in par && !Circular(par, p) && LeadsTo(par, q, p)
    ensures par[p] != q
  {
    if par[p] == q {
      var k: nat :| 0 < k && Up(par, q, k) == p;
      assert Up(par, p, k + 1) == p;
    }
  }

  // ---- who is moved --------------------------------------------------------------

  datatype Who = Who(cmd: string, ppid: int)

  ghost predicate Known(list: seq<Process>, who: map<Process, Who>)
    reads list
  {
    forall p :: p in list ==> p in who && who[p] == Who(p.cmd, p.ppid)
  }

  // a child of init, that is of one of the keys 1000 to 1999
  predicate OfInit(w: Who) { w.ppid / 1000 == 1 }

  // The last rc in the list.
  ghost function LastRc(list: seq<Process>, who: map<Process, Who>): Process?
    requires forall p :: p in list ==> p in who
  {
    if list == [] then null
    else
      var p := list[|list| - 1];
      if who[p].cmd == "rc" && OfInit(who[p]) then p else LastRc(list[..|list| - 1], who)
  }

  ghost predicate Moved(who: map<Process, Who>, rc: Process, end: int, p: Process) {
    p in who && rc.pid < p.pid < end && OfInit(who[p])
  }

  ghost function Relinked(par: Links, who: map<Process, Who>, rc: Process, end: int): Links {
    map p | p in par :: if Moved(who, rc, end, p) then rc else par[p]
  }

  // Nothing happens without an rc, or if one of the numbers looks like "none".
  ghost predicate Idle(rc: Process?, end: int) { rc == null || rc.pid == -1 || end == -1 }

  ghost predicate Placeable(list: seq<Process>, par: Links, who: map<Process, Who>) {
    Linked(list, par) && NoRepeats(list) && forall p :: p in list ==> p in who
  }

  // ---- the method -------------------------------------------------------------------

  // The search for rc looks below every candidate, so none may be part of a circle.
  ghost predicate Searchable(list: seq<Process>, par: Links, who: map<Process, Who>) {
    forall p :: p in list && p in who && who[p].cmd == "rc" && OfInit(who[p]) ==> !Circular(par, p)
  }

  method UpdatePpidsForDaemons(holder: Process, list: seq<Process>, ghost par: Links, ghost who: map<Process, Who>)
    returns (ghost f: Forest, ghost end: int)
    requires holder !in list && Placeable(list, par, who) && Known(list, who) && Listed(holder, list, par)
    requires forall p :: p in list ==> par[p] == p.parent != holder
    requires Searchable(list, par, who)
    modifies {holder}`childList, (set p | p in list)`childList, Parents(list)`childList
    modifies (set p | p in list)`ppid, (set p | p in list)`parent
    ensures var rc := LastRc(list, who);
      && (rc != null ==> IsMaxBelow(list, par, rc, end))
      && if rc == null || rc.pid == -1 || end == -1 then unchanged(holder) && forall p :: p in list ==> unchanged(p)
         else
           var par' := Relinked(par, who, rc, end);
           && Holds(holder, f) && Built(list, par', f) && Listed(holder, list, par')
           && forall p :: p in list ==>
                if rc.pid < p.pid < end && who[p].ppid / 1000 == 1 then p.parent == par'[p] == rc && p.ppid == rc.pid
                else p.parent == par'[p] == par[p] && p.ppid == who[p].ppid
  {
    var rc, start, last := FindRc(holder, list, par, who);
    f, end := Empty, last;
    if start != -1 && last != -1 {
      LastRcFacts(list, who);
      f := MoveAndBuild(holder, list, rc, start, last, par, who);
    }
  }

  method MoveAndBuild(holder: Process, list: seq<Process>, rc: Process, start: int, end: int, ghost par: Links, ghost who: map<Process, Who>)
    returns (ghost f: Forest)
    requires holder !in list && Placeable(list, par, who) && Known(list, who) && rc in list && start == rc.pid
    requires forall p :: p in list ==> par[p] == p.parent != holder
    modifies {holder}`childList, (set p | p in list)`childList, Parents(list)`childList
    modifies (set p | p in list)`ppid, (set p | p in list)`parent
    ensures var par' := Relinked(par, who, rc, end);
      && Holds(holder, f) && Built(list, par', f) && Listed(holder, list, par')
      && forall p :: p in list ==> p.parent == par'[p] && p.ppid == if Moved(who, rc, end, p) then rc.pid else who[p].ppid
  {
    Relink(list, rc, start, end, par, who);
    ClearChildren(list);
    f := B.Build(holder, list, Relinked(par, who, rc, end));
  }

  ghost predicate RcAt(list: seq<Process>, who: map<Process, Who>, i: int)
    requires forall p :: p in list ==> p in who
  {
    0 <= i < |list| && who[list[i]].cmd == "rc" && who[list[i]].ppid / 1000 == 1
  }

  lemma {:induction false} LastRcAt(list: seq<Process>, who: map<Process, Who>) returns (i: int)
    requires forall p :: p in list ==> p in who
    ensures forall j :: i < j < |list| ==> !RcAt(list, who, j)
    ensures if LastRc(list, who) == null then i == -1 else RcAt(list, who, i) && list[i] == LastRc(list, who)
  {
    i := -1;
    if list != [] {
      var n := |list| - 1;
      if RcAt(list, who, n) {
        i := n;
      } else {
        i := LastRcAt(list[..n], who);
        forall j | i < j < n ensures !RcAt(list, who, j) {
          assert list[j] == list[..n][j] && !RcAt(list[..n], who, j);
        }
      }
    }
  }

  // rc is the last process of that name below init.
  lemma LastRcIs(list: seq<Process>, who: map<Process, Who>) returns (i: int)
    requires forall p :: p in list ==> p in who
    ensures if LastRc(list, who) == null then i == -1
      else 0 <= i < |list| && list[i] == LastRc(list, who) && who[list[i]].cmd == "rc" && who[list[i]].ppid / 1000 == 1
    ensures forall j :: i < j < |list| ==> who[list[j]].cmd != "rc" || who[list[j]].ppid / 1000 != 1
  {
    i := LastRcAt(list, who);
    forall j | i < j < |list| ensures who[list[j]].cmd != "rc" || who[list[j]].ppid / 1000 != 1 {
      assert !RcAt(list, who, j);
    }
  }

  lemma {:induction false} LastRcFacts(list: seq<Process>, who: map<Process, Who>)
    requires forall p :: p in list ==> p in who
    ensures var rc := LastRc(list, who); rc != null ==> rc in list && who[rc].cmd == "rc" && OfInit(who[rc])
  {
    if list != [] {
      LastRcFacts(list[..|list| - 1], who);
    }
  }

  method FindRc(holder: Process, list: seq<Process>, ghost par: Links, ghost who: map<Process, Who>)
    returns (rc: Process?, start: int, end: int)
    requires Placeable(list, par, who) && Known(list, who) && Listed(holder, list, par) && Searchable(list, par, who)
    ensures rc == LastRc(list, who)
    ensures if rc == null then start == end == -1 else start == rc.pid && IsMaxBelow(list, par, rc, end)
  {
    rc, start, end := null, -1, -1;
    for i := 0 to |list|
      invariant rc == LastRc(list[..i], who)
      invariant if rc == null then start == end == -1 else start == rc.pid && IsMaxBelow(list, par, rc, end)
    {
      var p := list[i];
      assert list[..i + 1][..i] == list[..i];
      if p.cmd == "rc" && p.ppid / 1000 == 1 {
        rc, start := p, p.pid;
        end := MaxPidBelow(holder, list, p, par);
      }
    }
    assert list[..|list|] == list;
  }

  method MaxPidBelow(holder: Process, list: seq<Process>, p: Process, ghost par: Links) returns (end: int)
    requires Linked(list, par) && Listed(holder, list, par) && p in list && !Circular(par, p)
    ensures IsMaxBelow(list, par, p, end)
  {
    ghost var bound := SomeBound(list, Cut(par, p));
    ghost var t := Table(list, Cut(par, p), map q | q in list :: q.Snapshot(), bound);
    BelowIsLive(t, holder, list, par, p);
    BelowIsMax(t, list, par, p);
    end := GetMaxPid(p.childList, Below(t, p));
  }

  method Relink(list: seq<Process>, rc: Process, start: int, end: int, ghost par: Links, ghost who: map<Process, Who>)
    requires Placeable(list, par, who) && Known(list, who) && start == rc.pid
    requires forall p :: p in list ==> par[p] == p.parent
    modifies (set p | p in list)`ppid, (set p | p in list)`parent
    ensures forall p :: p in list ==>
      && p.parent == Relinked(par, who, rc, end)[p]
      && p.ppid == if Moved(who, rc, end, p) then rc.pid else who[p].ppid
  {
    for i := 0 to |list|
      invariant forall k :: 0 <= k < i ==>
        && list[k].parent == Relinked(par, who, rc, end)[list[k]]
        && list[k].ppid == if Moved(who, rc, end, list[k]) then rc.pid else who[list[k]].ppid
      invariant forall k :: i <= k < |list| ==> list[k].parent == par[list[k]] && list[k].ppid == who[list[k]].ppid
    {
      NoRepeatsAt(list, i);
      var p := list[i];
      if p.pid > start && p.pid < end && p.ppid / 1000 == 1 {
        p.ppid := start;
        p.parent := rc;
      }
    }
  }

  method ClearChildren(list: seq<Process>)
    modifies (set p | p in list)`childList
    ensures forall p :: p in list ==> p.childList == []
  {
    for i := 0 to |list|
      invariant forall k :: 0 <= k < i ==> list[k].childList == []
    {
      list[i].childList := [];
    }
  }

  // ---- what becomes of the forest ------------------------------------------------

  lemma {:induction false} RootedUp(par: Links, p: Process, n: nat, j: nat)
    requires Rooted(par, p, n) && Up(par, p, j) != null
    ensures j <= n && Rooted(par, Up(par, p, j), n - j)
  {
    if j > 0 {
      RootedUp(par, par[p], n - 1, j - 1);
    }
  }

  lemma {:induction false} UpEarlier(par: Links, p: Process, j: nat, k: nat)
    requires j <= k && Up(par, p, k) != null
    ensures Up(par, p, j) != null
    decreases j
  {
    if j > 0 {
      UpEarlier(par, par[p], j - 1, k - 1);
    }
  }

  // Above rc nobody is moved.
  ghost predicate ClearAbove(par: Links, who: map<Process, Who>, rc: Process, end: int) {
    forall k: nat :: Up(par, rc, k) != null ==> !Moved(who, rc, end, Up(par, rc, k))
  }

  lemma {:induction false} SameChain(par: Links, who: map<Process, Who>, rc: Process, end: int, p: Process, n: nat)
    requires Rooted(par, p, n)
    requires forall k: nat :: Up(par, p, k) != null ==> !Moved(who, rc, end, Up(par, p, k))
    ensures Rooted(Relinked(par, who, rc, end), p, n)
  {
    assert Up(par, p, 0) == p;
    if n > 0 {
      forall k: nat | Up(par, par[p], k) != null ensures !Moved(who, rc, end, Up(par, par[p], k)) {
        assert Up(par, p, k + 1) == Up(par, par[p], k);
      }
      SameChain(par, who, rc, end, par[p], n - 1);
    }
  }

  // The old chain from p up to the first moved process is also the new one.
  lemma {:induction false} ChainToMoved(par: Links, who: map<Process, Who>, rc: Process, end: int, p: Process, k: nat)
    requires p in par && Up(par, p, k) != null && Up(par, p, k) in par
    requires Moved(who, rc, end, Up(par, p, k)) && forall j: nat :: j < k ==> Up(par, p, j) != null && !Moved(who, rc, end, Up(par, p, j))
    ensures Up(Relinked(par, who, rc, end), p, k + 1) == rc
    decreases k
  {
    var par' := Relinked(par, who, rc, end);
    assert Up(par, p, 0) == p;
    if k == 0 {
      assert par'[p] == rc && Up(par', rc, 0) == rc;
    } else {
      forall j: nat | j < k - 1 ensures Up(par, par[p], j) != null && !Moved(who, rc, end, Up(par, par[p], j)) {
        assert Up(par, p, j + 1) == Up(par, par[p], j);
      }
      assert par[p] in par by {
        if k == 1 {
          assert Up(par, p, 1) == Up(par, par[p], 0) == par[p];
        }
      }
      ChainToMoved(par, who, rc, end, par[p], k - 1);
      assert par'[p] == par[p];
    }
  }

  // rc itself stays in the forest exactly when nobody above it is moved: otherwise it would
  // hang below itself.
  lemma RcStaysIff(par: Links, who: map<Process, Who>, rc: Process, end: int)
    requires ReachesRoot(par, rc)
    ensures ReachesRoot(Relinked(par, who, rc, end), rc) <==> ClearAbove(par, who, rc, end)
  {
    var par' := Relinked(par, who, rc, end);
    var n: nat :| Rooted(par, rc, n);
    if ClearAbove(par, who, rc, end) {
      SameChain(par, who, rc, end, rc, n);
    } else if ReachesRoot(par', rc) {
      var k: nat :| Up(par, rc, k) != null && Moved(who, rc, end, Up(par, rc, k));
      k := FirstMoved(par, who, rc, end, k);
      RootedUp(par, rc, n, k);
      forall j: nat | j < k ensures Up(par, rc, j) != null {
        UpEarlier(par, rc, j, k);
      }
      ChainToMoved(par, who, rc, end, rc, k);
      var m: nat :| Rooted(par', rc, m);
      RootedUp(par', rc, m, k + 1);
      OneDepth(par', rc, m, m - k - 1);
      assert false;
    }
  }

  lemma {:induction false} FirstMoved(par: Links, who: map<Process, Who>, rc: Process, end: int, k: nat) returns (i: nat)
    requires Up(par, rc, k) != null && Moved(who, rc, end, Up(par, rc, k))
    ensures i <= k && Up(par, rc, i) != null && Moved(who, rc, end, Up(par, rc, i))
    ensures forall j: nat :: j < i ==> Up(par, rc, j) == null || !Moved(who, rc, end, Up(par, rc, j))
  {
    if j: nat :| j < k && Up(par, rc, j) != null && Moved(who, rc, end, Up(par, rc, j)) {
      i := FirstMoved(par, who, rc, end, j);
    } else {
      i := k;
    }
  }

  lemma {:induction false} StaysPlaced(par: Links, who: map<Process, Who>, rc: Process, end: int, p: Process, n: nat)
    requires Rooted(par, p, n) && ReachesRoot(Relinked(par, who, rc, end), rc)
    ensures ReachesRoot(Relinked(par, who, rc, end), p)
  {
    var par' := Relinked(par, who, rc, end);
    if Moved(who, rc, end, p) {
      var m: nat :| Rooted(par', rc, m);
      assert Rooted(par', p, m + 1);
    } else if n == 0 {
      assert Rooted(par', p, 0);
    } else {
      StaysPlaced(par, who, rc, end, par[p], n - 1);
      var m: nat :| Rooted(par', par[p], m);
      assert Rooted(par', p, m + 1);
    }
  }

  // No process drops out of the forest if and only if nobody above rc is moved.
  lemma NobodyIsLostIff(list: seq<Process>, par: Links, who: map<Process, Who>, rc: Process, end: int, f: Forest, f': Forest)
    requires Linked(list, par) && rc in Objs(f)
    requires Built(list, par, f) && Built(list, Relinked(par, who, rc, end), f')
    ensures Objs(f) <= Objs(f') <==> ClearAbove(par, who, rc, end)
  {
    RcStaysIff(par, who, rc, end);
    if ClearAbove(par, who, rc, end) {
      forall p | p in Objs(f) ensures p in Objs(f') {
        var n: nat :| Rooted(par, p, n);
        StaysPlaced(par, who, rc, end, p, n);
      }
    }
  }

  // ---- on links that come from a log -------------------------------------------------

  // Without a paternity log every parent is the entry under the parent id, and the id is a pid of
  // the log times 1000. (Only the children of init matter here.)
  ghost predicate FromLog(list: seq<Process>, table: map<int, Process>, par: Links, who: map<Process, Who>) {
    forall p :: p in list && p in par && p in who && OfInit(who[p]) ==>
      who[p].ppid % 1000 == 0 && par[p] == if who[p].ppid in table then table[who[p].ppid] else null
  }

  // These are the links that compile leaves when there is no parent map.
  lemma CompiledIsFromLog(list: seq<Process>, table: map<int, Process>, par: Links, own: map<Process, int>, who: map<Process, Who>)
    requires C.Stitched(list, table, None, own, par)
    requires forall p :: p in list ==> p in who && p in own && who[p].ppid == own[p] && own[p] % 1000 == 0
    ensures FromLog(list, table, par, who)
  {
    assert forall p :: p in list ==> C.Adopted(None, C.Entries(table), p.pid, own[p]) == own[p];
  }

  // So all children of init have the same parent.
  lemma OneInit(list: seq<Process>, table: map<int, Process>, par: Links, who: map<Process, Who>, p: Process, q: Process)
    requires Placeable(list, par, who) && FromLog(list, table, par, who)
    requires p in list && q in list && OfInit(who[p]) && OfInit(who[q])
    ensures par[p] == par[q]
  {
    assert who[p].ppid == 1000 && who[q].ppid == 1000;
  }

  // Nobody above rc is moved: he would share the parent of rc, which lies above him.
  lemma LogIsClear(list: seq<Process>, table: map<int, Process>, par: Links, who: map<Process, Who>, rc: Process, end: int)
    requires Placeable(list, par, who) && FromLog(list, table, par, who)
    requires rc in list && OfInit(who[rc]) && ReachesRoot(par, rc)
    ensures ClearAbove(par, who, rc, end)
  {
    var n: nat :| Rooted(par, rc, n);
    forall k: nat | Up(par, rc, k) != null ensures !Moved(who, rc, end, Up(par, rc, k)) {
      RootedUp(par, rc, n, k);
      var a := Up(par, rc, k);
      if k > 0 && OfInit(who[a]) {
        OneInit(list, table, par, who, a, rc);
        UpStep(par, rc, k);
        UpStep(par, rc, 0);
        RootedUp(par, rc, n, 1);
        RootedUp(par, rc, n, k + 1);
        OneDepth(par, par[rc], n - 1, n - k - 1);
        assert false;
      }
    }
  }

  lemma {:induction false} PlacedBefore(list: seq<Process>, table: map<int, Process>, par: Links, who: map<Process, Who>,
                                       rc: Process, end: int, p: Process, n: nat)
    requires Placeable(list, par, who) && FromLog(list, table, par, who)
    requires rc in list && OfInit(who[rc]) && p in list && Rooted(Relinked(par, who, rc, end), p, n)
    ensures ReachesRoot(par, p)
  {
    if Moved(who, rc, end, p) {
      PlacedBefore(list, table, par, who, rc, end, rc, n - 1);
      OneInit(list, table, par, who, p, rc);
      var m: nat :| Rooted(par, rc, m);
      assert Rooted(par, p, m);
    } else if n == 0 {
      assert Rooted(par, p, 0);
    } else {
      assert par[p] in Relinked(par, who, rc, end);
      PlacedBefore(list, table, par, who, rc, end, par[p], n - 1);
      var m: nat :| Rooted(par, par[p], m);
      assert Rooted(par, p, m + 1);
    }
  }

  lemma PlacedAfter(list: seq<Process>, table: map<int, Process>, par: Links, who: map<Process, Who>,
                    rc: Process, end: int, p: Process)
    requires Placeable(list, par, who) && FromLog(list, table, par, who)
    requires rc in list && OfInit(who[rc]) && p in list && ReachesRoot(par, p)
    ensures ReachesRoot(Relinked(par, who, rc, end), p)
  {
    var n: nat :| Rooted(par, p, n);
    if ReachesRoot(par, rc) {
      LogIsClear(list, table, par, who, rc, end);
      RcStaysIff(par, who, rc, end);
      StaysPlaced(par, who, rc, end, p, n);
    } else {
      forall k: nat | Up(par, p, k) != null ensures !Moved(who, rc, end, Up(par, p, k)) {
        RootedUp(par, p, n, k);
        var a := Up(par, p, k);
        if OfInit(who[a]) {
          OneInit(list, table, par, who, a, rc);
          assert Rooted(par, rc, n - k);
          assert false;
        }
      }
      SameChain(par, who, rc, end, p, n);
    }
  }

  // The forest that is built again has the same processes, and those moved are below rc.
  lemma {:induction false} NobodyIsLost(list: seq<Process>, table: map<int, Process>, par: Links, who: map<Process, Who>,
                     rc: Process, end: int, f: Forest, f': Forest)
    requires Placeable(list, par, who) && FromLog(list, table, par, who)
    requires rc in list && OfInit(who[rc])
    requires Built(list, par, f) && Built(list, Relinked(par, who, rc, end), f')
    ensures Objs(f') == Objs(f)
    ensures forall p :: p in list && Moved(who, rc, end, p) && p in Objs(f') ==> Above(f', rc, p)
  {
    var par' := Relinked(par, who, rc, end);
    forall p | p in list ensures p in Objs(f') <==> p in Objs(f) {
      if ReachesRoot(par, p) {
        PlacedAfter(list, table, par, who, rc, end, p);
      }
      if n: nat :| Rooted(par', p, n) {
        PlacedBefore(list, table, par, who, rc, end, p, n);
      }
    }
    forall p | p in list && Moved(who, rc, end, p) && p in Objs(f') ensures Above(f', rc, p) {
      assert Up(par', p, 1) == Up(par', rc, 0) == rc;
      assert LeadsTo(par', p, rc);
    }
  }
}
