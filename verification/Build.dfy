/** `build`: from a process list with parent links to a forest of child lists. */
module Build {
  import opened Forest
  import opened ProcessTree
  import opened BuildSteps

  // The child lists that build leaves hold exactly the children, in the order of the process list.
  lemma KidsAre(list: seq<Process>, par: Links, q: Process?)
    requires Linked(list, par)
    ensures forall p :: p in KidsOf(list, par, q) <==> p in list && par[p] == q
    ensures forall i: nat, j: nat :: i < j < |list| && par[list[i]] == q && par[list[j]] == q ==>
      Precedes(KidsOf(list, par, q), list[i], list[j])
  {
    forall p ensures p in KidsOf(list, par, q) <==> p in list && par[p] == q {
      KidsOfMember(list, par, q, p);
    }
    forall i: nat, j: nat | i < j < |list| && par[list[i]] == q && par[list[j]] == q
      ensures Precedes(KidsOf(list, par, q), list[i], list[j])
    {
      KidsInOrder(list, par, q, i, j);
    }
  }

  lemma GrownIsBuilt(t: Table)
    requires t.Valid() && NoRepeats(t.list) && t.AtLevel(KidsOf(t.list, t.par, null), 0)
    ensures Built(t.list, t.par, Grow(t, KidsOf(t.list, t.par, null), 0))
  {
    var ps := KidsOf(t.list, t.par, null);
    var f := Grow(t, ps, 0);
    KidsOfNoRepeats(t.list, t.par, null);
    GrowDistinct(t, ps, 0);
    var reaching := set v | v in t.list && ReachesRoot(t.par, v);
    forall v | v in Objs(f) ensures v in reaching { GrownMember(t, v); }
    forall v | v in reaching ensures v in Objs(f) { GrownMember(t, v); }
    assert Objs(f) == reaching;
    forall u, v ensures Above(f, u, v) <==> v in Objs(f) && LeadsTo(t.par, v, u) {
      GrownAbove(t, u, v);
    }
  }

  lemma GrownIsHeld(holder: Process, t: Table)
    requires t.Valid() && NoRepeats(t.list) && holder !in t.list && t.AtLevel(KidsOf(t.list, t.par, null), 0)
    requires forall p :: p in t.list ==> Shown(t, p)
    requires holder.childList == KidsOf(t.list, t.par, null)
    ensures Holds(holder, Grow(t, KidsOf(t.list, t.par, null), 0))
  {
    var tops := KidsOf(t.list, t.par, null);
    GrowRoots(t, tops, 0);
    GrownIsBuilt(t);
    GrowIsDrawn(t, tops, 0);
    DrawnIsLive(t, Grow(t, tops, 0));
  }

  // build(): holder stands for the tree object, whose list is the top of the forest.
  method Build(holder: Process, list: seq<Process>, ghost par: Links) returns (ghost f: Forest)
    requires holder !in list && NoRepeats(list) && Linked(list, par)
    requires forall p :: p in list ==> par[p] == p.parent != holder
    requires forall p :: p in list ==> p.childList == []
    modifies {holder}`childList, (set p | p in list)`childList, Parents(list)`childList
    ensures Holds(holder, f) && Listed(holder, list, par)
    ensures Built(list, par, f)
  {
    AppendToParents(holder, list, par);
    ghost var bound := SomeBound(list, par);
    ghost var t := Table(list, par, map p | p in list :: p.Snapshot(), bound);
    ghost var tops := KidsOf(list, par, null);
    TopsAtLevel(t);
    GrownIsBuilt(t);
    GrownIsHeld(holder, t);
    f := Grow(t, tops, 0);
  }

  method AppendToParents(holder: Process, list: seq<Process>, ghost par: Links)
    requires holder !in list && Linked(list, par)
    requires forall p :: p in list ==> par[p] == p.parent != holder
    requires forall p :: p in list ==> p.childList == []
    modifies {holder}`childList, (set p | p in list)`childList, Parents(list)`childList
    ensures Listed(holder, list, par)
  {
    holder.childList := [];
    for i := 0 to |list|
      invariant holder.childList == KidsOf(list[..i], par, null)
      invariant forall p :: p in list ==> p.childList == KidsOf(list[..i], par, p)
    {
      var proc := list[i];
      assert list[..i + 1] == list[..i] + [proc];
      KidsOfSnoc(list[..i], par, null, proc);
      forall q | q in list
        ensures KidsOf(list[..i + 1], par, q) == KidsOf(list[..i], par, q) + (if par[proc] == q then [proc] else [])
      {
        KidsOfSnoc(list[..i], par, q, proc);
      }
      if proc.parent == null {
        holder.childList := holder.childList + [proc];
      } else {
        proc.parent.childList := proc.parent.childList + [proc];
      }
    }
    assert list[..|list|] == list;
  }
}
