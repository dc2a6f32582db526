/** What `prune` removes and where the survivors end up. */
module Pruning {
  import opened Forest

  // The Python loop pops a doomed process and splices its children, last first, into the list it is
  // scanning. Here the result is described without a list being rewritten: every doomed node gives
  // way to its own pruned children, taken backwards, and every verdict is read off the original forest.

  // The fields of ProcessTree that prune consults.
  datatype Clock = Clock(start: real, duration: real, period: real)

  predicate IdleBackground(c: Clock, i: Info, kids: Forest) {
    && !i.active
    && i.End() >= c.start + c.duration
    && i.start > c.start
    && i.duration > 0.9 * c.duration
    && Size(kids) == 0
  }

  predicate ShortLived(c: Clock, i: Info) {
    i.duration <= 2.0 * c.period
  }

  // top: the node is a root of the whole forest
  predicate Doomed(c: Clock, i: Info, kids: Forest, top: bool) {
    (!top || kids.Empty?) && (IdleBackground(c, i, kids) || ShortLived(c, i))
  }

  ghost function Hoist(c: Clock, f: Forest, top: bool): Forest {
    if f.Empty? then Empty
    else if Doomed(c, f.info, f.kids, top) then Append(HoistBackwards(c, f.kids), Hoist(c, f.rest, top))
    else Tree(f.proc, f.info, Hoist(c, f.kids, false), Hoist(c, f.rest, top))
  }

  // The children of a doomed node, last first. A doomed root has none.
  ghost function HoistBackwards(c: Clock, f: Forest): Forest {
    if f.Empty? then Empty
    else if Doomed(c, f.info, f.kids, false) then Append(HoistBackwards(c, f.rest), HoistBackwards(c, f.kids))
    else Append(HoistBackwards(c, f.rest), Tree(f.proc, f.info, Hoist(c, f.kids, false), Empty))
  }

  // The nodes that are not doomed, judged one by one in the original forest.
  ghost function Survivors(c: Clock, f: Forest, top: bool): set<Process> {
    if f.Empty? then {}
    else (if Doomed(c, f.info, f.kids, top) then {} else {f.proc})
         + Survivors(c, f.kids, false) + Survivors(c, f.rest, top)
  }

  // Splicing children into the list being scanned gives the same result.
  lemma {:induction false} HoistSpliced(c: Clock, f: Forest, g: Forest, top: bool)
    requires !top || f.Empty?
    ensures Hoist(c, MoveFront(f, g), top) == Append(HoistBackwards(c, f), Hoist(c, g, top))
  {
    if f.Tree? {
      HoistSpliced(c, f.rest, f.(rest := g), top);
      var back := HoistBackwards(c, f.rest);
      if Doomed(c, f.info, f.kids, false) {
        AppendAssoc(back, HoistBackwards(c, f.kids), Hoist(c, g, top));
      } else {
        AppendAssoc(back, Tree(f.proc, f.info, Hoist(c, f.kids, false), Empty), Hoist(c, g, top));
      }
    }
  }

  lemma {:induction false} SurvivorsAreObjects(c: Clock, f: Forest, top: bool)
    ensures Survivors(c, f, top) <= Objs(f)
  {
    if f.Tree? {
      SurvivorsAreObjects(c, f.kids, false);
      SurvivorsAreObjects(c, f.rest, top);
    }
  }

  lemma {:induction false} HoistObjects(c: Clock, f: Forest, top: bool)
    ensures Objs(Hoist(c, f, top)) == Survivors(c, f, top)
    ensures Objs(HoistBackwards(c, f)) == Survivors(c, f, false)
    ensures Survivors(c, f, top) <= Objs(f)
  {
    SurvivorsAreObjects(c, f, top);
    if f.Tree? {
      HoistObjects(c, f.kids, false);
      HoistObjects(c, f.rest, top);
      HoistObjects(c, f.rest, false);
      AppendFacts(HoistBackwards(c, f.kids), Hoist(c, f.rest, top));
      AppendFacts(HoistBackwards(c, f.rest), HoistBackwards(c, f.kids));
      AppendFacts(HoistBackwards(c, f.rest), Tree(f.proc, f.info, Hoist(c, f.kids, false), Empty));
    }
  }

  lemma {:induction false} HoistSize(c: Clock, f: Forest, top: bool)
    ensures Size(Hoist(c, f, top)) <= Size(f) && Size(HoistBackwards(c, f)) <= Size(f)
  {
    if f.Tree? {
      HoistSize(c, f.kids, false);
      HoistSize(c, f.rest, top);
      AppendFacts(HoistBackwards(c, f.kids), Hoist(c, f.rest, top));
      AppendFacts(HoistBackwards(c, f.rest), HoistBackwards(c, f.kids));
      AppendFacts(HoistBackwards(c, f.rest), Tree(f.proc, f.info, Hoist(c, f.kids, false), Empty));
    }
  }

  lemma {:induction false} HoistDistinct(c: Clock, f: Forest, top: bool)
    requires Distinct(f)
    ensures Distinct(Hoist(c, f, top)) && Distinct(HoistBackwards(c, f))
  {
    if f.Tree? {
      HoistObjects(c, f.kids, false);
      HoistObjects(c, f.rest, top);
      HoistObjects(c, f.rest, false);
      HoistDistinct(c, f.kids, false);
      HoistDistinct(c, f.rest, top);
      AppendFacts(HoistBackwards(c, f.kids), Hoist(c, f.rest, top));
      AppendDistinct(HoistBackwards(c, f.kids), Hoist(c, f.rest, top));
      AppendFacts(HoistBackwards(c, f.rest), HoistBackwards(c, f.kids));
      AppendDistinct(HoistBackwards(c, f.rest), HoistBackwards(c, f.kids));
      AppendFacts(HoistBackwards(c, f.rest), Tree(f.proc, f.info, Hoist(c, f.kids, false), Empty));
      AppendDistinct(HoistBackwards(c, f.rest), Tree(f.proc, f.info, Hoist(c, f.kids, false), Empty));
    }
  }

  // Pruning is a filter: exactly the nodes not doomed in the original forest remain.
  lemma PruneIsAFilter(c: Clock, f: Forest, u: Process)
    ensures u in Objs(Hoist(c, f, true)) <==> u in Survivors(c, f, true)
  {
    HoistObjects(c, f, true);
  }

  // v is a node of f with info i, above the forest kids.
  ghost predicate Shows(f: Forest, v: Process, i: Info, kids: Forest) {
    f.Tree? && ((v == f.proc && i == f.info && kids == f.kids) || Shows(f.kids, v, i, kids) || Shows(f.rest, v, i, kids))
  }

  lemma {:induction false} ShownIsInside(f: Forest, v: Process, i: Info, kids: Forest)
    requires Shows(f, v, i, kids)
    ensures v in Objs(f)
  {
    if Shows(f.kids, v, i, kids) {
      ShownIsInside(f.kids, v, i, kids);
    } else if Shows(f.rest, v, i, kids) {
      ShownIsInside(f.rest, v, i, kids);
    }
  }

  lemma {:induction false} RootsAreInside(f: Forest, v: Process)
    requires v in Roots(f)
    ensures v in Objs(f)
  {
    if v != f.proc {
      RootsAreInside(f.rest, v);
    }
  }

  lemma {:induction false} SurvivesIff(c: Clock, f: Forest, top: bool, v: Process, i: Info, kids: Forest)
    requires Distinct(f) && Shows(f, v, i, kids)
    ensures v in Survivors(c, f, top) <==> !Doomed(c, i, kids, top && v in Roots(f))
  {
    SurvivorsAreObjects(c, f.kids, false);
    SurvivorsAreObjects(c, f.rest, top);
    if Shows(f.kids, v, i, kids) {
      ShownIsInside(f.kids, v, i, kids);
      SurvivesIff(c, f.kids, false, v, i, kids);
      if v in Roots(f.rest) {
        RootsAreInside(f.rest, v);
      }
    } else if Shows(f.rest, v, i, kids) {
      ShownIsInside(f.rest, v, i, kids);
      SurvivesIff(c, f.rest, top, v, i, kids);
    }
  }

  // A node stays if it is a root with children, or if it lasts more than two periods and was active,
  // has children, did not last to the end, was there from the start, or lasted no more than nine
  // tenths of the whole time.
  lemma PruneKeepsIff(c: Clock, f: Forest, v: Process, i: Info, kids: Forest)
    requires Distinct(f) && Shows(f, v, i, kids)
    ensures v in Objs(Hoist(c, f, true)) <==>
      || (v in Roots(f) && kids.Tree?)
      || (i.duration > 2.0 * c.period
          && (i.active || kids.Tree? || i.start + i.duration < c.start + c.duration || i.start <= c.start
              || i.duration <= 0.9 * c.duration))
  {
    SurvivesIff(c, f, true, v, i, kids);
    HoistObjects(c, f, true);
  }

  // Every node is one object.
  lemma {:induction false} SizeIsNumber(f: Forest)
    requires Distinct(f)
    ensures Size(f) == |Objs(f)|
  {
    if f.Tree? {
      SizeIsNumber(f.kids);
      SizeIsNumber(f.rest);
      UnionSize(f.proc, Objs(f.kids), Objs(f.rest));
    }
  }

  lemma UnionSize(p: Process, a: set<Process>, b: set<Process>)
    requires p !in a && p !in b && a !! b
    ensures |{p} + a + b| == 1 + |a| + |b|
  {
    assert |a + b| == |a| + |b|;
    assert {p} + a + b == {p} + (a + b);
  }

  // Two survivors are in the same vertical relation after pruning as before.
  lemma {:induction false} PruneKeepsAncestry(c: Clock, f: Forest, top: bool, u: Process, v: Process)
    requires Distinct(f)
    requires u in Survivors(c, f, top) && v in Survivors(c, f, top)
    ensures Above(Hoist(c, f, top), u, v) <==> Above(f, u, v)
    ensures !top ==> (Above(HoistBackwards(c, f), u, v) <==> Above(f, u, v))
  {
    var kids, rest := Hoist(c, f.kids, false), Hoist(c, f.rest, top);
    var bkids, brest := HoistBackwards(c, f.kids), HoistBackwards(c, f.rest);
    HoistObjects(c, f.kids, false);
    HoistObjects(c, f.rest, top);
    AppendAbove(bkids, rest, u, v);
    AppendAbove(brest, bkids, u, v);
    AppendAbove(brest, Tree(f.proc, f.info, kids, Empty), u, v);
    AboveIsInside(f.kids, u, v);
    AboveIsInside(f.rest, u, v);
    AboveIsInside(kids, u, v);
    AboveIsInside(rest, u, v);
    AboveIsInside(bkids, u, v);
    AboveIsInside(brest, u, v);
    if u in Objs(f.kids) && v in Objs(f.kids) {
      PruneKeepsAncestry(c, f.kids, false, u, v);
    } else if u in Objs(f.rest) && v in Objs(f.rest) {
      PruneKeepsAncestry(c, f.rest, top, u, v);
    }
  }

  // ---- lifetimes -----------------------------------------------------------------

  ghost predicate AllLong(c: Clock, f: Forest) {
    f.Empty? || (!ShortLived(c, f.info) && AllLong(c, f.kids) && AllLong(c, f.rest))
  }

  // Everything below the roots outlives two sample periods.
  ghost predicate LongBelowRoots(c: Clock, f: Forest) {
    f.Empty? || (AllLong(c, f.kids) && LongBelowRoots(c, f.rest))
  }

  lemma OpenLong(c: Clock, f: Forest)
    requires f.Tree?
    ensures AllLong(c, f) <==> !ShortLived(c, f.info) && AllLong(c, f.kids) && AllLong(c, f.rest)
    ensures LongBelowRoots(c, f) <==> AllLong(c, f.kids) && LongBelowRoots(c, f.rest)
  {
  }

  lemma {:induction false} AllLongAppend(c: Clock, f: Forest, g: Forest)
    ensures AllLong(c, Append(f, g)) <==> AllLong(c, f) && AllLong(c, g)
  {
    if f.Tree? {
      AllLongAppend(c, f.rest, g);
    }
  }

  lemma {:induction false} HoistedAreLong(c: Clock, f: Forest)
    ensures AllLong(c, Hoist(c, f, false)) && AllLong(c, HoistBackwards(c, f))
  {
    if f.Tree? {
      HoistedAreLong(c, f.kids);
      HoistedAreLong(c, f.rest);
      AllLongAppend(c, HoistBackwards(c, f.kids), Hoist(c, f.rest, false));
      AllLongAppend(c, HoistBackwards(c, f.rest), HoistBackwards(c, f.kids));
      AllLongAppend(c, HoistBackwards(c, f.rest), Tree(f.proc, f.info, Hoist(c, f.kids, false), Empty));
    }
  }

  lemma {:induction false} PruneLeavesLong(c: Clock, f: Forest)
    ensures LongBelowRoots(c, Hoist(c, f, true))
  {
    if f.Tree? {
      HoistedAreLong(c, f.kids);
      PruneLeavesLong(c, f.rest);
    }
  }

  // ---- pruning twice -------------------------------------------------------------

  ghost predicate NoneDoomed(c: Clock, f: Forest, top: bool) {
    f.Empty? || (!Doomed(c, f.info, f.kids, top) && NoneDoomed(c, f.kids, false) && NoneDoomed(c, f.rest, top))
  }

  // Some survivor loses every descendant and would be doomed as a leaf.
  ghost predicate SomeLeftBare(c: Clock, f: Forest, top: bool) {
    f.Tree? &&
    (|| (&& !Doomed(c, f.info, f.kids, top) && f.kids.Tree? && Survivors(c, f.kids, false) == {}
         && (IdleBackground(c, f.info, Empty) || ShortLived(c, f.info)))
     || SomeLeftBare(c, f.kids, false) || SomeLeftBare(c, f.rest, top))
  }

  lemma {:induction false} NoneDoomedIsFixed(c: Clock, f: Forest, top: bool)
    ensures NoneDoomed(c, f, top) ==> Hoist(c, f, top) == f
    ensures !NoneDoomed(c, f, top) ==> Size(Hoist(c, f, top)) < Size(f)
  {
    if f.Tree? {
      HoistSize(c, f.kids, false);
      HoistSize(c, f.rest, top);
      AppendFacts(HoistBackwards(c, f.kids), Hoist(c, f.rest, top));
      NoneDoomedIsFixed(c, f.kids, false);
      NoneDoomedIsFixed(c, f.rest, top);
    }
  }

  lemma {:induction false} NoneDoomedAppend(c: Clock, f: Forest, g: Forest, top: bool)
    ensures NoneDoomed(c, Append(f, g), top) <==> NoneDoomed(c, f, top) && NoneDoomed(c, g, top)
  {
    if f.Tree? {
      NoneDoomedAppend(c, f.rest, g, top);
    }
  }

  lemma {:induction false} HoistedAgain(c: Clock, f: Forest, top: bool)
    ensures NoneDoomed(c, Hoist(c, f, top), top) <==> !SomeLeftBare(c, f, top)
    ensures NoneDoomed(c, HoistBackwards(c, f), false) <==> !SomeLeftBare(c, f, false)
  {
    if f.Tree? {
      var kids := Hoist(c, f.kids, false);
      HoistedAgain(c, f.kids, false);
      HoistedAgain(c, f.rest, top);
      HoistedAgain(c, f.rest, false);
      HoistObjects(c, f.kids, false);
      assert kids.Empty? <==> Objs(kids) == {};
      NoneDoomedAppend(c, HoistBackwards(c, f.kids), Hoist(c, f.rest, top), top);
      NoneDoomedAppend(c, HoistBackwards(c, f.rest), HoistBackwards(c, f.kids), false);
      NoneDoomedAppend(c, HoistBackwards(c, f.rest), Tree(f.proc, f.info, kids, Empty), false);
    }
  }

  // prune is not idempotent: a second call changes nothing exactly when the first has not
  // turned an inner process into a leaf that is doomed itself.
  lemma PruneTwice(c: Clock, f: Forest)
    ensures Hoist(c, Hoist(c, f, true), true) == Hoist(c, f, true) <==> !SomeLeftBare(c, f, true)
  {
    HoistedAgain(c, f, true);
    NoneDoomedIsFixed(c, Hoist(c, f, true), true);
  }

  // A root short-lived process above one short-lived child needs two calls.
  lemma PruneTwiceDiffers(p: Process, q: Process)
    ensures var i := Info("sh", 1.0, 1.0, false, []);
      var f := Tree(p, i, Tree(q, i, Empty, Empty), Empty);
      var c := Clock(0.0, 100.0, 1.0);
      Hoist(c, f, true) == Tree(p, i, Empty, Empty) && Hoist(c, Hoist(c, f, true), true) == Empty
  {
    var i := Info("sh", 1.0, 1.0, false, []);
    var c := Clock(0.0, 100.0, 1.0);
    assert Hoist(c, Tree(q, i, Empty, Empty), false) == Empty;
    assert Hoist(c, Tree(p, i, Empty, Empty), true) == Empty;
  }

  // ---- the order of what is left ---------------------------------------------------

  // u stands before v in the list itself.
  ghost predicate Leads(f: Forest, u: Process, v: Process) {
    f.Tree? && ((u == f.proc && v in Roots(f.rest)) || Leads(f.rest, u, v))
  }

  // u stands before v in the child list of p.
  ghost predicate LeadsUnder(f: Forest, p: Process, u: Process, v: Process) {
    f.Tree? && ((p == f.proc && Leads(f.kids, u, v)) || LeadsUnder(f.kids, p, u, v) || LeadsUnder(f.rest, p, u, v))
  }

  // u stands before v in one of the lists.
  ghost predicate LeadsSomewhere(f: Forest, u: Process, v: Process) {
    f.Tree? && ((u == f.proc && v in Roots(f.rest)) || LeadsSomewhere(f.kids, u, v) || LeadsSomewhere(f.rest, u, v))
  }

  lemma {:induction false} LeadsIsSomewhere(f: Forest, u: Process, v: Process)
    ensures Leads(f, u, v) ==> LeadsSomewhere(f, u, v)
  {
    if f.Tree? {
      LeadsIsSomewhere(f.rest, u, v);
    }
  }

  lemma {:induction false} LeadsIsInside(f: Forest, u: Process, v: Process)
    requires Leads(f, u, v)
    ensures u in Roots(f) && v in Roots(f) && u in Objs(f) && v in Objs(f)
  {
    if u == f.proc && v in Roots(f.rest) {
      RootsAreInside(f.rest, v);
    } else {
      LeadsIsInside(f.rest, u, v);
    }
  }

  lemma {:induction false} UnderIsInside(f: Forest, p: Process, u: Process, v: Process)
    requires LeadsUnder(f, p, u, v)
    ensures p in Objs(f) && u in Objs(f) && v in Objs(f)
  {
    if p == f.proc && Leads(f.kids, u, v) {
      LeadsIsInside(f.kids, u, v);
    } else if LeadsUnder(f.kids, p, u, v) {
      UnderIsInside(f.kids, p, u, v);
    } else {
      UnderIsInside(f.rest, p, u, v);
    }
  }

  lemma {:induction false} LeadsAppend(f: Forest, g: Forest, u: Process, v: Process)
    ensures Leads(f, u, v) || Leads(g, u, v) || (u in Roots(f) && v in Roots(g)) ==> Leads(Append(f, g), u, v)
  {
    AppendFacts(f, g);
    if f.Tree? {
      AppendFacts(f.rest, g);
      LeadsAppend(f.rest, g, u, v);
    }
  }

  lemma {:induction false} UnderAppend(f: Forest, g: Forest, p: Process, u: Process, v: Process)
    ensures LeadsUnder(f, p, u, v) || LeadsUnder(g, p, u, v) ==> LeadsUnder(Append(f, g), p, u, v)
  {
    if f.Tree? {
      UnderAppend(f.rest, g, p, u, v);
    }
  }

  lemma {:induction false} SomewhereAppend(f: Forest, g: Forest, u: Process, v: Process)
    ensures LeadsSomewhere(f, u, v) || LeadsSomewhere(g, u, v) ==> LeadsSomewhere(Append(f, g), u, v)
  {
    if f.Tree? {
      AppendFacts(f.rest, g);
      SomewhereAppend(f.rest, g, u, v);
    }
  }

  // A survivor of a list stays in the list.
  lemma {:induction false} RootsSurvive(c: Clock, f: Forest, top: bool, v: Process)
    requires Distinct(f) && v in Roots(f) && v in Survivors(c, f, top)
    ensures v in Roots(Hoist(c, f, top))
    ensures !top ==> v in Roots(HoistBackwards(c, f))
  {
    AppendFacts(HoistBackwards(c, f.kids), Hoist(c, f.rest, top));
    AppendFacts(HoistBackwards(c, f.rest), HoistBackwards(c, f.kids));
    AppendFacts(HoistBackwards(c, f.rest), Tree(f.proc, f.info, Hoist(c, f.kids, false), Empty));
    SurvivorsAreObjects(c, f.kids, false);
    SurvivorsAreObjects(c, f.rest, top);
    if v != f.proc {
      RootsAreInside(f.rest, v);
      RootsSurvive(c, f.rest, top, v);
    }
  }

  // Survivors of one list keep their order if the list stays, and change it if it is spliced.
  lemma {:induction false} ListOrder(c: Clock, f: Forest, top: bool, u: Process, v: Process)
    requires Distinct(f) && Leads(f, u, v) && u in Survivors(c, f, top) && v in Survivors(c, f, top)
    ensures Leads(Hoist(c, f, top), u, v)
    ensures !top ==> Leads(HoistBackwards(c, f), v, u)
  {
    SurvivorsAreObjects(c, f.kids, false);
    SurvivorsAreObjects(c, f.rest, top);
    LeadsIsInside(f, u, v);
    var one := Tree(f.proc, f.info, Hoist(c, f.kids, false), Empty);
    LeadsAppend(HoistBackwards(c, f.kids), Hoist(c, f.rest, top), u, v);
    LeadsAppend(HoistBackwards(c, f.rest), HoistBackwards(c, f.kids), v, u);
    LeadsAppend(HoistBackwards(c, f.rest), one, v, u);
    if u == f.proc && v in Roots(f.rest) {
      RootsAreInside(f.rest, v);
      RootsSurvive(c, f.rest, top, v);
    } else {
      LeadsIsInside(f.rest, u, v);
      ListOrder(c, f.rest, top, u, v);
    }
  }

  // Of two survivors from one child list, the order stays if their parent stays, and is reversed if it
  // goes: the children of a process that goes are spliced in last first.
  lemma {:induction false} PruneOrder(c: Clock, f: Forest, top: bool, p: Process, u: Process, v: Process)
    requires Distinct(f) && LeadsUnder(f, p, u, v) && u in Survivors(c, f, top) && v in Survivors(c, f, top)
    ensures if p in Survivors(c, f, top) then LeadsUnder(Hoist(c, f, top), p, u, v) else LeadsSomewhere(Hoist(c, f, top), v, u)
    ensures !top ==>
      if p in Survivors(c, f, top) then LeadsUnder(HoistBackwards(c, f), p, u, v) else LeadsSomewhere(HoistBackwards(c, f), v, u)
  {
    SurvivorsAreObjects(c, f.kids, false);
    SurvivorsAreObjects(c, f.rest, top);
    var (kids, rest) := (Hoist(c, f.kids, false), Hoist(c, f.rest, top));
    var (bkids, brest) := (HoistBackwards(c, f.kids), HoistBackwards(c, f.rest));
    var one := Tree(f.proc, f.info, kids, Empty);
    SpliceKeepsOrder(bkids, rest, p, u, v);
    SpliceKeepsOrder(brest, bkids, p, u, v);
    SpliceKeepsOrder(brest, one, p, u, v);
    if p == f.proc && Leads(f.kids, u, v) {
      LeadsIsInside(f.kids, u, v);
      ListOrder(c, f.kids, false, u, v);
      LeadsIsSomewhere(bkids, v, u);
    } else if LeadsUnder(f.kids, p, u, v) {
      UnderIsInside(f.kids, p, u, v);
      PruneOrder(c, f.kids, false, p, u, v);
    } else {
      UnderIsInside(f.rest, p, u, v);
      PruneOrder(c, f.rest, top, p, u, v);
    }
  }

  lemma SpliceKeepsOrder(f: Forest, g: Forest, p: Process, u: Process, v: Process)
    ensures LeadsUnder(f, p, u, v) || LeadsUnder(g, p, u, v) ==> LeadsUnder(Append(f, g), p, u, v)
    ensures LeadsSomewhere(f, v, u) || LeadsSomewhere(g, v, u) ==> LeadsSomewhere(Append(f, g), v, u)
  {
    UnderAppend(f, g, p, u, v);
    SomewhereAppend(f, g, v, u);
  }
}
