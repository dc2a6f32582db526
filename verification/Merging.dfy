/** `merge_siblings`, `merge_runs` and `merge_processes` on pictures. */
module Merging {
  // What they compute, the normal forms they reach, and what they leave untouched.

  import opened Samples
  import opened Forest
  import opened Pruning

  function Min(a: real, b: real): real { if a <= b then a else b }

  function Max(a: real, b: real): real { if a >= b then a else b }

  // merge_processes(p1, p2), seen from p1
  function MergeInfo(a: Info, b: Info): Info {
    var start := Min(a.start, b.start);
    a.(samples := SortByTime(a.samples + b.samples), start := start, duration := Max(a.End(), b.End()) - start)
  }

  // The first two trees of the list share a command.
  predicate Twins(f: Forest) {
    f.Tree? && f.rest.Tree? && f.rest.info.cmd == f.info.cmd
  }

  // The second tree folded into the first.
  function Fold(f: Forest): Forest
    requires f.Tree? && f.rest.Tree?
  {
    Tree(f.proc, MergeInfo(f.info, f.rest.info), Append(f.kids, f.rest.kids), f.rest.rest)
  }

  // Neighbours with one command fold into the first of them, and only then are the children
  // looked at. The Python loop descends into the children after every single fold.
  ghost function Siblings(f: Forest): Forest
    decreases Size(f)
  {
    if f.Empty? then Empty
    else if Twins(f) then
      FoldFacts(f);
      Siblings(Fold(f))
    else Tree(f.proc, f.info, Siblings(f.kids), Siblings(f.rest))
  }

  // The first tree is a process whose only child shares its command.
  predicate IsRun(f: Forest) {
    f.Tree? && f.kids.Tree? && f.kids.rest.Empty? && f.kids.info.cmd == f.info.cmd
  }

  function Collapse(f: Forest): Forest
    requires f.Tree? && f.kids.Tree?
  {
    Tree(f.proc, MergeInfo(f.info, f.kids.info), f.kids.kids, f.rest)
  }

  ghost function Runs(f: Forest): Forest
    decreases Size(f)
  {
    if f.Empty? then Empty
    else if IsRun(f) then
      CollapseFacts(f);
      Runs(Collapse(f))
    else Tree(f.proc, f.info, Runs(f.kids), Runs(f.rest))
  }

  lemma FoldFacts(f: Forest)
    requires f.Tree? && f.rest.Tree?
    ensures Size(Fold(f)) == Size(f) - 1 && Objs(Fold(f)) <= Objs(f)
    ensures Distinct(f) ==> Distinct(Fold(f))
  {
    Open(f);
    Open(f.rest);
    Open(Fold(f));
    AppendFacts(f.kids, f.rest.kids);
    AppendDistinct(f.kids, f.rest.kids);
  }

  lemma CollapseFacts(f: Forest)
    requires f.Tree? && f.kids.Tree?
    ensures f.kids.rest.Empty? ==> Size(Collapse(f)) == Size(f) - 1
    ensures Size(Collapse(f)) < Size(f) && Objs(Collapse(f)) <= Objs(f)
    ensures Distinct(f) ==> Distinct(Collapse(f))
  {
    Open(f);
    Open(f.kids);
    Open(Collapse(f));
  }

  // ---- eager descent and late folding agree --------------------------------------

  lemma {:induction false} SiblingsHead(f: Forest)
    requires f.Tree?
    ensures Siblings(f).Tree? && Siblings(f).proc == f.proc && Siblings(f).info.cmd == f.info.cmd
    decreases Size(f)
  {
    if Twins(f) {
      FoldFacts(f);
      SiblingsHead(Fold(f));
    }
  }

  // Merging a front part of a list early, all the way down, never changes the outcome.
  lemma {:induction false} SiblingsAbsorb(f: Forest, g: Forest)
    ensures Siblings(Append(Siblings(f), g)) == Siblings(Append(f, g))
    decreases Size(f) + Size(g), 1
  {
    if f.Empty? {
    } else if Twins(f) {
      FoldFacts(f);
      SiblingsAbsorb(Fold(f), g);
      var fg := Append(f, g);
      assert fg.rest == Append(f.rest, g) && Append(Fold(f), g) == Fold(fg);
    } else if f.rest.Empty? {
      EarlyKids(f, Empty, g);
      AppendEmpty(f.kids);
      AppendEmpty(Siblings(f.kids));
    } else {
      SiblingsAbsorb(f.rest, g);
      SiblingsAbsorb(f.kids, Empty);
      AppendEmpty(f.kids);
      AppendEmpty(Siblings(f.kids));
      SiblingsHead(f.rest);
    }
  }

  // Only the head of f counts here: its children may be merged before more are appended.
  lemma {:induction false} EarlyKids(f: Forest, e: Forest, g: Forest)
    requires f.Tree?
    ensures Siblings(Tree(f.proc, f.info, Append(Siblings(f.kids), e), g))
            == Siblings(Tree(f.proc, f.info, Append(f.kids, e), g))
    decreases 1 + Size(f.kids) + Size(e) + Size(g), 0
  {
    if g.Tree? && g.info.cmd == f.info.cmd {
      AppendFacts(e, g.kids);
      AppendAssoc(f.kids, e, g.kids);
      AppendAssoc(Siblings(f.kids), e, g.kids);
      EarlyKids(f.(info := MergeInfo(f.info, g.info)), Append(e, g.kids), g.rest);
    } else {
      SiblingsAbsorb(f.kids, e);
    }
  }

  // One descent of the Python loop: the head's children may be merged at any time.
  lemma {:induction false} EarlyDescent(f: Forest)
    requires f.Tree?
    ensures Siblings(f.(kids := Siblings(f.kids))) == Siblings(f)
  {
    EarlyKids(f, Empty, f.rest);
    AppendEmpty(f.kids);
    AppendEmpty(Siblings(f.kids));
  }

  // A second pass finds nothing to merge.
  lemma SiblingsIdempotent(f: Forest)
    ensures Siblings(Siblings(f)) == Siblings(f)
  {
    SiblingsAbsorb(f, Empty);
    AppendEmpty(f);
    AppendEmpty(Siblings(f));
  }

  // ---- shape ---------------------------------------------------------------------

  lemma {:induction false} SiblingsShape(f: Forest)
    ensures Size(Siblings(f)) <= Size(f) && Objs(Siblings(f)) <= Objs(f)
    ensures Distinct(f) ==> Distinct(Siblings(f))
    decreases Size(f)
  {
    if Twins(f) {
      FoldFacts(f);
      SiblingsShape(Fold(f));
    } else if f.Tree? {
      SiblingsShape(f.kids);
      SiblingsShape(f.rest);
    }
  }

  lemma {:induction false} RunsShape(f: Forest)
    ensures Size(Runs(f)) <= Size(f) && Objs(Runs(f)) <= Objs(f)
    ensures Distinct(f) ==> Distinct(Runs(f))
    ensures Roots(Runs(f)) == Roots(f)
    decreases Size(f)
  {
    if IsRun(f) {
      CollapseFacts(f);
      RunsShape(Collapse(f));
    } else if f.Tree? {
      RunsShape(f.kids);
      RunsShape(f.rest);
    }
  }

  // ---- normal forms --------------------------------------------------------------

  // Nowhere do two neighbours share a command.
  ghost predicate NoTwins(f: Forest) {
    f.Empty? || ((f.rest.Tree? ==> f.rest.info.cmd != f.info.cmd) && NoTwins(f.kids) && NoTwins(f.rest))
  }

  // Nowhere does an only child share its parent's command.
  ghost predicate NoRuns(f: Forest) {
    f.Empty? ||
    ((f.kids.Tree? && f.kids.rest.Empty? ==> f.kids.info.cmd != f.info.cmd) && NoRuns(f.kids) && NoRuns(f.rest))
  }

  lemma {:induction false} SiblingsHasNoTwins(f: Forest)
    ensures NoTwins(Siblings(f))
    decreases Size(f)
  {
    if Twins(f) {
      FoldFacts(f);
      SiblingsHasNoTwins(Fold(f));
    } else if f.Tree? {
      SiblingsHasNoTwins(f.kids);
      SiblingsHasNoTwins(f.rest);
      if f.rest.Tree? {
        SiblingsHead(f.rest);
      }
    }
  }

  // The pass is the identity exactly on its normal forms.
  lemma {:induction false} NoTwinsIsFixed(f: Forest)
    ensures NoTwins(f) <==> Siblings(f) == f
    decreases Size(f)
  {
    if NoTwins(f) {
      if f.Tree? {
        NoTwinsIsFixed(f.kids);
        NoTwinsIsFixed(f.rest);
      }
    } else if Siblings(f) == f {
      SiblingsHasNoTwins(f);
    }
  }

  // Collapsing runs changes neither how many trees a list has nor their commands.
  lemma {:induction false} RunsHead(f: Forest)
    requires f.Tree?
    ensures Runs(f).Tree? && Runs(f).info.cmd == f.info.cmd && (Runs(f).rest.Empty? <==> f.rest.Empty?)
    decreases Size(f)
  {
    if IsRun(f) {
      CollapseFacts(f);
      RunsHead(Collapse(f));
    } else if f.rest.Tree? {
      RunsHead(f.rest);
    }
  }

  lemma {:induction false} RunsHasNoRuns(f: Forest)
    ensures NoRuns(Runs(f))
    decreases Size(f)
  {
    if IsRun(f) {
      CollapseFacts(f);
      RunsHasNoRuns(Collapse(f));
    } else if f.Tree? {
      RunsHasNoRuns(f.kids);
      RunsHasNoRuns(f.rest);
      if f.kids.Tree? {
        RunsHead(f.kids);
      }
    }
  }

  lemma {:induction false} NoRunsIsFixed(f: Forest)
    ensures NoRuns(f) <==> Runs(f) == f
    decreases Size(f)
  {
    if NoRuns(f) {
      if f.Tree? {
        NoRunsIsFixed(f.kids);
        NoRunsIsFixed(f.rest);
      }
    } else if Runs(f) == f {
      RunsHasNoRuns(f);
    }
  }

  // Collapsing runs does not bring twins back.
  lemma {:induction false} RunsKeepsNoTwins(f: Forest)
    requires NoTwins(f)
    ensures NoTwins(Runs(f))
    decreases Size(f)
  {
    if IsRun(f) {
      CollapseFacts(f);
      RunsKeepsNoTwins(Collapse(f));
    } else if f.Tree? {
      RunsKeepsNoTwins(f.kids);
      RunsKeepsNoTwins(f.rest);
      if f.rest.Tree? {
        RunsHead(f.rest);
      }
    }
  }

  // ---- lifetimes survive merging -------------------------------------------------

  lemma MergeCovers(a: Info, b: Info)
    ensures MergeInfo(a, b).duration >= a.duration && MergeInfo(a, b).duration >= b.duration
    ensures MergeInfo(a, b).start == Min(a.start, b.start) && MergeInfo(a, b).End() == Max(a.End(), b.End())
  {
  }

  lemma {:induction false} SiblingsKeepsLong(c: Clock, f: Forest)
    ensures AllLong(c, f) ==> AllLong(c, Siblings(f))
    ensures LongBelowRoots(c, f) ==> LongBelowRoots(c, Siblings(f))
    decreases Size(f)
  {
    if Twins(f) {
      FoldFacts(f);
      AllLongAppend(c, f.kids, f.rest.kids);
      MergeCovers(f.info, f.rest.info);
      OpenLong(c, f);
      OpenLong(c, f.rest);
      OpenLong(c, Fold(f));
      SiblingsKeepsLong(c, Fold(f));
    } else if f.Tree? {
      SiblingsKeepsLong(c, f.kids);
      SiblingsKeepsLong(c, f.rest);
    }
  }

  lemma {:induction false} RunsKeepsLong(c: Clock, f: Forest)
    ensures AllLong(c, f) ==> AllLong(c, Runs(f))
    ensures LongBelowRoots(c, f) ==> LongBelowRoots(c, Runs(f))
    decreases Size(f)
  {
    if IsRun(f) {
      MergeCovers(f.info, f.kids.info);
      OpenLong(c, f);
      OpenLong(c, f.kids);
      OpenLong(c, Collapse(f));
      CollapseFacts(f);
      RunsKeepsLong(c, Collapse(f));
    } else if f.Tree? {
      RunsKeepsLong(c, f.kids);
      RunsKeepsLong(c, f.rest);
    }
  }

  // ---- conservation --------------------------------------------------------------

  // All samples held by processes of one command.
  ghost function SamplesOf(f: Forest, cmd: string): multiset<Sample> {
    if f.Empty? then multiset{}
    else (if f.info.cmd == cmd then multiset(f.info.samples) else multiset{})
         + SamplesOf(f.kids, cmd) + SamplesOf(f.rest, cmd)
  }

  // get_start_time and get_end_time, with their stand-ins for an empty forest
  function StartTime(f: Forest): real {
    if f.Empty? then 100000000.0 else Min(Min(f.info.start, StartTime(f.kids)), StartTime(f.rest))
  }

  function EndTime(f: Forest): real {
    if f.Empty? then -100000000.0 else Max(Max(f.info.End(), EndTime(f.kids)), EndTime(f.rest))
  }

  ghost predicate AllTimeSorted(f: Forest) {
    f.Empty? || (TimeSorted(f.info.samples) && AllTimeSorted(f.kids) && AllTimeSorted(f.rest))
  }

  // Both forests hold the same samples per command and span the same time.
  ghost predicate SameContent(f: Forest, g: Forest) {
    && (forall cmd :: SamplesOf(f, cmd) == SamplesOf(g, cmd))
    && StartTime(f) == StartTime(g) && EndTime(f) == EndTime(g)
    && (AllTimeSorted(f) ==> AllTimeSorted(g))
  }

  lemma OpenContent(f: Forest)
    requires f.Tree?
    ensures forall cmd :: SamplesOf(f, cmd)
              == (if f.info.cmd == cmd then multiset(f.info.samples) else multiset{}) + SamplesOf(f.kids, cmd) + SamplesOf(f.rest, cmd)
    ensures StartTime(f) == Min(Min(f.info.start, StartTime(f.kids)), StartTime(f.rest))
    ensures EndTime(f) == Max(Max(f.info.End(), EndTime(f.kids)), EndTime(f.rest))
    ensures AllTimeSorted(f) <==> TimeSorted(f.info.samples) && AllTimeSorted(f.kids) && AllTimeSorted(f.rest)
  {
  }

  lemma {:induction false} ContentAppend(f: Forest, g: Forest)
    ensures forall cmd :: SamplesOf(Append(f, g), cmd) == SamplesOf(f, cmd) + SamplesOf(g, cmd)
    ensures StartTime(Append(f, g)) == Min(StartTime(f), StartTime(g)) && StartTime(g) <= 100000000.0
    ensures EndTime(Append(f, g)) == Max(EndTime(f), EndTime(g)) && EndTime(g) >= -100000000.0
    ensures AllTimeSorted(Append(f, g)) <==> AllTimeSorted(f) && AllTimeSorted(g)
  {
    Sentinels(g);
    if f.Tree? {
      ContentAppend(f.rest, g);
    }
  }

  lemma {:induction false} Sentinels(f: Forest)
    ensures StartTime(f) <= 100000000.0 && EndTime(f) >= -100000000.0
  {
    if f.Tree? {
      Sentinels(f.rest);
    }
  }

  lemma MergedSamples(a: Info, b: Info)
    ensures multiset(MergeInfo(a, b).samples) == multiset(a.samples) + multiset(b.samples)
    ensures TimeSorted(MergeInfo(a, b).samples)
  {
    SortSorts(a.samples + b.samples);
  }

  lemma FoldKeepsContent(f: Forest)
    requires Twins(f)
    ensures SameContent(f, Fold(f))
  {
    OpenContent(f);
    OpenContent(f.rest);
    OpenContent(Fold(f));
    ContentAppend(f.kids, f.rest.kids);
    MergedSamples(f.info, f.rest.info);
    MergeCovers(f.info, f.rest.info);
  }

  lemma CollapseKeepsContent(f: Forest)
    requires IsRun(f)
    ensures SameContent(f, Collapse(f))
  {
    MergedSamples(f.info, f.kids.info);
    MergeCovers(f.info, f.kids.info);
    OpenContent(f);
    OpenContent(f.kids);
    OpenContent(Collapse(f));
    Sentinels(f.kids.kids);
  }

  lemma {:induction false} SiblingsKeepsContent(f: Forest)
    ensures SameContent(f, Siblings(f))
    decreases Size(f)
  {
    if Twins(f) {
      FoldFacts(f);
      FoldKeepsContent(f);
      SiblingsKeepsContent(Fold(f));
    } else if f.Tree? {
      SiblingsKeepsContent(f.kids);
      SiblingsKeepsContent(f.rest);
      OpenContent(f);
      OpenContent(Siblings(f));
    }
  }

  lemma {:induction false} RunsKeepsContent(f: Forest)
    ensures SameContent(f, Runs(f))
    decreases Size(f)
  {
    if IsRun(f) {
      CollapseKeepsContent(f);
      CollapseFacts(f);
      RunsKeepsContent(Collapse(f));
    } else if f.Tree? {
      RunsKeepsContent(f.kids);
      RunsKeepsContent(f.rest);
      OpenContent(f);
      OpenContent(Runs(f));
    }
  }

  // Where times are equal, the samples of the first process come first.
  lemma MergedOrder(a: Info, b: Info, t: int)
    ensures At(MergeInfo(a, b).samples, t) == At(a.samples, t) + At(b.samples, t)
  {
    SortIsStable(a.samples + b.samples, t);
    AtAppend(a.samples, b.samples, t);
  }

  // ---- who stays, and in which order -----------------------------------------------

  function LastCmd(f: Forest): string
    requires f.Tree?
  {
    if f.rest.Empty? then f.info.cmd else LastCmd(f.rest)
  }

  // A list falls apart wherever the command changes.
  lemma {:induction false} SiblingsSplit(f: Forest, g: Forest)
    requires f.Tree? && g.Tree? && LastCmd(f) != g.info.cmd
    ensures Siblings(Append(f, g)) == Append(Siblings(f), Siblings(g))
    decreases Size(f)
  {
    if Twins(f) {
      FoldFacts(f);
      SiblingsSplit(Fold(f), g);
      var fg := Append(f, g);
      assert fg.rest == Append(f.rest, g) && Append(Fold(f), g) == Fold(fg);
    } else if f.rest.Tree? {
      SiblingsSplit(f.rest, g);
    }
  }

  // A process goes if the one before it in its list has the same command; the first one stays.
  lemma {:induction false} TwinGoes(f: Forest, g: Forest)
    requires f.Tree? && g.Tree? && LastCmd(f) == g.info.cmd && Distinct(Append(f, g))
    ensures g.proc !in Objs(Siblings(Append(f, g)))
    ensures Siblings(Append(f, g)).Tree? && Siblings(Append(f, g)).proc == f.proc
    decreases Size(f)
  {
    var fg := Append(f, g);
    SiblingsHead(fg);
    AppendFacts(f.rest, g);
    if Twins(f) {
      FoldFacts(f);
      FoldFacts(fg);
      assert fg.rest == Append(f.rest, g) && Append(Fold(f), g) == Fold(fg);
      TwinGoes(Fold(f), g);
    } else if f.rest.Tree? {
      TwinGoes(f.rest, g);
      SiblingsShape(f.kids);
    } else {
      FoldFacts(fg);
      FoldedIsGone(fg);
      SiblingsShape(Fold(fg));
    }
  }

  lemma FoldedIsGone(f: Forest)
    requires f.Tree? && f.rest.Tree? && Distinct(f)
    ensures f.rest.proc !in Objs(Fold(f))
  {
    AppendFacts(f.kids, f.rest.kids);
  }

  // u comes before v when the forest is read from top to bottom, children right behind their parent.
  ghost predicate Earlier(f: Forest, u: Process, v: Process) {
    f.Tree? &&
    (|| (u == f.proc && (v in Objs(f.kids) || v in Objs(f.rest)))
     || (u in Objs(f.kids) && v in Objs(f.rest))
     || Earlier(f.kids, u, v) || Earlier(f.rest, u, v))
  }

  lemma {:induction false} EarlierAppend(f: Forest, g: Forest, u: Process, v: Process)
    ensures Earlier(Append(f, g), u, v) <==> Earlier(f, u, v) || Earlier(g, u, v) || (u in Objs(f) && v in Objs(g))
  {
    if f.Tree? {
      EarlierAppend(f.rest, g, u, v);
      AppendFacts(f.rest, g);
    }
  }

  lemma FoldKeepsOrder(f: Forest, u: Process, v: Process)
    requires f.Tree? && f.rest.Tree?
    ensures Earlier(Fold(f), u, v) ==> Earlier(f, u, v)
  {
    EarlierAppend(f.kids, f.rest.kids, u, v);
    AppendFacts(f.kids, f.rest.kids);
  }

  // Merging siblings changes nobody's place.
  lemma {:induction false} SiblingsKeepsOrder(f: Forest, u: Process, v: Process)
    ensures Earlier(Siblings(f), u, v) ==> Earlier(f, u, v)
    decreases Size(f)
  {
    if Twins(f) {
      FoldFacts(f);
      FoldKeepsOrder(f, u, v);
      SiblingsKeepsOrder(Fold(f), u, v);
    } else if f.Tree? {
      SiblingsShape(f.kids);
      SiblingsShape(f.rest);
      SiblingsKeepsOrder(f.kids, u, v);
      SiblingsKeepsOrder(f.rest, u, v);
    }
  }

  lemma {:induction false} RunsKeepsOrder(f: Forest, u: Process, v: Process)
    ensures Earlier(Runs(f), u, v) ==> Earlier(f, u, v)
    decreases Size(f)
  {
    if IsRun(f) {
      CollapseFacts(f);
      RunsKeepsOrder(Collapse(f), u, v);
    } else if f.Tree? {
      RunsShape(f.kids);
      RunsShape(f.rest);
      RunsKeepsOrder(f.kids, u, v);
      RunsKeepsOrder(f.rest, u, v);
    }
  }

  lemma FoldKeepsAncestry(f: Forest, u: Process, v: Process)
    requires Twins(f) && Distinct(f) && Above(f, u, v) && u in Objs(Fold(f)) && v in Objs(Fold(f))
    ensures Above(Fold(f), u, v)
  {
    FoldedIsGone(f);
    AppendFacts(f.kids, f.rest.kids);
    AppendAbove(f.kids, f.rest.kids, u, v);
  }

  // Whoever stays, stays below all of its ancestors that stay.
  lemma {:induction false} SiblingsKeepsAncestry(f: Forest, u: Process, v: Process)
    requires Distinct(f) && Above(f, u, v) && u in Objs(Siblings(f)) && v in Objs(Siblings(f))
    ensures Above(Siblings(f), u, v)
    decreases Size(f)
  {
    if Twins(f) {
      FoldFacts(f);
      SiblingsShape(Fold(f));
      FoldKeepsAncestry(f, u, v);
      SiblingsKeepsAncestry(Fold(f), u, v);
    } else {
      SiblingsShape(f.kids);
      SiblingsShape(f.rest);
      AboveIsInside(f.kids, u, v);
      AboveIsInside(f.rest, u, v);
      if Above(f.kids, u, v) {
        SiblingsKeepsAncestry(f.kids, u, v);
      } else if Above(f.rest, u, v) {
        SiblingsKeepsAncestry(f.rest, u, v);
      }
    }
  }

  lemma CollapseKeepsAncestry(f: Forest, u: Process, v: Process)
    requires IsRun(f) && Distinct(f) && Above(f, u, v) && u in Objs(Collapse(f)) && v in Objs(Collapse(f))
    ensures Above(Collapse(f), u, v)
  {
    var child := f.kids;
    Open(f);
    Open(child);
    Open(Collapse(f));
    assert Objs(child.rest) == {} && child.proc !in Objs(Collapse(f));
    AboveIsInside(child, u, v);
    AboveIsInside(child.rest, u, v);
    assert Above(child, u, v) ==> Above(child.kids, u, v);
  }

  lemma {:induction false} RunsKeepsAncestry(f: Forest, u: Process, v: Process)
    requires Distinct(f) && Above(f, u, v) && u in Objs(Runs(f)) && v in Objs(Runs(f))
    ensures Above(Runs(f), u, v)
    decreases Size(f)
  {
    if IsRun(f) {
      CollapseFacts(f);
      RunsShape(Collapse(f));
      CollapseKeepsAncestry(f, u, v);
      RunsKeepsAncestry(Collapse(f), u, v);
    } else {
      RunsShape(f.kids);
      RunsShape(f.rest);
      AboveIsInside(f.kids, u, v);
      AboveIsInside(f.rest, u, v);
      if Above(f.kids, u, v) {
        RunsKeepsAncestry(f.kids, u, v);
      } else if Above(f.rest, u, v) {
        RunsKeepsAncestry(f.rest, u, v);
      }
    }
  }

  // ---- the whole reduction -------------------------------------------------------

  // __init__ with prune set; merge_exploders, between the first two, changes nothing
  ghost function Reduce(c: Clock, f: Forest): Forest {
    Runs(Siblings(Hoist(c, f, true)))
  }

  lemma ReducedIsNormal(c: Clock, f: Forest)
    ensures var r := Reduce(c, f);
      && NoTwins(r) && NoRuns(r) && LongBelowRoots(c, r)
      && Siblings(r) == r && Runs(r) == r
  {
    var pruned := Hoist(c, f, true);
    var merged := Siblings(pruned);
    PruneLeavesLong(c, f);
    SiblingsKeepsLong(c, pruned);
    RunsKeepsLong(c, merged);
    SiblingsHasNoTwins(pruned);
    RunsKeepsNoTwins(merged);
    RunsHasNoRuns(merged);
    NoTwinsIsFixed(Runs(merged));
    NoRunsIsFixed(Runs(merged));
  }

  // Whatever the reduction loses, per command, it loses by pruning.
  lemma ReducedContent(c: Clock, f: Forest)
    ensures SameContent(Hoist(c, f, true), Reduce(c, f))
  {
    SiblingsKeepsContent(Hoist(c, f, true));
    RunsKeepsContent(Siblings(Hoist(c, f, true)));
  }
}
