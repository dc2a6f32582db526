/**
 The growing bitmap of pids seen so far, and the exec event it guards (tasks.c).
 */
module PidMap {

  predicate Bit(b: bv8, k: nat)
    requires k < 8
  {
    b & (1 << k) != 0
  }

  lemma SetBit(b: bv8, k: nat, j: nat)
    requires k < 8 && j < 8
    ensures Bit(b | (1 << k), j) <==> Bit(b, j) || j == k
  {
    Shift(k);
    Shift(j);
  }

  lemma Shift(k: nat)
    requires k < 8
    ensures (1 as bv8) << k == if k == 0 then 1 else if k == 1 then 2 else if k == 2 then 4 else if k == 3 then 8
      else if k == 4 then 16 else if k == 5 then 32 else if k == 6 then 64 else 128
  {
    if k == 0 {} else if k == 1 {} else if k == 2 {} else if k == 3 {} else if k == 4 {} else if k == 5 {} else if k == 6 {} else {}
  }

  class PidMap {
    var pids: array<bv8>

    // p has been asked for
    ghost predicate Has(p: nat)
      reads this, pids
    {
      p / 8 < pids.Length && Bit(pids[p / 8], p % 8)
    }

    constructor ()
      ensures fresh(pids) && forall p: nat :: !Has(p)
    {
      pids := new bv8[0];
    }

    // The map with room for the byte at offset.
    method Grow(offset: nat)
      modifies this
      ensures offset < pids.Length && (pids == old(pids) || fresh(pids))
      ensures forall p: nat :: Has(p) == old(Has(p))
    {
      if pids.Length <= offset {
        var grow := offset - pids.Length + 1;
        if grow < 512 {
          grow := 512;
        }
        var short := pids;
        var longer := new bv8[short.Length + grow](_ => 0);
        for i := 0 to short.Length
          invariant forall k :: 0 <= k < i ==> longer[k] == short[k]
          invariant forall k :: i <= k < longer.Length ==> longer[k] == 0
        {
          longer[i] := short[i];
        }
        pids := longer;
      }
    }

    // was_known_pid
    method WasKnownPid(p: nat) returns (wasKnown: bool)
      modifies this, pids
      ensures wasKnown == old(Has(p))
      ensures forall q: nat :: Has(q) <==> old(Has(q)) || q == p
      ensures pids == old(pids) || fresh(pids)
    {
      var bit, offset := p % 8, p / 8;
      Grow(offset);
      wasKnown := pids[offset] & (1 << bit) != 0;
      Mark(p);
    }

    method Mark(p: nat)
      requires p / 8 < pids.Length
      modifies pids
      ensures forall q: nat :: Has(q) <==> old(Has(q)) || q == p
    {
      var b := pids[p / 8];
      pids[p / 8] := b | (1 << (p % 8));
      forall q: nat | q / 8 == p / 8 ensures Has(q) <==> Bit(b, q % 8) || q == p {
        SetBit(b, p % 8, q % 8);
      }
    }
  }

  // Each pid where it comes up first.
  function Firsts(ps: seq<nat>): seq<nat> {
    if ps == [] then []
    else
      var (init, p) := (ps[..|ps| - 1], ps[|ps| - 1]);
      Firsts(init) + if p in init then [] else [p]
  }

  class Scanner {
    const listening: bool // event_fn is set
    const known: PidMap
    var execs: seq<nat>   // the pids event_fn was called with
    ghost var asked: seq<nat>

    ghost predicate Valid()
      reads this, known, known.pids
    {
      && (forall p: nat :: known.Has(p) <==> listening && p in asked)
      && execs == if listening then Firsts(asked) else []
    }

    constructor (listening: bool)
      ensures Valid() && asked == [] && this.listening == listening && fresh(known) && fresh(known.pids)
    {
      this.listening := listening;
      known := new PidMap();
      execs := [];
      asked := [];
    }

    // pid_scanner_emit_exec
    method EmitExec(newPid: nat)
      requires Valid()
      modifies this, known, known.pids
      ensures Valid() && asked == old(asked) + [newPid]
      ensures execs == old(execs) + if listening && newPid !in old(asked) then [newPid] else []
      ensures known.pids == old(known.pids) || fresh(known.pids)
    {
      ghost var before := asked;
      asked := asked + [newPid];
      assert asked[..|before|] == before;
      if !listening {
        return;
      }
      var wasKnown := known.WasKnownPid(newPid);
      if wasKnown {
        return;
      }
      execs := execs + [newPid];
    }
  }

  function FirstAsk(ps: seq<nat>, p: nat): (i: nat)
    requires p in ps
    ensures i < |ps| && ps[i] == p && p !in ps[..i]
  {
    if ps[0] == p then 0 else
      var i := FirstAsk(ps[1..], p);
      assert ps[..i + 1] == [ps[0]] + ps[1..][..i];
      i + 1
  }

  lemma {:induction false} FirstAskSnoc(ps: seq<nat>, p: nat, q: nat)
    requires q in ps
    ensures FirstAsk(ps + [p], q) == FirstAsk(ps, q)
  {
    if ps[0] != q {
      assert (ps + [p])[1..] == ps[1..] + [p];
      FirstAskSnoc(ps[1..], p, q);
    }
  }

  // Over a whole run the event fires once for every pid asked, in the order they came up.
  lemma {:induction false} OncePerPid(ps: seq<nat>)
    ensures forall p :: p in Firsts(ps) <==> p in ps
    ensures forall i, j :: 0 <= i < j < |Firsts(ps)| ==> FirstAsk(ps, Firsts(ps)[i]) < FirstAsk(ps, Firsts(ps)[j])
  {
    if ps != [] {
      var (init, p) := (ps[..|ps| - 1], ps[|ps| - 1]);
      OncePerPid(init);
      assert ps == init + [p];
      forall q | q in init ensures FirstAsk(ps, q) == FirstAsk(init, q) {
        FirstAskSnoc(init, p, q);
      }
    }
  }
}
