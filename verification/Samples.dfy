/** The records of samples.py that the parser fills in and the process tree moves around. */
module Samples {

  // A ProcessSample together with its CPUSample. Times are hundredths of a second;
  // the four loads are exact integers (the taskstats counters are nanoseconds).
  datatype Sample = Sample(time: int, state: char, user: int, sys: int, io: int, swap: int)

  ghost predicate TimeSorted(s: seq<Sample>) {
    forall i, j :: 0 <= i < j < |s| ==> s[i].time <= s[j].time
  }

  // list.sort(key = time): a stable sort, written as an insertion sort.
  function SortByTime(s: seq<Sample>): seq<Sample> {
    if s == [] then [] else InsertByTime(s[0], SortByTime(s[1..]))
  }

  function InsertByTime(x: Sample, s: seq<Sample>): seq<Sample> {
    if s == [] || x.time <= s[0].time then [x] + s else [s[0]] + InsertByTime(x, s[1..])
  }

  lemma {:induction false} InsertSorts(x: Sample, s: seq<Sample>)
    requires TimeSorted(s)
    ensures var r := InsertByTime(x, s);
      && TimeSorted(r) && |r| > 0 && (r[0] == x || (s != [] && r[0] == s[0] && s[0].time < x.time))
  {
    if s != [] && s[0].time < x.time {
      InsertSorts(x, s[1..]);
      var r := InsertByTime(x, s[1..]);
      assert r[0].time >= s[0].time;
      assert forall i :: 0 <= i < |r| ==> r[0].time <= r[i].time;
    }
  }

  lemma {:induction false} InsertKeeps(x: Sample, s: seq<Sample>)
    ensures multiset(InsertByTime(x, s)) == multiset(s) + multiset{x}
  {
    if s != [] && s[0].time < x.time {
      InsertKeeps(x, s[1..]);
      assert s == [s[0]] + s[1..];
    }
  }

  lemma {:induction false} SortSorts(s: seq<Sample>)
    ensures forall i, j :: 0 <= i < j < |SortByTime(s)| ==> SortByTime(s)[i].time <= SortByTime(s)[j].time
    ensures TimeSorted(SortByTime(s)) && multiset(SortByTime(s)) == multiset(s)
  {
    if s != [] {
      SortSorts(s[1..]);
      InsertSorts(s[0], SortByTime(s[1..]));
      InsertKeeps(s[0], SortByTime(s[1..]));
      assert s == [s[0]] + s[1..];
    }
  }

  // The samples of one instant, in order.
  ghost function At(s: seq<Sample>, t: int): seq<Sample> {
    if s == [] then [] else (if s[0].time == t then [s[0]] else []) + At(s[1..], t)
  }

  lemma AtCons(x: Sample, s: seq<Sample>, t: int)
    ensures At([x] + s, t) == (if x.time == t then [x] else []) + At(s, t)
  {
    assert ([x] + s)[1..] == s;
  }

  lemma {:induction false} InsertIsStable(x: Sample, s: seq<Sample>, t: int)
    requires TimeSorted(s)
    ensures At(InsertByTime(x, s), t) == (if x.time == t then [x] else []) + At(s, t)
  {
    if s == [] || x.time <= s[0].time {
      AtCons(x, s, t);
    } else {
      var y, s' := s[0], s[1..];
      InsertIsStable(x, s', t);
      AtCons(y, InsertByTime(x, s'), t);
      AtCons(y, s', t);
      assert s == [y] + s';
    }
  }

  lemma {:induction false} AtAppend(s: seq<Sample>, r: seq<Sample>, t: int)
    ensures At(s + r, t) == At(s, t) + At(r, t)
  {
    if s == [] {
      assert s + r == r;
    } else {
      AtAppend(s[1..], r, t);
      assert s + r == [s[0]] + (s[1..] + r) && s == [s[0]] + s[1..];
      AtCons(s[0], s[1..] + r, t);
      AtCons(s[0], s[1..], t);
      Grouped(if s[0].time == t then [s[0]] else [], At(s[1..], t), At(r, t));
    }
  }

  lemma Grouped(a: seq<Sample>, b: seq<Sample>, c: seq<Sample>)
    ensures a + (b + c) == a + b + c
  {
  }

  // Samples of the same instant keep the order in which they were listed.
  lemma {:induction false} SortIsStable(s: seq<Sample>, t: int)
    ensures At(SortByTime(s), t) == At(s, t)
  {
    if s != [] {
      SortIsStable(s[1..], t);
      SortSorts(s[1..]);
      InsertIsStable(s[0], SortByTime(s[1..]), t);
    }
  }
}
