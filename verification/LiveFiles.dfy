/**
 The files that the dumper of LiveDump has written when it is done.

 A slot whose pointer was still null when it was copied cannot be read, and the chunk before it is
 written once more. Where the bytes of a file come from is said in places: Places gives, for each byte
 of a file, the number of the byte of its stream that it is. A file is verbatim when these numbers
 count up from 0. The lemmas go through the slots for one stream at a time: as long as nothing of the
 stream is written for an empty slot, and nothing of it behind an empty slot of its own, file and stream
 are in step (InStep); a chunk with bytes that is written twice, or behind a gap, is out of its place.
 */
module LiveFiles {
  import opened Wrappers
  import opened ChunkLog
  import opened LiveDump

  // The dumper has been through every slot that its copy of the table counts.
  ghost predicate Dumped(st: State) {
    st.dumper.Reading? && |st.dumper.got| == st.dumper.max && st.dumper.max <= |st.dumper.ptrs|
  }

  // A slot whose pointer was not there yet when it was copied.
  ghost predicate EmptyAt(st: State, i: nat)
    requires Dumped(st)
  {
    i < st.dumper.max && !st.dumper.ptrs[i]
  }

  ghost predicate NoneEmpty(st: State)
    requires Dumped(st)
  {
    forall i: nat :: !EmptyAt(st, i)
  }

  // No bytes of s come from slot k or a later one.
  ghost predicate Stuck(st: State, k: nat, s: string)
    requires Dumped(st)
  {
    forall j :: k <= j < st.dumper.max && st.dumper.ptrs[j] && st.dumper.got[j].dest == s ==> st.dumper.got[j].data == []
  }

  // An empty slot is the listener's, filled between the copies of its pointer and of the count. It
  // spares the file of s if the chunk before, written once more in its place, has no bytes of s, and
  // if no later chunk of s has any in case the slot went to s.
  ghost predicate SparedAt(st: State, i: nat, s: string)
    requires Dumped(st)
  {
    EmptyAt(st, i) ==>
      && (st.dumper.got[i].dest == s ==> st.dumper.got[i].data == [])
      && (i < |st.cells| && st.cells[i].dest == s ==> Stuck(st, i + 1, s))
  }

  ghost predicate Spared(st: State, s: string)
    requires Dumped(st)
  {
    forall i: nat :: SparedAt(st, i, s)
  }

  ghost predicate Harmless(st: State)
    requires Dumped(st)
  {
    forall s :: Spared(st, s)
  }

  // When every chunk in the file of s has bytes: the empty slot has no chunk of s before it in the
  // buffer, and none behind it if it went to s.
  ghost predicate AsideAt(st: State, i: nat, s: string)
    requires Dumped(st)
  {
    EmptyAt(st, i) ==>
      && st.dumper.got[i].dest != s
      && (i < |st.cells| && st.cells[i].dest == s
          ==> forall j :: i < j < st.dumper.max && st.dumper.ptrs[j] ==> st.dumper.got[j].dest != s)
  }

  ghost predicate Aside(st: State, s: string)
    requires Dumped(st)
  {
    forall i: nat :: AsideAt(st, i, s)
  }

  // Nothing wrong is written to s for the empty slot, and if it went to s, it had no bytes yet when
  // the count was copied.
  ghost predicate KeptAt(st: State, i: nat, s: string)
    requires Dumped(st)
  {
    EmptyAt(st, i) ==>
      && (st.dumper.got[i].dest == s ==> st.dumper.got[i].data == [])
      && (i < |st.dumper.seen| && st.dumper.seen[i].dest == s ==> st.dumper.seen[i].data == [])
  }

  ghost predicate Kept(st: State, s: string)
    requires Dumped(st)
  {
    forall i: nat :: KeptAt(st, i, s)
  }

  function Said(st: State, s: string): seq<byte> { if s in st.writers then st.writers[s].said else [] }

  // Every append but the one in progress.
  function Completed(w: Writer): seq<byte> {
    if w.pc.Idle? || w.done > |w.said| then w.said else w.said[..w.done]
  }

  // The bytes of s in a chunk.
  function Of(c: Chunk, s: string): seq<byte> { if c.dest == s then c.data else [] }

  lemma DemuxAt(a: seq<Chunk>, k: nat, s: string)
    requires k < |a|
    ensures Demux(a[..k + 1], s) == Demux(a[..k], s) + Of(a[k], s)
  {
    assert a[..k + 1][..k] == a[..k];
  }

  // A list that has no more in any chunk than another, and nothing in chunk i, is short of that one.
  lemma {:induction false} DemuxMisses(a: seq<Chunk>, b: seq<Chunk>, s: string, i: nat, k: nat)
    requires k <= |a| && k <= |b| && forall j :: 0 <= j < k ==> |Of(a[j], s)| <= |Of(b[j], s)|
    requires i < k ==> Of(a[i], s) == []
    ensures |Demux(a[..k], s)| + (if i < k then |Of(b[i], s)| else 0) <= |Demux(b[..k], s)|
  {
    if k > 0 {
      DemuxMisses(a, b, s, i, k - 1);
      DemuxLength(a, k - 1, s);
      DemuxLength(b, k - 1, s);
    }
  }

  lemma DemuxLength(a: seq<Chunk>, k: nat, s: string)
    requires k < |a|
    ensures |Demux(a[..k + 1], s)| == |Demux(a[..k], s)| + |Of(a[k], s)|
  {
    DemuxAt(a, k, s);
  }

  // ---- where the bytes of a file come from ---------------------------------------

  // The chunk that is in the buffer after slot i.
  function Source(ptrs: seq<bool>, i: nat): Option<nat>
    requires i < |ptrs|
  {
    if ptrs[i] then Some(i) else if i == 0 then None else Source(ptrs, i - 1)
  }

  // The place in its stream of the first byte of slot j.
  function Start(st: State, j: nat): nat {
    if j < |st.cells| then |Demux(Seen(st.cells)[..j], st.cells[j].dest)| else 0
  }

  // The places in their stream of the first n bytes of a buffer; -1 for bytes of no stream.
  function Span(st: State, from: Option<nat>, n: nat): seq<int> {
    seq(n, o requires 0 <= o < n => if from.Some? then Start(st, from.value) + o else -1)
  }

  // Where the bytes come from that the file of s has after k slots.
  function Places(st: State, k: nat, s: string): seq<int>
    requires st.dumper.Reading? && k <= |st.dumper.got| && k <= |st.dumper.ptrs|
  {
    if k == 0 then []
    else
      var c := st.dumper.got[k - 1];
      Places(st, k - 1, s) + if c.dest == s then Span(st, Source(st.dumper.ptrs, k - 1), |c.data|) else []
  }

  // Byte number p of the file is byte number p of the stream.
  ghost predicate FileVerbatim(st: State, s: string)
    requires Dumped(st)
  {
    forall p :: 0 <= p < |Places(st, st.dumper.max, s)| ==> Places(st, st.dumper.max, s)[p] == p
  }

  ghost predicate Verbatim(st: State)
    requires Dumped(st)
  {
    forall s :: FileVerbatim(st, s)
  }

  // For a stream that had not been sent to the last slot when the count was copied: its file is
  // verbatim and goes at least as far as could be read then.
  ghost predicate UpToDate(st: State, s: string)
    requires Dumped(st) && s in st.dumper.writers
  {
    FileVerbatim(st, s) && |Public(st.dumper.writers[s])| <= |Demux(st.dumper.got, s)|
  }

  lemma {:induction false} PlacesPrefix(st: State, k: nat, s: string)
    requires Dumped(st) && k <= st.dumper.max
    ensures Places(st, k, s) <= Places(st, st.dumper.max, s)
    decreases st.dumper.max - k
  {
    if k < st.dumper.max {
      PlacesPrefix(st, k + 1, s);
    }
  }

  // In a verbatim file a chunk with bytes is written where its first byte belongs.
  lemma ChunkInPlace(st: State, k: nat, s: string)
    requires Dumped(st) && FileVerbatim(st, s) && k < st.dumper.max
    requires st.dumper.got[k].dest == s && st.dumper.got[k].data != []
    ensures Source(st.dumper.ptrs, k).Some? && |Places(st, k, s)| == Start(st, Source(st.dumper.ptrs, k).value)
  {
    var (p, all) := (|Places(st, k, s)|, Places(st, st.dumper.max, s));
    PlacesPrefix(st, k + 1, s);
    assert Places(st, k + 1, s)[p] == all[p] == p;
  }

  lemma {:induction false} EmptyWritesNothing(st: State, i: nat, s: string)
    requires Inv(st) && Dumped(st) && FileVerbatim(st, s) && EmptyAt(st, i) && st.dumper.got[i].dest == s
    ensures st.dumper.got[i].data == []
  {
    var d := st.dumper;
    assert CopiedOk(st, i);
    if d.got[i].data != [] {
      ChunkInPlace(st, i, s);
      if d.ptrs[i - 1] {
        ChunkInPlace(st, i - 1, s);
      } else {
        EmptyWritesNothing(st, i - 1, s);
      }
    }
  }

  lemma {:induction false} PlacesLength(st: State, k: nat, s: string)
    requires Dumped(st) && k <= st.dumper.max
    ensures |Places(st, k, s)| == |Demux(st.dumper.got[..k], s)|
  {
    if k > 0 {
      PlacesLength(st, k - 1, s);
      DemuxAt(st.dumper.got, k - 1, s);
    }
  }

  // Without slot i, the file is short of its bytes.
  lemma PlacesMiss(st: State, i: nat, k: nat, s: string)
    requires Inv(st) && Dumped(st) && FileVerbatim(st, s) && EmptyAt(st, i) && i < k
    requires k <= st.dumper.max && k <= |st.cells| && st.cells[i].dest == s
    ensures |Places(st, k, s)| + |Shown(st.cells[i]).data| <= |Demux(Seen(st.cells)[..k], s)|
  {
    forall j: nat | j < k ensures |Of(st.dumper.got[j], s)| <= |Of(Seen(st.cells)[j], s)| {
      NoMoreThanShown(st, j, s);
    }
    NoMoreThanShown(st, i, s);
    DemuxMisses(st.dumper.got, Seen(st.cells), s, i, k);
    PlacesLength(st, k, s);
  }

  lemma NoMoreThanShown(st: State, k: nat, s: string)
    requires Inv(st) && Dumped(st) && FileVerbatim(st, s) && k < st.dumper.max && k < |st.cells|
    ensures |Of(st.dumper.got[k], s)| <= |Of(Shown(st.cells[k]), s)|
    ensures EmptyAt(st, k) ==> Of(st.dumper.got[k], s) == []
  {
    assert CopiedOk(st, k);
    if EmptyAt(st, k) && st.dumper.got[k].dest == s {
      EmptyWritesNothing(st, k, s);
    }
  }

  // A later chunk of the stream would be written where bytes of slot i belong.
  lemma NothingOutOfPlace(st: State, i: nat, k: nat, s: string)
    requires Inv(st) && Dumped(st) && FileVerbatim(st, s) && EmptyAt(st, i) && i < |st.cells| && st.cells[i].dest == s
    requires i < k < st.dumper.max && st.dumper.ptrs[k] && st.dumper.got[k].dest == s
    ensures st.dumper.got[k].data == []
  {
    assert CopiedOk(st, k) && CellOk(st, i) && CellOk(st, k);
    PlacesMiss(st, i, k, s);
    if st.dumper.got[k].data != [] {
      ChunkInPlace(st, k, s);
    }
  }

  lemma VerbatimIsSpared(st: State, i: nat, s: string)
    requires Inv(st) && Dumped(st) && FileVerbatim(st, s)
    ensures SparedAt(st, i, s)
  {
    var d := st.dumper;
    if EmptyAt(st, i) && d.got[i].dest == s {
      EmptyWritesNothing(st, i, s);
    }
    if EmptyAt(st, i) && i < |st.cells| && st.cells[i].dest == s {
      forall k | i < k < d.max && d.ptrs[k] && d.got[k].dest == s ensures d.got[k].data == [] {
        NothingOutOfPlace(st, i, k, s);
      }
    }
  }

  // ---- a file that is spared -----------------------------------------------------

  // The table as far as it goes, after k slots.
  function Upto(st: State, k: nat): seq<Chunk> { Seen(st.cells)[..Min(k, |st.cells|)] }

  ghost predicate Placed(st: State, k: nat, s: string)
    requires Dumped(st) && k <= st.dumper.max
  {
    && |Places(st, k, s)| == |Demux(st.dumper.got[..k], s)|
    && forall p :: 0 <= p < |Places(st, k, s)| ==> Places(st, k, s)[p] == p
  }

  ghost predicate InStep(st: State, k: nat, s: string)
    requires Dumped(st) && k <= st.dumper.max
  {
    var file, all := Demux(st.dumper.got[..k], s), Demux(Upto(st, k), s);
    file <= all && (file == all || Stuck(st, k, s)) && Placed(st, k, s)
  }

  lemma {:induction false} SparedUpto(st: State, k: nat, s: string)
    requires Inv(st) && Dumped(st) && Spared(st, s) && k <= st.dumper.max
    ensures InStep(st, k, s)
  {
    if k == 0 {
      NothingYet(st, s);
    } else {
      SparedUpto(st, k - 1, s);
      if st.dumper.ptrs[k - 1] {
        PointerKeepsStep(st, k - 1, s);
      } else {
        assert SparedAt(st, k - 1, s);
        EmptyKeepsStep(st, k - 1, s);
      }
    }
  }

  lemma NothingYet(st: State, s: string)
    requires Dumped(st)
    ensures InStep(st, 0, s)
  {
    assert Upto(st, 0) == [] && st.dumper.got[..0] == [];
  }

  lemma UptoNext(st: State, k: nat, s: string)
    requires Dumped(st) && k < st.dumper.max
    ensures Demux(st.dumper.got[..k + 1], s) == Demux(st.dumper.got[..k], s) + Of(st.dumper.got[k], s)
    ensures Demux(Upto(st, k + 1), s) == Demux(Upto(st, k), s) + (if k < |st.cells| then Of(Shown(st.cells[k]), s) else [])
  {
    DemuxAt(st.dumper.got, k, s);
    if k < |st.cells| {
      DemuxAt(Seen(st.cells), k, s);
    } else {
      assert Upto(st, k + 1) == Upto(st, k);
    }
  }

  lemma PointerKeepsStep(st: State, k: nat, s: string)
    requires Inv(st) && Dumped(st) && k < st.dumper.max && st.dumper.ptrs[k] && InStep(st, k, s)
    ensures InStep(st, k + 1, s)
  {
    var d := st.dumper;
    UptoNext(st, k, s);
    assert CopiedOk(st, k) && CellOk(st, k);
    assert Upto(st, k) == Seen(st.cells)[..k];
    PointerKeepsPlaces(st, k, s);
    if d.got[k].dest == s && d.got[k].data != Shown(st.cells[k]).data {
      ShortIsLast(st, k);
    }
  }

  lemma PointerKeepsPlaces(st: State, k: nat, s: string)
    requires Dumped(st) && k < st.dumper.max && st.dumper.ptrs[k] && Placed(st, k, s)
    requires st.dumper.got[k].dest == s && st.dumper.got[k].data != [] ==> Start(st, k) == |Demux(st.dumper.got[..k], s)|
    ensures Placed(st, k + 1, s)
  {
    UptoNext(st, k, s);
  }

  // A chunk that was read short was the one in use, so no later one is of its stream.
  lemma ShortIsLast(st: State, k: nat)
    requires Inv(st) && Dumped(st) && k < st.dumper.max && st.dumper.ptrs[k]
    requires k < |st.cells| && st.dumper.got[k].data != Shown(st.cells[k]).data
    ensures Stuck(st, k + 1, st.dumper.got[k].dest)
  {
    var d := st.dumper;
    assert CopiedOk(st, k) && SeenOk(st, k) && CellOk(st, k);
    forall j | k < j < d.max && d.ptrs[j] ensures d.got[j].dest != d.got[k].dest {
      assert CopiedOk(st, j) && SeenOk(st, j);
    }
  }

  lemma EmptyKeepsStep(st: State, k: nat, s: string)
    requires Dumped(st) && EmptyAt(st, k) && InStep(st, k, s) && SparedAt(st, k, s)
    ensures InStep(st, k + 1, s)
  {
    UptoNext(st, k, s);
    EmptyKeepsPlaces(st, k, s);
  }

  lemma EmptyKeepsPlaces(st: State, k: nat, s: string)
    requires Dumped(st) && EmptyAt(st, k) && Placed(st, k, s) && SparedAt(st, k, s)
    ensures Placed(st, k + 1, s)
  {
    UptoNext(st, k, s);
    var c := st.dumper.got[k];
    assert Places(st, k + 1, s) == Places(st, k, s) + if c.dest == s then Span(st, Source(st.dumper.ptrs, k), |c.data|) else [];
  }

  lemma FileVerbatimIff(st: State, s: string)
    requires Inv(st) && Dumped(st)
    ensures FileVerbatim(st, s) <==> Spared(st, s)
  {
    if FileVerbatim(st, s) {
      forall i: nat ensures SparedAt(st, i, s) { VerbatimIsSpared(st, i, s); }
    } else if Spared(st, s) {
      SparedUpto(st, st.dumper.max, s);
    }
  }

  lemma SparedWithBytes(st: State, s: string)
    requires Dumped(st) && forall i :: 0 <= i < |st.dumper.got| && st.dumper.got[i].dest == s ==> st.dumper.got[i].data != []
    ensures Spared(st, s) <==> Aside(st, s)
  {
    forall i: nat ensures SparedAt(st, i, s) <==> AsideAt(st, i, s) {
    }
  }

  lemma HarmlessWithBytes(st: State)
    requires Dumped(st) && forall i :: 0 <= i < |st.dumper.got| ==> st.dumper.got[i].data != []
    ensures Harmless(st) <==> NoneEmpty(st)
  {
    if Harmless(st) {
      forall i: nat ensures !EmptyAt(st, i) {
        if i < st.dumper.max {
          assert Spared(st, st.dumper.got[i].dest);
          assert SparedAt(st, i, st.dumper.got[i].dest);
        }
      }
    }
  }

  // The file of s is a prefix of what was said to s.
  lemma SparedFile(st: State, s: string)
    requires Inv(st) && Dumped(st) && Spared(st, s)
    ensures Demux(st.dumper.got, s) <= Said(st, s)
  {
    var max := st.dumper.max;
    SparedUpto(st, max, s);
    assert st.dumper.got[..max] == st.dumper.got;
    var r := Readable(Seen(st.cells));
    assert Upto(st, max) == r[..Min(max, |st.cells|)];
    DemuxTake(r, Min(max, |st.cells|), s);
    if s in st.writers {
      assert WriterOk(st, s);
    } else {
      forall i | 0 <= i < |r| ensures r[i].dest != s {
        assert CellOk(st, i);
      }
      DemuxAbsent(r, s);
    }
  }

  lemma {:induction false} DemuxTake(b: seq<Chunk>, k: nat, s: string)
    requires k <= |b|
    ensures Demux(b[..k], s) <= Demux(b, s)
  {
    if k < |b| {
      DemuxTake(b[..|b| - 1], k, s);
      assert b[..|b| - 1][..k] == b[..k];
    } else {
      assert b[..k] == b;
    }
  }

  // ---- a file that is up to date -------------------------------------------------

  lemma {:induction false} DemuxAlike(a: seq<Chunk>, b: seq<Chunk>, s: string, k: nat)
    requires k <= |a| && k <= |b| && forall j :: 0 <= j < k ==> Of(a[j], s) == Of(b[j], s)
    ensures Demux(a[..k], s) == Demux(b[..k], s)
  {
    if k > 0 {
      DemuxAlike(a, b, s, k - 1);
      DemuxAt(a, k - 1, s);
      DemuxAt(b, k - 1, s);
    }
  }

  lemma {:induction false} NoneBehind(a: seq<Chunk>, s: string, k: nat, n: nat)
    requires k <= n <= |a| && forall j :: k <= j < n ==> Of(a[j], s) == []
    ensures Demux(a[..n], s) == Demux(a[..k], s)
  {
    if k < n {
      NoneBehind(a, s, k, n - 1);
      DemuxAt(a, n - 1, s);
    }
  }

  // Chunk lists that agree for s but for one chunk, which is shorter in a, and nothing comes behind it.
  lemma DemuxShorter(a: seq<Chunk>, b: seq<Chunk>, s: string, last: nat)
    requires |a| <= |b|
    requires forall j :: 0 <= j < |a| ==> Of(a[j], s) <= Of(b[j], s) && (j < last ==> Of(a[j], s) == Of(b[j], s))
    requires forall j :: 0 <= j < |a| && last < j ==> Of(a[j], s) == []
    ensures Demux(a, s) <= Demux(b, s)
  {
    var k := if last < |a| then last + 1 else |a|;
    assert Demux(a, s) == Demux(a[..k], s) by {
      assert a[..|a|] == a;
      NoneBehind(a, s, k, |a|);
    }
    assert Demux(a[..k], s) <= Demux(b[..k], s) by {
      if last < |a| {
        DemuxShort(a, b, s, last);
      } else {
        DemuxAlike(a, b, s, k);
      }
    }
    DemuxTake(b, k, s);
  }

  lemma DemuxShort(a: seq<Chunk>, b: seq<Chunk>, s: string, k: nat)
    requires k < |a| <= |b| && Of(a[k], s) <= Of(b[k], s)
    requires forall j :: 0 <= j < k ==> Of(a[j], s) == Of(b[j], s)
    ensures Demux(a[..k + 1], s) <= Demux(b[..k + 1], s)
  {
    DemuxAlike(a, b, s, k);
    DemuxAt(a, k, s);
    DemuxAt(b, k, s);
    SameFront(Demux(a[..k], s), Of(a[k], s), Of(b[k], s));
  }

  lemma SameFront(x: seq<byte>, a: seq<byte>, b: seq<byte>)
    requires a <= b
    ensures x + a <= x + b
  {
  }

  // What was seen of a stream lies before what was written, chunk by chunk.
  lemma SeenInFile(st: State, s: string, j: nat)
    requires Inv(st) && Dumped(st) && Kept(st, s) && s in st.dumper.writers && j < |st.dumper.seen|
    ensures Of(st.dumper.seen[j], s) <= Of(st.dumper.got[j], s)
    ensures j < st.dumper.writers[s].cur ==> Of(st.dumper.seen[j], s) == Of(st.dumper.got[j], s)
    ensures st.dumper.writers[s].cur < j ==> Of(st.dumper.seen[j], s) == []
  {
    assert SeenOk(st, j) && CopiedOk(st, j) && KeptAt(st, j, s) && CellOk(st, j);
  }

  // What could be read when the count was copied is in the file.
  lemma KeptFile(st: State, s: string)
    requires Inv(st) && Dumped(st) && Kept(st, s)
    requires s in st.dumper.writers && st.dumper.writers[s].cur < DUMPED
    ensures Completed(st.dumper.writers[s]) <= Public(st.dumper.writers[s]) <= Demux(st.dumper.got, s)
  {
    var d := st.dumper;
    forall j: nat | j < |d.seen|
      ensures Of(d.seen[j], s) <= Of(d.got[j], s) && (j < d.writers[s].cur ==> Of(d.seen[j], s) == Of(d.got[j], s))
      ensures d.writers[s].cur < j ==> Of(d.seen[j], s) == []
    {
      SeenInFile(st, s, j);
    }
    assert PublicOk(st, s) && Readable(d.seen) == d.seen;
    DemuxShorter(d.seen, d.got, s, d.writers[s].cur);
  }

  lemma KeptIsSpared(st: State, s: string)
    requires Inv(st) && Dumped(st) && Kept(st, s)
    ensures Spared(st, s)
  {
    forall i: nat ensures SparedAt(st, i, s) {
      assert KeptAt(st, i, s);
      if EmptyAt(st, i) && i < |st.cells| && st.cells[i].dest == s {
        forall j | i < j < st.dumper.max && st.dumper.ptrs[j] ensures st.dumper.got[j].dest != s {
          assert CopiedOk(st, j) && SeenOk(st, i) && SeenOk(st, j);
        }
      }
    }
  }

  lemma ChunkNoMore(st: State, s: string, i: nat, k: nat)
    requires Inv(st) && Dumped(st) && Spared(st, s) && EmptyAt(st, i)
    requires i < |st.dumper.seen| && st.dumper.seen[i].dest == s && k < |st.dumper.seen|
    ensures |Of(st.dumper.got[k], s)| <= |Of(st.dumper.seen[k], s)| && (k == i ==> Of(st.dumper.got[k], s) == [])
  {
    assert SparedAt(st, k, s) && SparedAt(st, i, s) && CopiedOk(st, k) && CellOk(st, k) && SeenOk(st, k) && SeenOk(st, i);
  }

  lemma UpToDateIff(st: State, s: string)
    requires Inv(st) && Dumped(st)
    requires s in st.dumper.writers && st.dumper.writers[s].cur < DUMPED
    ensures UpToDate(st, s) <==> Kept(st, s)
  {
    FileVerbatimIff(st, s);
    if Kept(st, s) {
      KeptIsSpared(st, s);
      KeptFile(st, s);
    } else if UpToDate(st, s) {
      forall i: nat ensures KeptAt(st, i, s) { UpToDateKeeps(st, s, i); }
    }
  }

  lemma UpToDateKeeps(st: State, s: string, i: nat)
    requires Inv(st) && Dumped(st) && Spared(st, s) && s in st.dumper.writers && st.dumper.writers[s].cur < DUMPED
    requires |Public(st.dumper.writers[s])| <= |Demux(st.dumper.got, s)|
    ensures KeptAt(st, i, s)
  {
    var d := st.dumper;
    assert SparedAt(st, i, s);
    if EmptyAt(st, i) && i < |d.seen| && d.seen[i].dest == s {
      forall j: nat | j < |d.seen| ensures |Of(d.got[j], s)| <= |Of(d.seen[j], s)| {
        ChunkNoMore(st, s, i, j);
      }
      ChunkNoMore(st, s, i, i);
      DemuxMisses(d.got, d.seen, s, i, |d.seen|);
      NothingBehind(st, s);
      assert d.seen[..|d.seen|] == d.seen && Readable(d.seen) == d.seen;
      assert PublicOk(st, s);
    }
  }

  // Nothing is written to s for a slot that had no chunk yet when the count was copied.
  lemma NothingBehind(st: State, s: string)
    requires Inv(st) && Dumped(st) && Spared(st, s)
    ensures Demux(st.dumper.got[..|st.dumper.seen|], s) == Demux(st.dumper.got, s)
  {
    var d := st.dumper;
    assert d.got[..d.max] == d.got;
    forall j: nat | |d.seen| <= j < d.max ensures Of(d.got[j], s) == [] {
      assert CopiedOk(st, j) && SparedAt(st, j, s);
    }
    NoneBehind(d.got, s, |d.seen|, d.max);
  }
}
