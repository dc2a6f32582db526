/**
 Every step of a writer keeps the invariant of LiveDump, and so does every step of the dumper.

 There is one lemma for each step, and each goes through the parts of the invariant:

   CellOk     a chunk that will be read back is the one in use of its stream, or full
   WriterOk   what can be read of a stream, and what its writer still holds, is what was said to it
   LockOk     the count is that of the pointers, but for a store that is still to come
   DumperOk   the chunks counted have only grown since, and what has been read of them lies between
              what they held when the count was copied and what they hold now

 A step of a writer touches at most one chunk, or adds one, so the others follow from
 GrowthKeepsDumper, LockKept and LockAfterStore; a step of the dumper leaves the collector alone.
 */
module LiveSteps {
  import opened ChunkLog
  import opened LiveDump

  // ---- every step keeps the invariant --------------------------------------------

  // Cells that are read back never lose a published byte.
  ghost predicate Grows(cells: seq<Cell>, cells': seq<Cell>) {
    && |cells| <= |cells'|
    && forall j :: 0 <= j < |cells| && j < DUMPED ==>
        && cells[j].dest == cells'[j].dest && cells[j].len <= cells'[j].len
        && Shown(cells[j]).data <= Shown(cells'[j]).data
        && cells'[j].len <= |cells'[j].data|
  }

  lemma GrowthKeepsDumper(st: State, st': State)
    requires DumperOk(st) && st'.dumper == st.dumper && Grows(st.cells, st'.cells)
    ensures DumperOk(st')
  {
    if st.dumper.Reading? {
      forall j: nat ensures SeenOk(st', j) { assert SeenOk(st, j); }
      forall j: nat ensures CopiedOk(st', j) { assert CopiedOk(st, j) && SeenOk(st, j); }
      forall s ensures PublicOk(st', s) { assert PublicOk(st, s); }
      assert NowOk(st');
    }
  }

  // A chunk that is not counted yet is nobody else's.
  lemma LockKept(st: State, st': State, s: string)
    requires Inv(st) && Holds(st, s) && st.lock != Stored(s)
    requires st'.count == st.count && st'.lock == st.lock && |st'.cells| == |st.cells|
    requires forall j :: 0 <= j < |st.cells| && j != st.writers[s].cur ==> st'.cells[j] == st.cells[j]
    requires st.writers.Keys <= st'.writers.Keys
    requires forall x :: x in st.writers && x != s ==> st'.writers[x] == st.writers[x]
    ensures LockOk(st')
  {
    assert WriterOk(st, s);
  }

  // The locks after the pointer of a new chunk has been stored.
  lemma LockAfterStore(st: State, st': State, s: string)
    requires LockOk(st) && |st.cells| <= SLOTS && MayStore(st, s)
    requires st'.cells == AllocCell(st.cells, s).0 && st'.count == st.count && st'.lock == LockAfter(st, s)
    requires s in st'.writers && st'.writers[s].cur == AllocCell(st.cells, s).1 && !st'.writers[s].pc.Copied?
    ensures LockOk(st')
  {
  }

  lemma OpenStreamKeeps(st: State, s: string)
    requires Inv(st) && Enabled(st, OpenStream(s))
    ensures Inv(Apply(st, OpenStream(s)))
  {
    var st' := Apply(st, OpenStream(s));
    AllocSeen(st.cells, s);
    forall i: nat ensures CellOk(st', i) { assert CellOk(st, i); }
    forall x ensures WriterOk(st', x) { OpenStreamKeepsWriter(st, s, x); }
    AllocGrows(st, s);
    GrowthKeepsDumper(st, st');
    LockAfterStore(st, st', s);
  }

  lemma OpenStreamKeepsWriter(st: State, s: string, x: string)
    requires Inv(st) && Enabled(st, OpenStream(s))
    ensures WriterOk(Apply(st, OpenStream(s)), x)
  {
    AllocSeen(st.cells, s);
    assert WriterOk(st, x);
    AllocDump(Seen(st.cells), s, x);
    var st' := Apply(st, OpenStream(s));
    assert Dump(Seen(st'.cells), x) == Dump(Seen(st.cells), x);
    if x == s {
      UnknownIsAbsent(st, s);
    } else if x in st.writers && st.writers[x].cur < DUMPED {
      assert Cur(st', x) == Cur(st, x) && Pending(st', x) == Pending(st, x);
    }
  }

  lemma UnknownIsAbsent(st: State, s: string)
    requires Inv(st) && s !in st.writers
    ensures Dump(Seen(st.cells), s) == []
  {
    forall i: nat | i < |Readable(Seen(st.cells))| ensures Readable(Seen(st.cells))[i].dest != s {
      assert CellOk(st, i);
    }
    DemuxAbsent(Readable(Seen(st.cells)), s);
  }

  lemma AllocSeen(cells: seq<Cell>, s: string)
    requires |cells| <= SLOTS
    ensures Seen(AllocCell(cells, s).0) == Alloc(Seen(cells), s).0
  {
  }

  lemma AllocGrows(st: State, s: string)
    requires Inv(st)
    ensures Grows(st.cells, AllocCell(st.cells, s).0)
  {
    forall j | 0 <= j < |st.cells| && j < DUMPED ensures st.cells[j].len <= |st.cells[j].data| {
      assert CellOk(st, j);
    }
  }

  lemma BeginKeeps(st: State, s: string, bytes: seq<byte>)
    requires Inv(st) && Enabled(st, Begin(s, bytes))
    ensures Inv(Apply(st, Begin(s, bytes)))
  {
    var st' := Apply(st, Begin(s, bytes));
    forall i: nat ensures CellOk(st', i) { assert CellOk(st, i); }
    forall x ensures WriterOk(st', x) { BeginKeepsWriter(st, s, bytes, x); }
    assert WriterOk(st, s);
    SameCellsKeepDumper(st, st');
    LockKept(st, st', s);
  }

  lemma BeginKeepsWriter(st: State, s: string, bytes: seq<byte>, x: string)
    requires Inv(st) && Enabled(st, Begin(s, bytes))
    ensures WriterOk(Apply(st, Begin(s, bytes)), x)
  {
    assert WriterOk(st, x);
  }

  lemma RaiseKeeps(st: State, s: string)
    requires Inv(st) && Enabled(st, Raise(s))
    ensures Inv(Apply(st, Raise(s)))
  {
    SameTableKeeps(st, Apply(st, Raise(s)));
  }

  lemma SettleKeeps(st: State)
    requires Inv(st) && Enabled(st, Settle)
    ensures Inv(Apply(st, Settle))
  {
    SameTableKeeps(st, Apply(st, Settle));
  }

  lemma SameTableKeeps(st: State, st': State)
    requires Inv(st) && st' == st.(count := st'.count, lock := st'.lock) && LockOk(st')
    ensures Inv(st')
  {
    forall i: nat ensures CellOk(st', i) { assert CellOk(st, i); }
    forall x ensures WriterOk(st', x) { assert WriterOk(st, x); }
    SameCellsKeepDumper(st, st');
  }

  lemma SameCellsKeepDumper(st: State, st': State)
    requires Inv(st) && st'.dumper == st.dumper && st'.cells == st.cells
    ensures DumperOk(st')
  {
    forall j | 0 <= j < |st.cells| && j < DUMPED ensures st.cells[j].len <= |st.cells[j].data| {
      assert CellOk(st, j);
    }
    GrowthKeepsDumper(st, st');
  }

  lemma SeenUpdate(cells: seq<Cell>, k: nat, c: Cell)
    requires k < |cells|
    ensures Seen(cells[k := c]) == Seen(cells)[k := Shown(c)]
  {
  }

  // Bytes beyond the length are invisible; raising the length shows exactly them.
  lemma CopiedCell(c: Cell, w: seq<byte>)
    requires c.len <= |c.data|
    ensures var c' := c.(data := c.data[..c.len] + w);
      Shown(c') == Shown(c) && c'.data[c.len..c.len + |w|] == w
  {
    var c' := c.(data := c.data[..c.len] + w);
    assert c'.data[..c.len] == c.data[..c.len];
  }

  lemma PublishedCell(c: Cell, n: nat)
    requires c.len + n <= |c.data|
    ensures Shown(c.(len := c.len + n)).data == Shown(c).data + c.data[c.len..c.len + n]
  {
  }

  lemma CopyShows(st: State, s: string)
    requires Inv(st) && Enabled(st, Copy(s))
    ensures var c, st' := Cur(st, s), Apply(st, Copy(s));
      && Seen(st'.cells) == Seen(st.cells) && c.len <= |Cur(st', s).data| <= CHUNK_PAYLOAD
      && Pending(st', s) == Pending(st, s) && c.len + st'.writers[s].pc.n <= |Cur(st', s).data|
  {
    CopyUnseen(st, s);
    CopyPending(st, s);
  }

  lemma CopyUnseen(st: State, s: string)
    requires Inv(st) && Enabled(st, Copy(s))
    ensures Seen(Apply(st, Copy(s)).cells) == Seen(st.cells)
  {
    var w, c := st.writers[s], Cur(st, s);
    var n := Min(CHUNK_PAYLOAD - c.len, |w.pc.rest|);
    assert CellOk(st, w.cur);
    CopiedCell(c, w.pc.rest[..n]);
    SeenUpdate(st.cells, w.cur, Cur(Apply(st, Copy(s)), s));
  }

  lemma CopyPending(st: State, s: string)
    requires Inv(st) && Enabled(st, Copy(s))
    ensures var c, st' := Cur(st, s), Apply(st, Copy(s));
      && c.len <= |Cur(st', s).data| <= CHUNK_PAYLOAD && c.len + st'.writers[s].pc.n <= |Cur(st', s).data|
      && Pending(st', s) == Pending(st, s)
  {
    var w, c := st.writers[s], Cur(st, s);
    var n := Min(CHUNK_PAYLOAD - c.len, |w.pc.rest|);
    assert CellOk(st, w.cur);
    CopiedCell(c, w.pc.rest[..n]);
    assert w.pc.rest[..n] + w.pc.rest[n..] == w.pc.rest;
  }

  lemma CopyKeeps(st: State, s: string)
    requires Inv(st) && Enabled(st, Copy(s))
    ensures Inv(Apply(st, Copy(s)))
  {
    var st' := Apply(st, Copy(s));
    CopyShows(st, s);
    forall i: nat ensures CellOk(st', i) { assert CellOk(st, i); }
    forall x ensures WriterOk(st', x) { CopyKeepsWriter(st, s, x); }
    CopyGrows(st, s);
    GrowthKeepsDumper(st, st');
    LockKept(st, st', s);
  }

  lemma CopyKeepsWriter(st: State, s: string, x: string)
    requires Inv(st) && Enabled(st, Copy(s))
    ensures WriterOk(Apply(st, Copy(s)), x)
  {
    var st' := Apply(st, Copy(s));
    CopyShows(st, s);
    assert WriterOk(st, s) && WriterOk(st, x);
    if x in st.writers && x != s && st.writers[x].cur < DUMPED {
      assert st.writers[x].cur != st.writers[s].cur;
      assert Pending(st', x) == Pending(st, x);
    }
  }

  lemma CopyGrows(st: State, s: string)
    requires Inv(st) && Enabled(st, Copy(s))
    ensures Grows(st.cells, Apply(st, Copy(s)).cells)
  {
    var st' := Apply(st, Copy(s));
    CopyShows(st, s);
    assert Seen(st'.cells)[st.writers[s].cur] == Seen(st.cells)[st.writers[s].cur];
    CellsGrow(st, st', st.writers[s].cur);
  }

  // Only cell k changed, and it lost nothing.
  lemma CellsGrow(st: State, st': State, k: nat)
    requires Inv(st) && |st'.cells| == |st.cells| && k < |st.cells|
    requires forall j :: 0 <= j < |st.cells| && j != k ==> st'.cells[j] == st.cells[j]
    requires st'.cells[k].dest == st.cells[k].dest && st.cells[k].len <= st'.cells[k].len <= |st'.cells[k].data|
    requires Shown(st.cells[k]).data <= Shown(st'.cells[k]).data
    ensures Grows(st.cells, st'.cells)
  {
    forall j | 0 <= j < |st.cells| && j < DUMPED ensures st.cells[j].len <= |st.cells[j].data| {
      assert CellOk(st, j);
    }
  }

  lemma PublishShows(st: State, s: string)
    requires Inv(st) && Enabled(st, Publish(s))
    ensures var c, st' := Cur(st, s), Apply(st, Publish(s));
      && c.len <= Cur(st', s).len <= |c.data| <= CHUNK_PAYLOAD
      && Shown(c).data <= Shown(Cur(st', s)).data
      && var shown := c.data[c.len..Cur(st', s).len];
      && Seen(st'.cells) == Put(Seen(st.cells), st.writers[s].cur, shown)
      && shown + Pending(st', s) == Pending(st, s)
  {
    var st' := Apply(st, Publish(s));
    var w, c := st.writers[s], Cur(st, s);
    assert CellOk(st, w.cur) && WriterOk(st, s);
    PublishedCell(c, w.pc.n);
    SeenUpdate(st.cells, w.cur, Cur(st', s));
  }

  lemma PublishKeeps(st: State, s: string)
    requires Inv(st) && Enabled(st, Publish(s))
    ensures Inv(Apply(st, Publish(s)))
  {
    var st' := Apply(st, Publish(s));
    var c := Cur(st, s);
    PublishShows(st, s);
    assert WriterOk(st, s);
    forall i: nat ensures CellOk(st', i) { assert CellOk(st, i); }
    forall x ensures WriterOk(st', x) { PublishKeepsWriter(st, s, x); }
    CellsGrow(st, st', st.writers[s].cur);
    GrowthKeepsDumper(st, st');
    LockKept(st, st', s);
  }

  lemma PublishKeepsWriter(st: State, s: string, x: string)
    requires Inv(st) && Enabled(st, Publish(s))
    ensures WriterOk(Apply(st, Publish(s)), x)
  {
    var st' := Apply(st, Publish(s));
    PublishDumps(st, s, x);
    assert WriterOk(st, s) && WriterOk(st, x);
    if x in st.writers && x != s && st.writers[x].cur < DUMPED {
      assert st.writers[x].cur != st.writers[s].cur;
      assert Pending(st', x) == Pending(st, x);
    }
  }

  // The bytes published leave the pending ones of s for the readable ones.
  lemma PublishDumps(st: State, s: string, x: string)
    requires Inv(st) && Enabled(st, Publish(s))
    ensures var st' := Apply(st, Publish(s));
      if x == s then Dump(Seen(st'.cells), s) + Pending(st', s) == Dump(Seen(st.cells), s) + Pending(st, s)
      else Dump(Seen(st'.cells), x) == Dump(Seen(st.cells), x)
  {
    var st' := Apply(st, Publish(s));
    PublishShows(st, s);
    assert WriterOk(st, s);
    var c := Cur(st, s);
    var shown := c.data[c.len..Cur(st', s).len];
    PutDump(st, s, shown, x);
    assert Dump(Seen(st.cells), s) + (shown + Pending(st', s)) == Dump(Seen(st.cells), s) + shown + Pending(st', s);
  }

  // Publishing extends what can be read of s and of no other stream.
  lemma PutDump(st: State, s: string, w: seq<byte>, x: string)
    requires Inv(st) && Holds(st, s) && Cur(st, s).dest == s
    ensures Dump(Put(Seen(st.cells), st.writers[s].cur, w), x) == Dump(Seen(st.cells), x) + (if x == s then w else [])
  {
    var k, r := st.writers[s].cur, Readable(Seen(st.cells));
    forall i | k < i < |r| ensures r[i].dest != s {
      assert CellOk(st, i);
    }
    assert Readable(Put(Seen(st.cells), k, w)) == Put(r, k, w);
    DemuxPut(r, k, w, x);
  }

  lemma TestKeeps(st: State, s: string)
    requires Inv(st) && Enabled(st, Test(s))
    ensures Inv(Apply(st, Test(s)))
  {
    var st' := Apply(st, Test(s));
    assert CellOk(st, st.writers[s].cur) && WriterOk(st, s);
    AllocSeen(st.cells, s);
    forall i: nat ensures CellOk(st', i) { assert CellOk(st, i); }
    forall x ensures WriterOk(st', x) { TestKeepsWriter(st, s, x); }
    if Full(st, s) {
      AllocGrows(st, s);
      GrowthKeepsDumper(st, st');
      LockAfterStore(st, st', s);
    } else {
      SameCellsKeepDumper(st, st');
    }
  }

  lemma TestKeepsWriter(st: State, s: string, x: string)
    requires Inv(st) && Enabled(st, Test(s))
    ensures WriterOk(Apply(st, Test(s)), x)
  {
    var st' := Apply(st, Test(s));
    assert WriterOk(st, s) && WriterOk(st, x);
    assert Dump(Seen(st'.cells), x) == Dump(Seen(st.cells), x) by {
      AllocSeen(st.cells, s);
      AllocDump(Seen(st.cells), s, x);
    }
    if x in st'.writers && st'.writers[x].cur < DUMPED {
      if x == s && Cur(st, s).len >= CHUNK_PAYLOAD {
        assert Cur(st', x) == Cell(s, [], 0);
      } else {
        assert Cur(st', x) == Cur(st, x);
      }
      assert Pending(st', x) == Pending(st, x);
    }
  }

  lemma ScribbleKeeps(st: State, s: string, cell: Cell, pc: Pc, more: seq<byte>)
    requires Inv(st) && Enabled(st, Scribble(s, cell, pc, more))
    ensures Inv(Apply(st, Scribble(s, cell, pc, more)))
  {
    var st' := Apply(st, Scribble(s, cell, pc, more));
    assert Readable(Seen(st'.cells)) == Readable(Seen(st.cells));
    forall i: nat ensures CellOk(st', i) { assert CellOk(st, i); }
    forall x ensures WriterOk(st', x) { assert WriterOk(st, x); }
    forall j | 0 <= j < |st.cells| && j < DUMPED ensures st.cells[j].len <= |st.cells[j].data| {
      assert CellOk(st, j);
    }
    GrowthKeepsDumper(st, st');
  }

  // ---- the dumper -----------------------------------------------------------------

  lemma DumperStepKeeps(st: State, st': State)
    requires Inv(st) && st' == st.(dumper := st'.dumper) && DumperOk(st')
    ensures Inv(st')
  {
    forall i: nat ensures CellOk(st', i) { assert CellOk(st, i); }
    forall x ensures WriterOk(st', x) { assert WriterOk(st, x); }
  }

  lemma CopySlotsKeeps(st: State, k: nat)
    requires Inv(st) && Enabled(st, CopySlots(k))
    ensures Inv(Apply(st, CopySlots(k)))
  {
    DumperStepKeeps(st, Apply(st, CopySlots(k)));
  }

  lemma CopyCountKeeps(st: State)
    requires Inv(st) && Enabled(st, CopyCount)
    ensures Inv(Apply(st, CopyCount))
  {
    var st' := Apply(st, CopyCount);
    forall j: nat ensures SeenOk(st', j) { assert CellOk(st, j); }
    forall j: nat ensures CopiedOk(st', j) { assert CellOk(st, j); }
    forall s ensures PublicOk(st', s) {
      if s in st.writers && st.writers[s].cur < DUMPED {
        CountedIsPublic(st, s);
      }
    }
    DumperStepKeeps(st, st');
  }

  // What is counted holds everything that could be read.
  lemma CountedIsPublic(st: State, s: string)
    requires Inv(st) && s in st.writers && st.writers[s].cur < DUMPED
    ensures var w := st.writers[s];
      && Dump(Seen(st.cells)[..Min(Min(st.count, DUMPED), |st.cells|)], s) == Public(w) && Left(w.pc) <= |w.said|
      && (w.pc.Idle? || w.done + Left(w.pc) <= |w.said|)
  {
    assert WriterOk(st, s);
    UncountedIsEmpty(st, s);
    var w, shown := st.writers[s], Dump(Seen(st.cells), s);
    assert |Pending(st, s)| == Left(w.pc);
    assert w.said[..|shown|] == shown;
  }

  lemma UncountedIsEmpty(st: State, s: string)
    requires Inv(st)
    ensures Dump(Seen(st.cells)[..Min(Min(st.count, DUMPED), |st.cells|)], s) == Dump(Seen(st.cells), s)
  {
    var all := Readable(Seen(st.cells));
    var counted := Readable(Seen(st.cells)[..Min(Min(st.count, DUMPED), |st.cells|)]);
    if st.count < DUMPED && st.lock.Stored? {
      assert all[..st.count] == counted && all[st.count] == Shown(st.cells[st.count]);
    } else {
      assert all == counted;
    }
  }

  lemma ReadKeeps(st: State, step: Step)
    requires Inv(st) && Enabled(st, step)
    requires step.ReadLength? || step.ReadBytes? || step.NextChunk? || step.ReadFails?
    ensures Inv(Apply(st, step))
  {
    var st' := Apply(st, step);
    forall j: nat ensures SeenOk(st', j) { assert SeenOk(st, j); }
    forall j: nat ensures CopiedOk(st', j) { ReadKeepsSlot(st, step, j); }
    forall s ensures PublicOk(st', s) { assert PublicOk(st, s); }
    ReadKeepsNow(st, step);
    DumperStepKeeps(st, st');
  }

  lemma ReadKeepsSlot(st: State, step: Step, j: nat)
    requires Inv(st) && Enabled(st, step)
    requires step.ReadLength? || step.ReadBytes? || step.NextChunk? || step.ReadFails?
    ensures CopiedOk(Apply(st, step), j)
  {
    assert CopiedOk(st, j) && SeenOk(st, j);
  }

  lemma ReadKeepsNow(st: State, step: Step)
    requires Inv(st) && Enabled(st, step)
    requires step.ReadLength? || step.ReadBytes? || step.NextChunk? || step.ReadFails?
    ensures NowOk(Apply(st, step))
  {
    assert CopiedOk(st, |st.dumper.got|) && SeenOk(st, |st.dumper.got|) && CellOk(st, |st.dumper.got|);
  }
}
