/**
 output.c on its own data structures: chunks with a byte array and a length, the table of
 chunk pointers, and the buffer file with its pointer to the chunk in use.

 View() is the table as a value of ChunkLog, At(k) says that the chunk in use is the one in slot k,
 and every method says which function of ChunkLog the table is changed by. Append and Dump are loops of
 Round, the turn of the append loop, which fills the chunk in use and replaces it when it is full.
 */
module OutputBuffers {
  import L = ChunkLog
  import opened ChunkLog

  class ChunkCell {
    const dest: string
    const data: array<byte>
    var length: nat

    constructor (dest: string)
      ensures this.dest == dest && length == 0 && fresh(data) && data.Length == CHUNK_PAYLOAD
    {
      this.dest := dest;
      data := new byte[CHUNK_PAYLOAD];
      length := 0;
    }

    ghost function View(): Chunk
      reads this, data
      requires length <= data.Length
    {
      Chunk(dest, data[..length])
    }
  }

  ghost function DataOf(cs: seq<ChunkCell>): set<array<byte>> {
    set c | c in cs :: c.data
  }

  ghost function Views(cs: seq<ChunkCell>): (v: seq<Chunk>)
    reads cs, DataOf(cs)
    requires forall c :: c in cs ==> c.length <= c.data.Length
  {
    seq(|cs|, i requires 0 <= i < |cs| reads cs, DataOf(cs) requires cs[i].length <= cs[i].data.Length => cs[i].View())
  }

  // No two slots share a chunk or a byte array.
  ghost predicate Apart(cs: seq<ChunkCell>) {
    forall i, j :: 0 <= i < j < |cs| ==> cs[i] != cs[j] && cs[i].data != cs[j].data
  }

  class StackMap {
    const chunks: array<ChunkCell?>
    var maxChunk: nat
    ghost var slots: seq<ChunkCell>
    ghost var Repr: set<object>

    ghost predicate Valid()
      reads this, Repr
      ensures Valid() ==> this in Repr
    {
      && this in Repr && chunks in Repr
      && (forall c :: c in slots ==> c in Repr && c.data in Repr && c.length <= c.data.Length == CHUNK_PAYLOAD)
      && maxChunk <= chunks.Length == SLOTS && chunks[..maxChunk] == slots
      && Apart(slots)
    }

    ghost function View(): seq<Chunk>
      reads this, Repr
      requires Valid()
    {
      Views(slots)
    }

    constructor ()
      ensures Valid() && fresh(Repr) && View() == []
    {
      chunks := new ChunkCell?[SLOTS](_ => null);
      maxChunk := 0;
      slots := [];
      new;
      Repr := {this, chunks};
    }

    // chunk_alloc
    method ChunkAlloc(dest: string) returns (c: ChunkCell)
      requires Valid()
      modifies Repr
      ensures Valid() && fresh(Repr - old(Repr))
      ensures View() == Alloc(old(View()), dest).0
      ensures Alloc(old(View()), dest).1 < |slots| && c == slots[Alloc(old(View()), dest).1]
      ensures c.length == 0 && old(slots) <= slots
    {
      if maxChunk == chunks.Length {
        c := Recycle();
      } else {
        c := Grow(dest);
      }
    }

    // No slot is left: the last one is emptied and handed out again.
    method Recycle() returns (c: ChunkCell)
      requires Valid() && |slots| == SLOTS
      modifies slots[SLOTS - 1]
      ensures Valid() && c == slots[SLOTS - 1] && c.length == 0 && slots == old(slots)
      ensures View() == old(View())[SLOTS - 1 := old(View())[SLOTS - 1].(data := [])]
    {
      c := chunks[maxChunk - 1];
      assert c == slots[SLOTS - 1];
      c.length := 0;
      forall i | 0 <= i < SLOTS - 1 ensures slots[i].View() == old(slots[i].View()) {
      }
    }

    method Grow(dest: string) returns (c: ChunkCell)
      requires Valid() && |slots| < SLOTS
      modifies this, chunks
      ensures Valid() && fresh(Repr - old(Repr)) && slots == old(slots) + [c] && c.length == 0
      ensures View() == old(View()) + [Chunk(dest, [])]
    {
      c := new ChunkCell(dest);
      chunks[maxChunk] := c;
      maxChunk := maxChunk + 1;
      slots := slots + [c];
      Repr := Repr + {c, c.data};
      assert chunks[..maxChunk] == slots;
      assert c.View() == Chunk(dest, []);
      forall i | 0 <= i < |old(slots)| ensures slots[i].View() == old(slots[i].View()) {
      }
    }
  }

  class BufferFile {
    const sm: StackMap
    const dest: string
    var cur: ChunkCell

    ghost predicate Valid()
      reads this, sm, sm.Repr
    {
      sm.Valid() && this !in sm.Repr
    }

    // cur is the chunk in slot k
    ghost predicate At(k: nat)
      reads this, sm
    {
      k < |sm.slots| && sm.slots[k] == cur
    }

    // buffer_file_new
    constructor (sm: StackMap, dest: string)
      requires sm.Valid()
      modifies sm.Repr
      ensures this.sm == sm && this.dest == dest && Valid() && fresh(sm.Repr - old(sm.Repr))
      ensures sm.View() == Alloc(old(sm.View()), dest).0 && At(Alloc(old(sm.View()), dest).1)
      ensures old(sm.slots) <= sm.slots && cur.length == 0
    {
      this.sm, this.dest := sm, dest;
      var c := sm.ChunkAlloc(dest);
      cur := c;
    }

    // buffer_file_append
    method Append(str: seq<byte>, ghost k: nat) returns (ghost k': nat)
      requires Valid() && At(k) && cur.length < CHUNK_PAYLOAD
      modifies this, sm.Repr
      ensures Valid() && fresh(sm.Repr - old(sm.Repr)) && old(sm.slots) <= sm.slots
      ensures Wrote(k', L.Append(old(sm.View()), k, dest, str))
    {
      k' := k;
      var rest := str;
      assert sm.View()[k] == cur.View();
      ghost var goal := L.Appended(sm.View(), k, dest, str);
      var more := true;
      while more
        invariant Valid() && At(k') && cur.length < CHUNK_PAYLOAD && fresh(sm.Repr - old(sm.Repr)) && old(sm.slots) <= sm.slots
        invariant L.Remains(goal, sm.View(), k', dest, rest, more)
        decreases |rest|, more
      {
        rest, k' := AppendSome(rest, goal, k');
        more := |rest| > 0;
      }
    }

    // The body of the loop.
    method AppendSome(str: seq<byte>, ghost goal: L.Outcome, ghost k: nat) returns (rest: seq<byte>, ghost k': nat)
      requires Valid() && At(k) && cur.length < CHUNK_PAYLOAD && L.Remains(goal, sm.View(), k, dest, str, true)
      modifies this, sm.Repr
      ensures Valid() && fresh(sm.Repr - old(sm.Repr)) && old(sm.slots) <= sm.slots
      ensures At(k') && cur.length < CHUNK_PAYLOAD && L.Remains(goal, sm.View(), k', dest, rest, |rest| > 0)
      ensures |rest| < |str| || str == rest == []
    {
      assert sm.View()[k] == cur.View();
      L.OneTurn(goal, sm.View(), k, dest, str);
      var toWrite := Min(CHUNK_PAYLOAD - cur.length, |str|);
      k' := Round(str[..toWrite], k);
      rest := str[toWrite..];
    }

    // buffer_file_dump: whatever each read(2) returns goes straight into the chunk in use. The
    // chunk always has room, so a read of 0 bytes means the end of the input and nothing else.
    method Dump(input: seq<byte>, ghost k: nat) returns (got: nat, failed: bool, ghost k': nat)
      requires Valid() && At(k) && cur.length < CHUNK_PAYLOAD
      modifies this, sm.Repr
      ensures Valid() && fresh(sm.Repr - old(sm.Repr)) && old(sm.slots) <= sm.slots
      ensures got <= |input| && (!failed ==> got == |input|)
      ensures Wrote(k', L.Append(old(sm.View()), k, dest, input[..got]))
    {
      got, failed, k' := 0, false, k;
      ghost var v0 := sm.View();
      NothingWritten(input, k);
      while true
        invariant got <= |input| && Valid() && fresh(sm.Repr - old(sm.Repr)) && old(sm.slots) <= sm.slots
        invariant Wrote(k', L.Append(v0, k, dest, input[..got]))
        decreases |input| - got
      {
        var n;
        n, k' := ReadInto(input, got, v0, k, k');
        if n < 0 {
          failed := true;
          break;
        } else if n == 0 {
          break;
        }
        got := got + n;
      }
    }

    lemma NothingWritten(input: seq<byte>, k: nat)
      requires Valid() && At(k) && cur.length < CHUNK_PAYLOAD
      ensures Usable(sm.View(), k) && Wrote(k, L.Append(sm.View(), k, dest, input[..0]))
    {
      assert sm.View()[k] == cur.View();
      L.AppendNothing(sm.View(), k, dest);
      assert input[..0] == [];
    }

    // buffer_file_dump_frame_with_timestamp
    method DumpFrame(input: seq<byte>, uptime: seq<byte>, ghost k: nat) returns (got: nat, failed: bool, ghost k': nat)
      requires Valid() && At(k) && cur.length < CHUNK_PAYLOAD
      modifies this, sm.Repr
      ensures Valid() && fresh(sm.Repr - old(sm.Repr)) && old(sm.slots) <= sm.slots
      ensures got <= |input| && (!failed ==> got == |input|)
      ensures Wrote(k', L.Append(old(sm.View()), k, dest, uptime + input[..got] + [10]))
    {
      ghost var v0 := sm.View();
      assert v0[k] == cur.View();
      got, failed, k' := DumpStamped(input, uptime, k);
      k' := Append([10], k');
      L.AppendSplit(v0, k, dest, uptime + input[..got], [10]);
    }

    method DumpStamped(input: seq<byte>, uptime: seq<byte>, ghost k: nat) returns (got: nat, failed: bool, ghost k': nat)
      requires Valid() && At(k) && cur.length < CHUNK_PAYLOAD
      modifies this, sm.Repr
      ensures Valid() && fresh(sm.Repr - old(sm.Repr)) && old(sm.slots) <= sm.slots
      ensures got <= |input| && (!failed ==> got == |input|)
      ensures Wrote(k', L.Append(old(sm.View()), k, dest, uptime + input[..got]))
    {
      ghost var v0 := sm.View();
      assert v0[k] == cur.View();
      k' := Append(uptime, k);
      got, failed, k' := Dump(input, k');
      L.AppendSplit(v0, k, dest, uptime, input[..got]);
    }

    // The table and the slot in use are the given outcome, and the chunk in use has room.
    ghost predicate Wrote(k: nat, outcome: (seq<Chunk>, nat))
      reads this, sm, sm.Repr
      requires Valid()
    {
      (sm.View(), k) == outcome && At(k) && cur.length < CHUNK_PAYLOAD
    }

    // One read(2) into the chunk in use.
    method ReadInto(input: seq<byte>, got: nat, ghost v0: seq<Chunk>, ghost k0: nat, ghost k: nat)
      returns (n: int, ghost k': nat)
      requires Valid() && got <= |input| && Usable(v0, k0)
      requires Wrote(k, L.Append(v0, k0, dest, input[..got]))
      modifies this, sm.Repr
      ensures Valid() && fresh(sm.Repr - old(sm.Repr)) && n <= |input| - got && (n == 0 ==> got == |input|)
      ensures Wrote(k', L.Append(v0, k0, dest, input[..if n > 0 then got + n else got]))
      ensures old(sm.slots) <= sm.slots
    {
      k' := k;
      n := Read(CHUNK_PAYLOAD - cur.length, |input| - got);
      if n > 0 {
        assert sm.View()[k] == cur.View();
        Continue(v0, k0, sm.View(), k, dest, input, got, got + n);
        k' := Round(input[got..got + n], k);
      }
    }

    // Resuming after `got` bytes with more that fit.
    lemma Continue(v0: seq<Chunk>, k0: nat, v: seq<Chunk>, k: nat, d: string, input: seq<byte>, got: nat, to: nat)
      requires Usable(v0, k0) && Usable(v, k) && got <= to <= |input| && to - got <= CHUNK_PAYLOAD - |v[k].data|
      requires (v, k) == L.Append(v0, k0, d, input[..got])
      ensures L.Turn(v, k, d, input[got..to]) == L.Append(v0, k0, d, input[..to])
    {
      assert input[..to] == input[..got] + input[got..to];
      L.AppendSplit(v0, k0, d, input[..got], input[got..to]);
      L.AppendFitting(v, k, d, input[got..to]);
    }

    // One turn: fill what fits, then replace a full chunk.
    method Round(w: seq<byte>, ghost k: nat) returns (ghost k': nat)
      requires Valid() && At(k) && |w| <= CHUNK_PAYLOAD - cur.length
      modifies this, sm.Repr
      ensures Valid() && fresh(sm.Repr - old(sm.Repr))
      ensures (sm.View(), k') == L.Turn(old(sm.View()), k, dest, w)
      ensures At(k') && cur.length < CHUNK_PAYLOAD && old(sm.slots) <= sm.slots
    {
      k' := k;
      Fill(w, k);
      ghost var filled := sm.View();
      assert filled == L.Put(old(sm.View()), k, w) && |filled[k].data| == cur.length;
      if cur.length >= CHUNK_PAYLOAD {
        k' := Alloc(filled, dest).1;
        cur := sm.ChunkAlloc(dest);
        assert sm.View() == Alloc(filled, dest).0;
      }
    }

    // memcpy behind the used part, then the new length
    method Fill(w: seq<byte>, ghost k: nat)
      requires Valid() && At(k) && |w| <= CHUNK_PAYLOAD - cur.length
      modifies cur, cur.data
      ensures Valid() && sm.Repr == old(sm.Repr) && sm.View() == L.Put(old(sm.View()), k, w)
      ensures cur.length == old(cur.length) + |w| && sm.slots == old(sm.slots)
    {
      forall i | 0 <= i < |w| {
        cur.data[cur.length + i] := w[i];
      }
      cur.length := cur.length + |w|;
      assert cur.data[..cur.length] == old(cur.data[..cur.length]) + w;
      forall i | 0 <= i < |sm.slots| && i != k ensures sm.slots[i].View() == old(sm.slots[i].View()) {
      }
      assert Views(sm.slots) == L.Put(old(Views(sm.slots)), k, w);
    }
  }

  // read(2): fails, or returns at least one byte if there is room and something to read.
  method Read(room: nat, left: nat) returns (n: int)
    ensures n <= room && n <= left && (n == 0 <==> room == 0 || left == 0)
  {
    if room == 0 || left == 0 {
      return 0;
    }
    n :| n != 0 && n <= room && n <= left;
  }
}
