/**
 Dumping a collector that is still running (dump.c against output.c).

 PTRACE_ATTACH stops one thread; the other may keep appending. The writers are modelled one
 per stream, and streams may be opened at any time, which allows more runs than two threads have.
 One append is copying bytes, raising the length, testing for a full chunk and allocating; allocating,
 under the mutex, is two stores, the pointer of the slot and the count, in either order. The dumper
 copies the table from the stack of the collector: first the pointers, as many at a time as it likes,
 then the count.
 Then it reads chunk after chunk: first the length, then the bytes below it, piece by piece. A slot
 that was still empty when it was copied cannot be read; the buffer then keeps the chunk before.

 A stream that has been sent to the last slot shares it with others. Whatever its writer does
 there is one arbitrary change of that slot.
 */
module LiveDump {
  import opened Wrappers
  import opened ChunkLog

  // data: the bytes written after the header, published or not; len: the length field
  datatype Cell = Cell(dest: string, data: seq<byte>, len: nat)

  datatype Pc =
    | Idle
    | Loop(rest: seq<byte>)             // about to copy
    | Copied(n: nat, rest: seq<byte>)   // n bytes lie beyond the length
    | Published(rest: seq<byte>)        // length raised, chunk not yet tested

  // said: the bytes of every append begun so far; done: how many there were when the last began
  datatype Writer = Writer(cur: nat, pc: Pc, said: seq<byte>, done: nat)

  datatype Header = Header(len: nat, buf: seq<byte>)

  // The mutex of chunk_alloc, when only one of the two stores has been made: the count, or the
  // pointer.
  datatype Lock = Free | Raised(s: string) | Stored(s: string)

  // ptrs: which slots were not empty when they were copied; got: the chunks written to files so
  // far; now: the chunk being read. The ghosts of the moment the count was copied: `seen` what
  // the chunks held, `writers` who was where.
  datatype Dumper =
    | CopyingMap(ptrs: seq<bool>)
    | Reading(max: nat, ptrs: seq<bool>, got: seq<Chunk>, now: Option<Header>, seen: seq<Chunk>, writers: map<string, Writer>)

  // cells: the chunks whose pointers are stored; count: max_chunk
  datatype State = State(cells: seq<Cell>, count: nat, lock: Lock, writers: map<string, Writer>, dumper: Dumper)

  function Shown(c: Cell): Chunk {
    Chunk(c.dest, c.data[..Min(c.len, |c.data|)])
  }

  function Seen(cells: seq<Cell>): seq<Chunk> {
    seq(|cells|, i requires 0 <= i < |cells| => Shown(cells[i]))
  }

  // The store of a pointer; with no slot left the last chunk is emptied and handed out again.
  function AllocCell(cells: seq<Cell>, dest: string): (seq<Cell>, nat)
    requires |cells| <= SLOTS
  {
    if |cells| == SLOTS then (cells[SLOTS - 1 := cells[SLOTS - 1].(len := 0)], SLOTS - 1)
    else (cells + [Cell(dest, [], 0)], |cells|)
  }

  // The mutex after the pointer has been stored.
  function LockAfter(st: State, s: string): Lock {
    if |st.cells| == SLOTS || st.lock == Raised(s) then Free else Stored(s)
  }

  datatype Step =
    | Raise(s: string)
    | OpenStream(s: string)
    | Begin(s: string, bytes: seq<byte>)
    | Copy(s: string)
    | Publish(s: string)
    | Test(s: string)
    | Settle
    | Scribble(s: string, cell: Cell, pc: Pc, more: seq<byte>)
    | CopySlots(k: nat)
    | CopyCount
    | ReadLength
    | ReadBytes(k: nat)
    | NextChunk
    | ReadFails(junk: Chunk)

  // The writer of s may take the mutex, or has it and raised the count first.
  predicate MayStore(st: State, s: string) { st.lock == Free || st.lock == Raised(s) }

  // The writer of s needs another chunk.
  predicate Full(st: State, s: string) {
    Holds(st, s) && st.writers[s].pc.Published? && Cur(st, s).len >= CHUNK_PAYLOAD
  }

  // The slot whose turn it is in dump_buffers.
  predicate AtSlot(d: Dumper) { d.Reading? && |d.got| < Min(d.max, |d.ptrs|) && d.now.None? }

  predicate Enabled(st: State, step: Step) {
    && |st.cells| <= SLOTS
    && match step
       case Raise(s) => st.lock == Free && |st.cells| < SLOTS && (s !in st.writers || Full(st, s))
       case OpenStream(s) => s !in st.writers && MayStore(st, s)
       case Begin(s, _) => s in st.writers && st.writers[s].pc.Idle? && st.writers[s].cur < DUMPED && st.lock != Stored(s)
       case Copy(s) => Holds(st, s) && st.writers[s].pc.Loop? && Cur(st, s).len <= CHUNK_PAYLOAD && st.lock != Stored(s)
       case Publish(s) => Holds(st, s) && st.writers[s].pc.Copied?
       case Test(s) => Holds(st, s) && st.writers[s].pc.Published? && (Full(st, s) ==> MayStore(st, s))
       case Settle => st.lock.Stored?
       case Scribble(s, _, _, _) => s in st.writers && st.writers[s].cur == DUMPED < |st.cells| && st.lock != Stored(s)
       case CopySlots(k) => st.dumper.CopyingMap? && |st.dumper.ptrs| + k <= SLOTS
       case CopyCount => st.dumper.CopyingMap? && |st.dumper.ptrs| == SLOTS
       case ReadLength => AtSlot(st.dumper) && st.dumper.ptrs[|st.dumper.got|] && |st.dumper.got| < |st.cells|
       case ReadBytes(k) =>
         && st.dumper.Reading? && st.dumper.now.Some? && |st.dumper.got| < |st.cells|
         && |st.dumper.now.value.buf| + k <= Min(st.dumper.now.value.len, |st.cells[|st.dumper.got|].data|)
       case NextChunk =>
         && st.dumper.Reading? && st.dumper.now.Some? && |st.dumper.got| < |st.cells|
         && |st.dumper.now.value.buf| == st.dumper.now.value.len
       case ReadFails(_) => AtSlot(st.dumper) && !st.dumper.ptrs[|st.dumper.got|]
  }

  // The writer of s is on a slot of its own.
  predicate Holds(st: State, s: string) {
    s in st.writers && st.writers[s].cur < DUMPED && st.writers[s].cur < |st.cells|
  }

  function Cur(st: State, s: string): Cell
    requires Holds(st, s)
  {
    st.cells[st.writers[s].cur]
  }

  function Apply(st: State, step: Step): State
    requires Enabled(st, step)
  {
    match step
    case Raise(s) => st.(count := st.count + 1, lock := Raised(s))
    case OpenStream(s) =>
      var (cells, cur) := AllocCell(st.cells, s);
      st.(cells := cells, lock := LockAfter(st, s), writers := st.writers[s := Writer(cur, Idle, [], 0)])
    case Begin(s, bytes) =>
      var w := st.writers[s];
      st.(writers := st.writers[s := w.(pc := Loop(bytes), said := w.said + bytes, done := |w.said|)])
    case Copy(s) =>
      var w, c := st.writers[s], Cur(st, s);
      var n := Min(CHUNK_PAYLOAD - c.len, |w.pc.rest|);
      var c' := c.(data := c.data[..Min(c.len, |c.data|)] + w.pc.rest[..n]);
      st.(cells := st.cells[w.cur := c'], writers := st.writers[s := w.(pc := Copied(n, w.pc.rest[n..]))])
    case Publish(s) =>
      var w, c := st.writers[s], Cur(st, s);
      st.(cells := st.cells[w.cur := c.(len := c.len + w.pc.n)], writers := st.writers[s := w.(pc := Published(w.pc.rest))])
    case Test(s) =>
      var w, c := st.writers[s], Cur(st, s);
      var pc := if w.pc.rest == [] then Idle else Loop(w.pc.rest);
      if c.len >= CHUNK_PAYLOAD then
        var (cells, cur) := AllocCell(st.cells, s);
        st.(cells := cells, lock := LockAfter(st, s), writers := st.writers[s := w.(cur := cur, pc := pc)])
      else st.(writers := st.writers[s := w.(pc := pc)])
    case Settle => st.(count := st.count + 1, lock := Free)
    case Scribble(s, cell, pc, more) =>
      var w := st.writers[s];
      st.(cells := st.cells[DUMPED := cell], writers := st.writers[s := w.(pc := pc, said := w.said + more)])
    case CopySlots(k) =>
      var ptrs := st.dumper.ptrs;
      st.(dumper := CopyingMap(ptrs + seq(k, i requires 0 <= i < k => |ptrs| + i < |st.cells|)))
    case CopyCount =>
      var max := Min(st.count, DUMPED);
      st.(dumper := Reading(max, st.dumper.ptrs, [], None, Seen(st.cells)[..Min(max, |st.cells|)], st.writers))
    case ReadLength =>
      st.(dumper := st.dumper.(now := Some(Header(st.cells[|st.dumper.got|].len, []))))
    case ReadBytes(k) =>
      var d := st.dumper;
      var h := d.now.value;
      st.(dumper := d.(now := Some(h.(buf := h.buf + st.cells[|d.got|].data[|h.buf|..|h.buf| + k]))))
    case NextChunk =>
      var d := st.dumper;
      st.(dumper := d.(got := d.got + [Chunk(st.cells[|d.got|].dest, d.now.value.buf)], now := None))
    case ReadFails(junk) =>
      var d := st.dumper;
      st.(dumper := d.(got := d.got + [if d.got == [] then junk else d.got[|d.got| - 1]]))
  }

  // ---- the invariant -------------------------------------------------------------

  ghost predicate CellOk(st: State, i: nat) {
    i < |st.cells| && i < DUMPED ==>
      var c := st.cells[i];
      && c.len <= |c.data| <= CHUNK_PAYLOAD
      && c.dest in st.writers && i <= st.writers[c.dest].cur
      && (i != st.writers[c.dest].cur ==> c.len == CHUNK_PAYLOAD)
  }

  // Bytes of the append in progress that no reader can see yet.
  ghost function Pending(st: State, s: string): seq<byte>
    requires Holds(st, s)
  {
    var c := Cur(st, s);
    match st.writers[s].pc
    case Idle => []
    case Loop(rest) => rest
    case Copied(n, rest) => (if c.len + n <= |c.data| then c.data[c.len..c.len + n] else []) + rest
    case Published(rest) => rest
  }

  ghost predicate WriterOk(st: State, s: string) {
    s in st.writers ==>
      var w := st.writers[s];
      && w.cur < |st.cells|
      && Dump(Seen(st.cells), s) <= w.said
      && (w.cur < DUMPED ==>
        && Cur(st, s).dest == s
        && (w.pc.Copied? ==> Cur(st, s).len + w.pc.n <= |Cur(st, s).data|)
        && Dump(Seen(st.cells), s) + Pending(st, s) == w.said
        && (w.pc.Idle? || w.done + Left(w.pc) <= |w.said|))
  }

  // How many bytes of the append in progress no reader can see yet.
  function Left(pc: Pc): nat {
    match pc
    case Idle => 0
    case Loop(rest) => |rest|
    case Copied(n, rest) => n + |rest|
    case Published(rest) => |rest|
  }

  // What of a stream could be read.
  function Public(w: Writer): seq<byte> { if Left(w.pc) <= |w.said| then w.said[..|w.said| - Left(w.pc)] else [] }

  // The count is that of the pointers stored, but for a store that is still to come; a chunk
  // that has not been counted yet is empty.
  ghost predicate LockOk(st: State) {
    match st.lock
    case Free => st.count == |st.cells|
    case Raised(_) => st.count == |st.cells| + 1 && |st.cells| < SLOTS
    case Stored(s) =>
      && st.count + 1 == |st.cells|
      && (st.count < DUMPED ==> st.cells[st.count].dest == s && Shown(st.cells[st.count]).data == [])
      && s in st.writers && st.writers[s].cur == st.count && !st.writers[s].pc.Copied?
  }

  // A chunk that was counted: it has only grown since, and was full unless it was in use.
  ghost predicate SeenOk(st: State, j: nat) {
    st.dumper.Reading? && j < |st.dumper.seen| ==>
      var d := st.dumper;
      && j < |st.cells| && d.seen[j].dest == st.cells[j].dest && d.seen[j].data <= Shown(st.cells[j]).data
      && d.seen[j].dest in d.writers && j <= d.writers[d.seen[j].dest].cur
      && (j != d.writers[d.seen[j].dest].cur ==> |d.seen[j].data| == CHUNK_PAYLOAD)
  }

  // What has been written for a slot: a state of its chunk since the count was copied, if it was
  // copied with its pointer.
  ghost predicate CopiedOk(st: State, j: nat) {
    st.dumper.Reading? && j < st.dumper.max && j < |st.dumper.ptrs| ==>
      var d := st.dumper;
      if d.ptrs[j] then
        && j < |d.seen| && j < |st.cells|
        && (j < |d.got| ==> d.got[j].dest == st.cells[j].dest && d.seen[j].data <= d.got[j].data <= Shown(st.cells[j]).data)
      else 0 < j < |d.got| ==> d.got[j] == d.got[j - 1]
  }

  ghost predicate PublicOk(st: State, s: string) {
    st.dumper.Reading? && s in st.dumper.writers && st.dumper.writers[s].cur < DUMPED ==>
      var w := st.dumper.writers[s];
      && Dump(st.dumper.seen, s) == Public(w) && Left(w.pc) <= |w.said|
      && (w.pc.Idle? || w.done + Left(w.pc) <= |w.said|)
  }

  ghost predicate NowOk(st: State) {
    st.dumper.Reading? && st.dumper.now.Some? ==>
      var d := st.dumper;
      && |d.got| < d.max && |d.got| < |d.ptrs| && d.ptrs[|d.got|] && |d.got| < |st.cells| && |d.got| < |d.seen|
      && var h, c := d.now.value, st.cells[|d.got|];
      && |h.buf| <= h.len <= c.len && h.len <= |c.data| && |d.seen[|d.got|].data| <= h.len
      && h.buf == c.data[..|h.buf|]
  }

  ghost predicate DumperOk(st: State) {
    && |st.dumper.ptrs| <= SLOTS
    && (forall j :: 0 <= j < |st.dumper.ptrs| && st.dumper.ptrs[j] ==> j < |st.cells|)
    && (st.dumper.Reading? ==>
      var d := st.dumper;
      && |d.ptrs| == SLOTS && |d.got| <= d.max <= DUMPED && |d.seen| <= d.max
      && (forall j: nat {:trigger SeenOk(st, j)} :: SeenOk(st, j))
      && (forall j: nat {:trigger CopiedOk(st, j)} :: CopiedOk(st, j))
      && (forall s {:trigger PublicOk(st, s)} :: PublicOk(st, s))
      && NowOk(st))
  }

  ghost predicate Inv(st: State) {
    && |st.cells| <= SLOTS
    && (forall i: nat {:trigger CellOk(st, i)} :: CellOk(st, i))
    && (forall s {:trigger WriterOk(st, s)} :: WriterOk(st, s))
    && LockOk(st)
    && DumperOk(st)
  }

  const INIT: State := State([], 0, Free, map[], CopyingMap([]))
}
