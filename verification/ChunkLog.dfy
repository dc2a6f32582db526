/** The collector's append log: streams over chunks in one table (output.c, common.h). */
module ChunkLog {
  // Every output stream is spread over fixed-size chunks, and all chunks of all streams sit in one
  // table of 1024 slots in allocation order. What survives of a stream is what the dumper later reads
  // back out of the table (dump.c).

  newtype byte = x: int | 0 <= x < 256

  // CHUNK_SIZE less the header of a Chunk: a 60-byte name padded to 64, and an 8-byte length
  const CHUNK_PAYLOAD: nat := 128 * 1024 - 72
  const SLOTS: nat := 1024
  // dump_buffers never looks at the last slot
  const DUMPED: nat := SLOTS - 1

  // dest_stream and data[..length]
  datatype Chunk = Chunk(dest: string, data: seq<byte>)

  function Min(a: nat, b: nat): nat { if a < b then a else b }

  // chunk_alloc: the new table and the slot handed out. With no slot left the last one is
  // emptied and handed out again; it keeps the name of the stream that got it first.
  function Alloc(chunks: seq<Chunk>, dest: string): (seq<Chunk>, nat)
    requires |chunks| <= SLOTS
  {
    if |chunks| == SLOTS then (chunks[SLOTS - 1 := chunks[SLOTS - 1].(data := [])], SLOTS - 1)
    else (chunks + [Chunk(dest, [])], |chunks|)
  }

  function Put(chunks: seq<Chunk>, cur: nat, w: seq<byte>): seq<Chunk>
    requires cur < |chunks|
  {
    chunks[cur := chunks[cur].(data := chunks[cur].data + w)]
  }

  // One turn of the loop in buffer_file_append: what fits is copied, a full chunk is replaced.
  function Turn(chunks: seq<Chunk>, cur: nat, dest: string, w: seq<byte>): (seq<Chunk>, nat)
    requires cur < |chunks| <= SLOTS
  {
    var filled := Put(chunks, cur, w);
    if |filled[cur].data| >= CHUNK_PAYLOAD then Alloc(filled, dest) else (filled, cur)
  }

  function Fits(chunks: seq<Chunk>, cur: nat, bytes: seq<byte>): nat
    requires cur < |chunks| && |chunks[cur].data| <= CHUNK_PAYLOAD
  {
    Min(CHUNK_PAYLOAD - |chunks[cur].data|, |bytes|)
  }

  // buffer_file_append
  function Append(chunks: seq<Chunk>, cur: nat, dest: string, bytes: seq<byte>): (seq<Chunk>, nat)
    requires cur < |chunks| <= SLOTS && |chunks[cur].data| < CHUNK_PAYLOAD
    decreases |bytes|
  {
    var n := Fits(chunks, cur, bytes);
    var (chunks', cur') := Turn(chunks, cur, dest, bytes[..n]);
    if n == |bytes| then (chunks', cur') else Append(chunks', cur', dest, bytes[n..])
  }

  // All data of one stream, in slot order: what the dumper appends to the file of that name.
  function Demux(chunks: seq<Chunk>, s: string): seq<byte> {
    if chunks == [] then []
    else Demux(chunks[..|chunks| - 1], s) + (if chunks[|chunks| - 1].dest == s then chunks[|chunks| - 1].data else [])
  }

  function Readable(chunks: seq<Chunk>): seq<Chunk> {
    chunks[..Min(|chunks|, DUMPED)]
  }

  function Dump(chunks: seq<Chunk>, s: string): seq<byte> {
    Demux(Readable(chunks), s)
  }

  // How many chunks a stream occupies.
  function Count(chunks: seq<Chunk>, s: string): nat {
    if chunks == [] then 0
    else Count(chunks[..|chunks| - 1], s) + (if chunks[|chunks| - 1].dest == s then 1 else 0)
  }

  // ---- the table under its two operations ----------------------------------------

  // cur is the last slot of stream s
  ghost predicate LastOf(chunks: seq<Chunk>, cur: nat, s: string) {
    && cur < |chunks| && chunks[cur].dest == s
    && forall i :: cur < i < |chunks| ==> chunks[i].dest != s
  }

  lemma {:induction false} DemuxPut(chunks: seq<Chunk>, cur: nat, w: seq<byte>, s: string)
    requires cur < |chunks|
    requires chunks[cur].dest == s ==> LastOf(chunks, cur, s)
    ensures Demux(Put(chunks, cur, w), s) == Demux(chunks, s) + (if chunks[cur].dest == s then w else [])
  {
    var last := |chunks| - 1;
    var init, p := chunks[..last], Put(chunks, cur, w);
    if cur < last {
      DemuxPut(init, cur, w, s);
      assert p[..last] == Put(init, cur, w);
    } else {
      assert p[..last] == init;
    }
  }

  lemma DemuxSnoc(chunks: seq<Chunk>, c: Chunk, s: string)
    ensures Demux(chunks + [c], s) == Demux(chunks, s) + (if c.dest == s then c.data else [])
  {
    assert (chunks + [c])[..|chunks|] == chunks;
  }

  lemma {:induction false} DemuxAbsent(chunks: seq<Chunk>, s: string)
    requires forall i :: 0 <= i < |chunks| ==> chunks[i].dest != s
    ensures Demux(chunks, s) == []
  {
    if chunks != [] {
      DemuxAbsent(chunks[..|chunks| - 1], s);
    }
  }

  // A fresh chunk is empty, and the last slot is never read.
  lemma AllocDump(chunks: seq<Chunk>, s: string, x: string)
    requires |chunks| <= SLOTS
    ensures Dump(Alloc(chunks, s).0, x) == Dump(chunks, x)
  {
    var before, after := Readable(chunks), Readable(Alloc(chunks, s).0);
    if |chunks| < DUMPED {
      assert after == before + [Chunk(s, [])];
      DemuxSnoc(before, Chunk(s, []), x);
    } else {
      assert after == before;
    }
  }

  // ---- splitting an append -------------------------------------------------------

  predicate Usable(chunks: seq<Chunk>, cur: nat) {
    cur < |chunks| <= SLOTS && |chunks[cur].data| < CHUNK_PAYLOAD
  }

  lemma {:induction false} AppendUsable(chunks: seq<Chunk>, cur: nat, dest: string, bytes: seq<byte>)
    requires Usable(chunks, cur)
    ensures var (chunks', cur') := Append(chunks, cur, dest, bytes); Usable(chunks', cur')
    decreases |bytes|
  {
    var n := Fits(chunks, cur, bytes);
    if n < |bytes| {
      var (chunks', cur') := Turn(chunks, cur, dest, bytes[..n]);
      AppendUsable(chunks', cur', dest, bytes[n..]);
    }
  }

  lemma AppendNothing(chunks: seq<Chunk>, cur: nat, dest: string)
    requires Usable(chunks, cur)
    ensures Append(chunks, cur, dest, []) == (chunks, cur)
  {
    assert chunks[cur].data + [] == chunks[cur].data;
    assert Put(chunks, cur, []) == chunks;
  }

  // What fits is one turn.
  lemma AppendFitting(chunks: seq<Chunk>, cur: nat, dest: string, w: seq<byte>)
    requires Usable(chunks, cur) && |w| <= CHUNK_PAYLOAD - |chunks[cur].data|
    ensures Append(chunks, cur, dest, w) == Turn(chunks, cur, dest, w)
  {
    assert w[..|w|] == w;
  }

  // The outcome of an append.
  datatype Outcome = Outcome(chunks: seq<Chunk>, cur: nat)

  function Appended(chunks: seq<Chunk>, cur: nat, dest: string, bytes: seq<byte>): Outcome
    requires Usable(chunks, cur)
  {
    Outcome(Append(chunks, cur, dest, bytes).0, Append(chunks, cur, dest, bytes).1)
  }

  // Where the loop of an append has got to on the way to its outcome.
  ghost predicate Remains(goal: Outcome, chunks: seq<Chunk>, cur: nat, dest: string, rest: seq<byte>, more: bool) {
    Usable(chunks, cur) && goal == if more then Appended(chunks, cur, dest, rest) else Outcome(chunks, cur)
  }

  lemma OneTurn(goal: Outcome, chunks: seq<Chunk>, cur: nat, dest: string, rest: seq<byte>)
    requires Remains(goal, chunks, cur, dest, rest, true)
    ensures var n := Fits(chunks, cur, rest);
      var (chunks', cur') := Turn(chunks, cur, dest, rest[..n]);
      Remains(goal, chunks', cur', dest, rest[n..], n < |rest|)
  {
  }

  // How bytes are divided over calls makes no difference to the table.
  lemma {:induction false} AppendSplit(chunks: seq<Chunk>, cur: nat, dest: string, a: seq<byte>, b: seq<byte>)
    requires Usable(chunks, cur)
    ensures var (chunks', cur') := Append(chunks, cur, dest, a);
      Usable(chunks', cur') && Append(chunks, cur, dest, a + b) == Append(chunks', cur', dest, b)
    decreases |a|
  {
    AppendUsable(chunks, cur, dest, a);
    var n := Fits(chunks, cur, a);
    var (chunks', cur') := Turn(chunks, cur, dest, a[..n]);
    if n < |a| {
      AppendSplit(chunks', cur', dest, a[n..], b);
      assert (a + b)[..n] == a[..n] && (a + b)[n..] == a[n..] + b;
    } else if |chunks[cur].data| + |a| == CHUNK_PAYLOAD {
      assert (a + b)[..n] == a && (a + b)[n..] == b && a[..n] == a;
      if b == [] {
        assert a + b == a;
        AppendNothing(chunks', cur', dest);
      }
    } else {
      assert a[..n] == a;
      AppendWithin(chunks, cur, dest, a, b);
    }
  }

  // The first part leaves room in the chunk.
  lemma AppendWithin(chunks: seq<Chunk>, cur: nat, dest: string, a: seq<byte>, b: seq<byte>)
    requires Usable(chunks, cur) && |chunks[cur].data| + |a| < CHUNK_PAYLOAD
    ensures Append(chunks, cur, dest, a + b) == Append(Put(chunks, cur, a), cur, dest, b)
  {
    var m := Fits(chunks, cur, a + b);
    var k := m - |a|;
    assert (a + b)[..m] == a + b[..k] && (a + b)[m..] == b[k..];
    assert Put(Put(chunks, cur, a), cur, b[..k]) == Put(chunks, cur, a + b[..k]) by {
      assert chunks[cur].data + a + b[..k] == chunks[cur].data + (a + b[..k]);
    }
  }

  // ---- a run of the collector ----------------------------------------------------

  // said: everything appended to a stream so far; total: its length over all streams
  datatype Log = Log(chunks: seq<Chunk>, cur: map<string, nat>, said: map<string, seq<byte>>, total: nat)

  datatype Op = Open(dest: string) | Write(dest: string, bytes: seq<byte>)

  // Streams are opened once, under distinct names, before they are written.
  predicate Possible(log: Log, op: Op) {
    && |log.chunks| <= SLOTS
    && if op.Open? then op.dest !in log.cur else Ready(log, op.dest)
  }

  // What buffer_file_append relies on; ReadyWhenOpen shows that it always holds.
  predicate Ready(log: Log, s: string) {
    && s in log.cur && s in log.said
    && log.cur[s] < |log.chunks| <= SLOTS && |log.chunks[log.cur[s]].data| < CHUNK_PAYLOAD
  }

  function Step(log: Log, op: Op): Log
    requires Possible(log, op)
  {
    match op
    case Open(s) =>
      var (chunks, cur) := Alloc(log.chunks, s);
      Log(chunks, log.cur[s := cur], log.said[s := []], log.total)
    case Write(s, bytes) =>
      var (chunks, cur) := Append(log.chunks, log.cur[s], s, bytes);
      Log(chunks, log.cur[s := cur], log.said[s := log.said[s] + bytes], log.total + |bytes|)
  }

  const EMPTY: Log := Log([], map[], map[], 0)

  // The operations, in this order, lead from log to log'.
  ghost predicate Runs(log: Log, ops: seq<Op>, log': Log)
    decreases |ops|
  {
    if ops == [] then log' == log
    else Possible(log, ops[0]) && Runs(Step(log, ops[0]), ops[1..], log')
  }

  // ---- the table between appends -------------------------------------------------

  // A slot that is read back is the chunk in use of its stream, or an earlier, full one.
  ghost predicate SlotOk(chunks: seq<Chunk>, cur: map<string, nat>, i: nat) {
    i < |chunks| ==>
      && |chunks[i].data| <= CHUNK_PAYLOAD
      && (i < DUMPED ==>
        && chunks[i].dest in cur && i <= cur[chunks[i].dest]
        && (i != cur[chunks[i].dest] ==> |chunks[i].data| == CHUNK_PAYLOAD))
  }

  // The chunk in use has room left and bears the name of its stream.
  ghost predicate StreamOk(chunks: seq<Chunk>, cur: map<string, nat>, s: string) {
    s in cur ==>
      && cur[s] < |chunks| && |chunks[cur[s]].data| < CHUNK_PAYLOAD
      && (cur[s] < DUMPED ==> chunks[cur[s]].dest == s)
  }

  ghost predicate Shaped(chunks: seq<Chunk>, cur: map<string, nat>) {
    && |chunks| <= SLOTS
    && (forall i: nat {:trigger SlotOk(chunks, cur, i)} :: SlotOk(chunks, cur, i))
    && (forall s {:trigger StreamOk(chunks, cur, s)} :: StreamOk(chunks, cur, s))
  }

  // What is read back of a stream is a prefix of what was said, and all of it as long as the
  // stream has not been sent to the last slot.
  ghost predicate Faithful(log: Log, s: string) {
    s in log.cur ==>
      && s in log.said && Dump(log.chunks, s) <= log.said[s]
      && (log.cur[s] < DUMPED ==> Dump(log.chunks, s) == log.said[s])
  }

  ghost predicate Valid(log: Log) {
    && Shaped(log.chunks, log.cur)
    && (forall s {:trigger Faithful(log, s)} :: Faithful(log, s))
    && Paid(log.chunks, log.cur, log.total)
  }

  lemma ReadyWhenOpen(log: Log, s: string)
    requires Valid(log) && s in log.cur
    ensures Ready(log, s)
  {
    assert Faithful(log, s) && StreamOk(log.chunks, log.cur, s);
  }

  function Held(chunks: seq<Chunk>): nat {
    if chunks == [] then 0 else Held(chunks[..|chunks| - 1]) + |chunks[|chunks| - 1].data|
  }

  // No more is held than was appended, and every slot beyond the first of its stream has been
  // paid for by a full payload.
  ghost predicate Paid(chunks: seq<Chunk>, cur: map<string, nat>, total: nat) {
    Held(chunks) <= total && CHUNK_PAYLOAD * |chunks| <= total + CHUNK_PAYLOAD * |cur|
  }

  // ---- one turn of the append loop -----------------------------------------------

  // Writing to a slot that is read back extends exactly its own stream; nothing written to the
  // last slot is ever seen.
  lemma TurnDump(chunks: seq<Chunk>, cur: map<string, nat>, s: string, w: seq<byte>, x: string)
    requires Shaped(chunks, cur) && s in cur && cur[s] < |chunks| && |w| <= CHUNK_PAYLOAD - |chunks[cur[s]].data|
    ensures Dump(Turn(chunks, cur[s], s, w).0, x) == Dump(chunks, x) + (if x == s && cur[s] < DUMPED then w else [])
  {
    var k := cur[s];
    assert StreamOk(chunks, cur, s);
    var filled := Put(chunks, k, w);
    var after := Turn(chunks, k, s, w).0;
    if k < DUMPED {
      assert Readable(filled) == Put(Readable(chunks), k, w);
      forall i | k < i < |Readable(chunks)| ensures Readable(chunks)[i].dest != s {
        assert SlotOk(chunks, cur, i);
      }
      DemuxPut(Readable(chunks), k, w, x);
    } else {
      assert Readable(filled) == Readable(chunks);
    }
    if |after| > |filled| && |filled| < DUMPED {
      assert Readable(after) == Readable(filled) + [Chunk(s, [])];
      DemuxSnoc(Readable(filled), Chunk(s, []), x);
    } else {
      assert Readable(after) == Readable(filled);
    }
  }

  lemma TurnShaped(chunks: seq<Chunk>, cur: map<string, nat>, s: string, w: seq<byte>)
    requires Shaped(chunks, cur) && s in cur && cur[s] < |chunks| && |w| <= CHUNK_PAYLOAD - |chunks[cur[s]].data|
    ensures var (chunks', k') := Turn(chunks, cur[s], s, w); Shaped(chunks', cur[s := k'])
  {
    var (chunks', k') := Turn(chunks, cur[s], s, w);
    var cur' := cur[s := k'];
    assert StreamOk(chunks, cur, s);
    forall i: nat ensures SlotOk(chunks', cur', i) {
      assert SlotOk(chunks, cur, i);
    }
    forall x ensures StreamOk(chunks', cur', x) {
      assert StreamOk(chunks, cur, x);
    }
  }

  // ---- every slot is paid for ----------------------------------------------------

  lemma {:induction false} HeldPut(chunks: seq<Chunk>, cur: nat, w: seq<byte>)
    requires cur < |chunks|
    ensures Held(Put(chunks, cur, w)) == Held(chunks) + |w|
  {
    var last := |chunks| - 1;
    var p := Put(chunks, cur, w);
    if cur < last {
      HeldPut(chunks[..last], cur, w);
      assert p[..last] == Put(chunks[..last], cur, w);
    } else {
      assert p[..last] == chunks[..last];
    }
  }

  lemma HeldAlloc(chunks: seq<Chunk>, dest: string)
    requires |chunks| <= SLOTS
    ensures Held(Alloc(chunks, dest).0) <= Held(chunks)
  {
    var after := Alloc(chunks, dest).0;
    assert after[..|after| - 1] == chunks[..|after| - 1];
  }

  // The streams that own a chunk with room left.
  ghost function Unfilled(chunks: seq<Chunk>): set<string> {
    if chunks == [] then {}
    else Unfilled(chunks[..|chunks| - 1])
         + (if |chunks[|chunks| - 1].data| < CHUNK_PAYLOAD then {chunks[|chunks| - 1].dest} else {})
  }

  lemma {:induction false} UnfilledOwner(chunks: seq<Chunk>, s: string) returns (i: nat)
    requires s in Unfilled(chunks)
    ensures i < |chunks| && chunks[i].dest == s && |chunks[i].data| < CHUNK_PAYLOAD
  {
    var last := |chunks| - 1;
    if |chunks[last].data| < CHUNK_PAYLOAD && chunks[last].dest == s {
      i := last;
    } else {
      i := UnfilledOwner(chunks[..last], s);
    }
  }

  lemma {:induction false} FullChunksHold(chunks: seq<Chunk>)
    requires forall i, j :: 0 <= i < j < |chunks| && chunks[i].dest == chunks[j].dest ==> |chunks[i].data| >= CHUNK_PAYLOAD
    ensures CHUNK_PAYLOAD * |chunks| <= Held(chunks) + CHUNK_PAYLOAD * |Unfilled(chunks)|
  {
    if chunks != [] {
      var last := |chunks| - 1;
      var init := chunks[..last];
      FullChunksHold(init);
      if |chunks[last].data| < CHUNK_PAYLOAD && chunks[last].dest in Unfilled(init) {
        var i := UnfilledOwner(init, chunks[last].dest);
      }
    }
  }

  // When s has just filled its chunk, one stream fewer than are open has room left.
  lemma FilledIsPaid(chunks: seq<Chunk>, cur: map<string, nat>, s: string, w: seq<byte>)
    requires Shaped(chunks, cur) && |chunks| < SLOTS
    requires s in cur && cur[s] < |chunks| && |w| == CHUNK_PAYLOAD - |chunks[cur[s]].data|
    ensures CHUNK_PAYLOAD * (|chunks| + 1) <= Held(chunks) + |w| + CHUNK_PAYLOAD * |cur|
  {
    var filled := Put(chunks, cur[s], w);
    assert StreamOk(chunks, cur, s);
    HeldPut(chunks, cur[s], w);
    FilledIsFull(chunks, cur, s, w);
    FullChunksHold(filled);
    UnfilledAreOthers(chunks, cur, s, w);
    OneMoreIsPaid(|chunks|, Held(filled), |Unfilled(filled)|, |cur|);
  }

  lemma OneMoreIsPaid(n: nat, held: nat, unfilled: nat, streams: nat)
    requires CHUNK_PAYLOAD * n <= held + CHUNK_PAYLOAD * unfilled && unfilled <= streams - 1
    ensures CHUNK_PAYLOAD * (n + 1) <= held + CHUNK_PAYLOAD * streams
  {
  }

  lemma FilledIsFull(chunks: seq<Chunk>, cur: map<string, nat>, s: string, w: seq<byte>)
    requires Shaped(chunks, cur) && |chunks| < SLOTS
    requires s in cur && cur[s] < |chunks| && |w| == CHUNK_PAYLOAD - |chunks[cur[s]].data|
    ensures var filled := Put(chunks, cur[s], w);
      forall i, j :: 0 <= i < j < |filled| && filled[i].dest == filled[j].dest ==> |filled[i].data| >= CHUNK_PAYLOAD
  {
    var filled := Put(chunks, cur[s], w);
    assert StreamOk(chunks, cur, s);
    forall i, j | 0 <= i < j < |filled| && filled[i].dest == filled[j].dest
      ensures |filled[i].data| >= CHUNK_PAYLOAD
    {
      assert SlotOk(chunks, cur, i) && SlotOk(chunks, cur, j);
    }
  }

  lemma UnfilledAreOthers(chunks: seq<Chunk>, cur: map<string, nat>, s: string, w: seq<byte>)
    requires Shaped(chunks, cur) && |chunks| < SLOTS
    requires s in cur && cur[s] < |chunks| && |w| == CHUNK_PAYLOAD - |chunks[cur[s]].data|
    ensures |Unfilled(Put(chunks, cur[s], w))| <= |cur| - 1
  {
    var filled := Put(chunks, cur[s], w);
    var others := cur.Keys - {s};
    assert StreamOk(chunks, cur, s);
    forall x | x in Unfilled(filled) ensures x in others {
      var i := UnfilledOwner(filled, x);
      assert SlotOk(chunks, cur, i);
    }
    SubsetSize(Unfilled(filled), others);
    assert cur.Keys == others + {s};
    assert |cur| == |cur.Keys|;
  }

  lemma {:induction false} SubsetSize(a: set<string>, b: set<string>)
    requires a <= b
    ensures |a| <= |b|
  {
    assert b == a + (b - a);
    assert |b| == |a| + |b - a|;
  }

  // ---- the invariant over a run --------------------------------------------------

  function LogTurn(log: Log, s: string, w: seq<byte>): Log
    requires Ready(log, s)
  {
    var (chunks, cur) := Turn(log.chunks, log.cur[s], s, w);
    Log(chunks, log.cur[s := cur], log.said[s := log.said[s] + w], log.total + |w|)
  }

  lemma TurnKeepsValid(log: Log, s: string, w: seq<byte>)
    requires Valid(log) && Ready(log, s) && |w| <= CHUNK_PAYLOAD - |log.chunks[log.cur[s]].data|
    ensures Valid(LogTurn(log, s, w))
  {
    var log' := LogTurn(log, s, w);
    TurnShaped(log.chunks, log.cur, s, w);
    forall x ensures Faithful(log', x) {
      assert Faithful(log, x) && StreamOk(log.chunks, log.cur, s);
      TurnDump(log.chunks, log.cur, s, w, x);
    }
    TurnKeepsPaid(log, s, w);
  }

  lemma TurnKeepsPaid(log: Log, s: string, w: seq<byte>)
    requires Shaped(log.chunks, log.cur) && Paid(log.chunks, log.cur, log.total)
    requires Ready(log, s) && |w| <= CHUNK_PAYLOAD - |log.chunks[log.cur[s]].data|
    ensures var log' := LogTurn(log, s, w); Paid(log'.chunks, log'.cur, log'.total)
  {
    var log' := LogTurn(log, s, w);
    HeldPut(log.chunks, log.cur[s], w);
    HeldAlloc(Put(log.chunks, log.cur[s], w), s);
    UpdateSize(log.cur, s, log'.cur[s]);
    if |log'.chunks| > |log.chunks| {
      FilledIsPaid(log.chunks, log.cur, s, w);
    }
  }

  lemma {:induction false} WriteKeepsValid(log: Log, s: string, bytes: seq<byte>)
    requires Valid(log) && Ready(log, s)
    ensures Valid(Step(log, Write(s, bytes)))
    decreases |bytes|
  {
    var n := Fits(log.chunks, log.cur[s], bytes);
    TurnKeepsValid(log, s, bytes[..n]);
    if n == |bytes| {
      assert bytes[..n] == bytes;
    } else {
      var log' := LogTurn(log, s, bytes[..n]);
      ReadyWhenOpen(log', s);
      WriteKeepsValid(log', s, bytes[n..]);
      TurnThenWrite(log, s, bytes);
    }
  }

  lemma TurnThenWrite(log: Log, s: string, bytes: seq<byte>)
    requires Ready(log, s)
    requires var n := Fits(log.chunks, log.cur[s], bytes); n < |bytes| && Ready(LogTurn(log, s, bytes[..n]), s)
    ensures var n := Fits(log.chunks, log.cur[s], bytes);
      Step(log, Write(s, bytes)) == Step(LogTurn(log, s, bytes[..n]), Write(s, bytes[n..]))
  {
    var n := Fits(log.chunks, log.cur[s], bytes);
    assert log.said[s] + bytes[..n] + bytes[n..] == log.said[s] + bytes;
  }

  lemma OpenIsPaid(log: Log, s: string)
    requires Valid(log) && s !in log.cur
    ensures var log' := Step(log, Open(s)); Paid(log'.chunks, log'.cur, log'.total)
  {
    HeldAlloc(log.chunks, s);
    CurSize(log, Open(s));
  }

  lemma OpenKeepsValid(log: Log, s: string)
    requires Valid(log) && s !in log.cur
    ensures Valid(Step(log, Open(s)))
  {
    var log' := Step(log, Open(s));
    OpenIsPaid(log, s);
    OpenShaped(log.chunks, log.cur, s);
    forall x ensures Faithful(log', x) {
      assert Faithful(log, x);
      OpenDump(log, s, x);
    }
  }

  lemma OpenShaped(chunks: seq<Chunk>, cur: map<string, nat>, s: string)
    requires Shaped(chunks, cur) && s !in cur
    ensures var (chunks', k) := Alloc(chunks, s); Shaped(chunks', cur[s := k])
  {
    var (chunks', k) := Alloc(chunks, s);
    var cur' := cur[s := k];
    forall i: nat ensures SlotOk(chunks', cur', i) {
      assert SlotOk(chunks, cur, i);
    }
    forall x ensures StreamOk(chunks', cur', x) {
      assert StreamOk(chunks, cur, x);
    }
  }

  lemma OpenDump(log: Log, s: string, x: string)
    requires Shaped(log.chunks, log.cur) && s !in log.cur
    ensures Dump(Alloc(log.chunks, s).0, x) == Dump(log.chunks, x)
    ensures Dump(log.chunks, s) == []
  {
    AllocDump(log.chunks, s, x);
    forall i | 0 <= i < |Readable(log.chunks)| ensures Readable(log.chunks)[i].dest != s {
      assert SlotOk(log.chunks, log.cur, i);
    }
    DemuxAbsent(Readable(log.chunks), s);
  }

  lemma UpdateSize(m: map<string, nat>, k: string, v: nat)
    ensures |m[k := v]| == |m| + (if k in m then 0 else 1)
  {
    var n := m[k := v];
    assert n.Keys == m.Keys + {k};
    assert |n| == |n.Keys| && |m| == |m.Keys|;
  }

  lemma CurSize(log: Log, op: Op)
    requires Possible(log, op)
    ensures |Step(log, op).cur| == |log.cur| + (if op.Open? then 1 else 0)
  {
    UpdateSize(log.cur, op.dest, Step(log, op).cur[op.dest]);
  }

  // Every operation of every stream keeps the table in order.
  lemma StepKeepsValid(log: Log, op: Op)
    requires Valid(log) && Possible(log, op)
    ensures Valid(Step(log, op))
  {
    match op
    case Open(s) => OpenKeepsValid(log, s);
    case Write(s, bytes) => WriteKeepsValid(log, s, bytes);
  }

  // Everything written to s, in order.
  function Written(ops: seq<Op>, s: string): seq<byte> {
    if ops == [] then []
    else (if ops[0].Write? && ops[0].dest == s then ops[0].bytes else []) + Written(ops[1..], s)
  }

  function TotalWritten(ops: seq<Op>): nat {
    if ops == [] then 0 else (if ops[0].Write? then |ops[0].bytes| else 0) + TotalWritten(ops[1..])
  }

  function Opened(ops: seq<Op>): nat {
    if ops == [] then 0 else (if ops[0].Open? then 1 else 0) + Opened(ops[1..])
  }

  lemma {:induction false} RunSnoc(log: Log, ops: seq<Op>, log': Log, op: Op)
    requires Runs(log, ops, log') && Possible(log', op)
    ensures Runs(log, ops + [op], Step(log', op))
    decreases |ops|
  {
    if ops == [] {
      assert ([] + [op])[1..] == [];
    } else {
      RunSnoc(Step(log, ops[0]), ops[1..], log', op);
      assert (ops + [op])[1..] == ops[1..] + [op];
    }
  }

  // A table that some calls have led to.
  ghost predicate Reached(ops: seq<Op>, log: Log) { Runs(EMPTY, ops, log) && Valid(log) }

  lemma ReachedNext(ops: seq<Op>, log: Log, op: Op)
    requires Reached(ops, log) && Possible(log, op)
    ensures Reached(ops + [op], Step(log, op))
  {
    StepKeepsValid(log, op);
    RunSnoc(EMPTY, ops, log, op);
  }

  lemma {:induction false} RunKeepsValid(log: Log, ops: seq<Op>, log': Log)
    requires Valid(log) && Runs(log, ops, log')
    ensures Valid(log')
    decreases |ops|
  {
    if ops != [] {
      StepKeepsValid(log, ops[0]);
      RunKeepsValid(Step(log, ops[0]), ops[1..], log');
    }
  }

  lemma {:induction false} RunCounts(log: Log, ops: seq<Op>, log': Log)
    requires Runs(log, ops, log')
    ensures log'.total == log.total + TotalWritten(ops) && |log'.cur| == |log.cur| + Opened(ops)
    decreases |ops|
  {
    if ops != [] {
      RunCounts(Step(log, ops[0]), ops[1..], log');
      CurSize(log, ops[0]);
    }
  }

  lemma {:induction false} RunSays(log: Log, ops: seq<Op>, log': Log, s: string)
    requires Runs(log, ops, log')
    requires s !in log.cur || s in log.said
    ensures s in log.cur ==> s in log'.said && log'.said[s] == log.said[s] + Written(ops, s)
    ensures s !in log.cur && s in log'.cur ==> s in log'.said && log'.said[s] == Written(ops, s)
    decreases |ops|
  {
    if ops != [] {
      RunSays(Step(log, ops[0]), ops[1..], log', s);
      StepSays(log, ops[0], s);
    }
  }

  lemma StepSays(log: Log, op: Op, s: string)
    requires Possible(log, op) && (s !in log.cur || s in log.said)
    ensures var log', w := Step(log, op), if op.Write? && op.dest == s then op.bytes else [];
      && (s in log.cur ==> s in log'.cur && s in log'.said && log'.said[s] == log.said[s] + w)
      && (s !in log.cur && s in log'.cur ==> s in log'.said && log'.said[s] == w)
  {
  }

  // ---- the theorems --------------------------------------------------------------

  lemma EmptyIsValid()
    ensures Valid(EMPTY)
  {
  }

  // Whatever the interleaving, what is read back of a stream is a prefix of what was written.
  lemma DumpIsAPrefix(ops: seq<Op>, log: Log, s: string)
    requires Runs(EMPTY, ops, log) && s in log.cur
    ensures Dump(log.chunks, s) <= Written(ops, s)
  {
    EmptyIsValid();
    RunKeepsValid(EMPTY, ops, log);
    RunSays(EMPTY, ops, log, s);
    RunCounts(EMPTY, ops, log);
    assert Faithful(log, s);
  }

  // While the streams and the payloads they fill fit into the slots read back, nothing is lost.
  lemma {:induction false} NothingIsLost(ops: seq<Op>, log: Log, s: string)
    requires Runs(EMPTY, ops, log) && s in log.cur
    requires TotalWritten(ops) / 131000 + Opened(ops) <= 1023
    ensures Dump(log.chunks, s) == Written(ops, s)
  {
    EmptyIsValid();
    RunKeepsValid(EMPTY, ops, log);
    RunSays(EMPTY, ops, log, s);
    RunCounts(EMPTY, ops, log);
    PaidFits(|log.chunks|, TotalWritten(ops), Opened(ops));
    assert StreamOk(log.chunks, log.cur, s) && Faithful(log, s);
  }

  lemma PaidFits(n: nat, total: nat, streams: nat)
    requires CHUNK_PAYLOAD * n <= total + CHUNK_PAYLOAD * streams && total / CHUNK_PAYLOAD + streams <= DUMPED
    ensures n <= DUMPED
  {
  }

  // A stream that never reached the last slot occupies one chunk more than it filled.
  lemma ChunksUsed(log: Log, s: string)
    requires Valid(log) && s in log.cur && log.cur[s] < DUMPED
    ensures s in log.said && Count(Readable(log.chunks), s) == |log.said[s]| / CHUNK_PAYLOAD + 1
  {
    var k := log.cur[s];
    var r := Readable(log.chunks);
    assert Faithful(log, s) && StreamOk(log.chunks, log.cur, s);
    forall i | 0 <= i < |r| && r[i].dest == s ensures i <= k && (i < k ==> |r[i].data| == CHUNK_PAYLOAD) {
      assert SlotOk(log.chunks, log.cur, i);
    }
    FullThenOne(r, k, s);
    OneMore(Count(r, s), |r[k].data|, |log.said[s]|);
  }

  lemma OneMore(count: nat, part: nat, len: nat)
    requires count >= 1 && part < CHUNK_PAYLOAD && len == CHUNK_PAYLOAD * (count - 1) + part
    ensures count == len / CHUNK_PAYLOAD + 1
  {
  }

  lemma {:induction false} FullThenOne(chunks: seq<Chunk>, cur: nat, s: string)
    requires LastOf(chunks, cur, s)
    requires forall i :: 0 <= i < cur && chunks[i].dest == s ==> |chunks[i].data| == CHUNK_PAYLOAD
    ensures Count(chunks, s) >= 1
    ensures |Demux(chunks, s)| == CHUNK_PAYLOAD * (Count(chunks, s) - 1) + |chunks[cur].data|
  {
    var last := |chunks| - 1;
    if cur < last {
      FullThenOne(chunks[..last], cur, s);
    } else {
      AllFull(chunks[..last], s);
    }
  }

  lemma {:induction false} AllFull(chunks: seq<Chunk>, s: string)
    requires forall i :: 0 <= i < |chunks| && chunks[i].dest == s ==> |chunks[i].data| == CHUNK_PAYLOAD
    ensures |Demux(chunks, s)| == CHUNK_PAYLOAD * Count(chunks, s)
  {
    if chunks != [] {
      AllFull(chunks[..|chunks| - 1], s);
    }
  }
}
