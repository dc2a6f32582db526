/** A dump that repeats a chunk. */
module LiveGap {
  // The listener fills its chunk and allocates the next one between the copies of the pointers and
  // of the count.

  import opened Wrappers
  import opened ChunkLog
  import opened LiveDump
  import opened LiveFiles
  import opened LiveRuns

  // State i opens no stream, unless the dumper has not begun. All streams of the collector are
  // opened by its main thread, which is stopped by then.
  ghost predicate EarlyAt(run: seq<State>, i: nat) {
    0 < i < |run| ==> run[i].writers.Keys == run[i - 1].writers.Keys || run[i].dumper == CopyingMap([])
  }

  ghost predicate RunsClosed(run: seq<State>, st: State) {
    RunsTo(run, st) && forall i: nat :: EarlyAt(run, i)
  }

  lemma Extend(run: seq<State>, st: State, step: Step) returns (run': seq<State>)
    requires RunsClosed(run, st) && Enabled(st, step)
    requires Apply(st, step).writers.Keys == st.writers.Keys || Apply(st, step).dumper == CopyingMap([])
    ensures RunsClosed(run', Apply(st, step))
  {
    run' := run + [Apply(st, step)];
    forall i: nat ensures StepAt(run', i) {
      assert StepAt(run, i);
      assert Follows(st, Apply(st, step));
    }
    forall i: nat ensures EarlyAt(run', i) {
      assert EarlyAt(run, i);
    }
  }

  function Pointers(): seq<bool> { seq(SLOTS, i => i < 1) }

  lemma Slices(bytes: seq<byte>)
    ensures [] + bytes == bytes && bytes[..|bytes|] == bytes && bytes[0..|bytes|] == bytes && bytes[|bytes|..] == [] && bytes[..0] == []
  {
  }

  lemma Opened() returns (run: seq<State>)
    ensures RunsClosed(run, State([Cell("a", [], 0)], 1, Free, map["a" := Writer(0, Idle, [], 0)], CopyingMap([])))
  {
    run := [INIT];
    forall i: nat ensures StepAt(run, i) && EarlyAt(run, i) {
    }
    run := Extend(run, INIT, OpenStream("a"));
    var st := Apply(INIT, OpenStream("a"));
    assert st == State([Cell("a", [], 0)], 0, Stored("a"), map["a" := Writer(0, Idle, [], 0)], CopyingMap([]));
    run := Extend(run, st, Settle);
  }

  function Filling(b: seq<byte>, data: seq<byte>, len: nat, pc: Pc, dumper: Dumper): State {
    State([Cell("a", data, len)], 1, Free, map["a" := Writer(0, pc, b, 0)], dumper)
  }

  // The listener has raised the length of a chunk that is full now.
  lemma Filled(b: seq<byte>) returns (run: seq<State>)
    requires |b| == CHUNK_PAYLOAD
    ensures RunsClosed(run, Filling(b, b, CHUNK_PAYLOAD, Published([]), CopyingMap([])))
  {
    Slices(b);
    Slices([]);
    run := Opened();
    var st := Filling([], [], 0, Idle, CopyingMap([]));
    run := Extend(run, st, Begin("a", b));
    assert Apply(st, Begin("a", b)) == Filling(b, [], 0, Loop(b), CopyingMap([]));
    st := Filling(b, [], 0, Loop(b), CopyingMap([]));
    run := Extend(run, st, Copy("a"));
    assert Apply(st, Copy("a")) == Filling(b, b, 0, Copied(CHUNK_PAYLOAD, []), CopyingMap([]));
    st := Filling(b, b, 0, Copied(CHUNK_PAYLOAD, []), CopyingMap([]));
    run := Extend(run, st, Publish("a"));
    assert Apply(st, Publish("a")) == Filling(b, b, CHUNK_PAYLOAD, Published([]), CopyingMap([]));
  }

  function Writers(b: seq<byte>): map<string, Writer> { map["a" := Writer(1, Idle, b, 0)] }

  function Cells(b: seq<byte>): seq<Cell> { [Cell("a", b, CHUNK_PAYLOAD), Cell("a", [], 0)] }

  function After(b: seq<byte>, got: seq<Chunk>, now: Option<Header>): State {
    State(Cells(b), 2, Free, Writers(b), Reading(2, Pointers(), got, now, [Chunk("a", b), Chunk("a", [])], Writers(b)))
  }

  // The pointers are copied, then the listener allocates its second chunk, then the count is copied.
  lemma CopiedAcross(b: seq<byte>) returns (run: seq<State>)
    requires |b| == CHUNK_PAYLOAD
    ensures RunsClosed(run, After(b, [], None))
  {
    run := Filled(b);
    var st := Filling(b, b, CHUNK_PAYLOAD, Published([]), CopyingMap([]));
    run := Extend(run, st, CopySlots(SLOTS));
    st := Apply(st, CopySlots(SLOTS));
    assert st.dumper.ptrs == Pointers();
    run := Extend(run, st, Test("a"));
    st := Apply(st, Test("a"));
    assert st == State(Cells(b), 1, Stored("a"), Writers(b), CopyingMap(Pointers()));
    run := Extend(run, st, Settle);
    st := State(Cells(b), 2, Free, Writers(b), CopyingMap(Pointers()));
    run := Extend(run, st, CopyCount);
    TwoShown(b);
  }

  lemma TwoShown(b: seq<byte>)
    requires |b| == CHUNK_PAYLOAD
    ensures Seen(Cells(b))[..2] == [Chunk("a", b), Chunk("a", [])]
  {
    Slices(b);
    Slices([]);
  }

  lemma FirstSlotRead(b: seq<byte>) returns (run: seq<State>)
    requires |b| == CHUNK_PAYLOAD
    ensures RunsClosed(run, After(b, [Chunk("a", b)], None))
  {
    run := CopiedAcross(b);
    assert Pointers()[0];
    Slices(b);
    var h := Header(CHUNK_PAYLOAD, []);
    run := Extend(run, After(b, [], None), ReadLength);
    assert Apply(After(b, [], None), ReadLength) == After(b, [], Some(h));
    run := Extend(run, After(b, [], Some(h)), ReadBytes(CHUNK_PAYLOAD));
    assert Apply(After(b, [], Some(h)), ReadBytes(CHUNK_PAYLOAD)) == After(b, [], Some(h.(buf := b)));
    run := Extend(run, After(b, [], Some(h.(buf := b))), NextChunk);
    assert [] + [Chunk("a", b)] == [Chunk("a", b)];
  }

  lemma WrittenTwice(c: Chunk, s: string)
    requires c.dest == s
    ensures Demux([c, c], s) == c.data + c.data
  {
    DemuxSnoc([], c, s);
    DemuxSnoc([c], c, s);
    assert [] + [c] == [c] && [c] + [c] == [c, c];
  }

  // The read of slot 1 fails, and the chunk of slot 0 is written a second time, whatever it holds.
  lemma DumpRepeatsAChunk(b: seq<byte>) returns (run: seq<State>, st: State)
    requires |b| == CHUNK_PAYLOAD
    ensures RunsClosed(run, st) && Dumped(st) && !Spared(st, "a")
    ensures Said(st, "a") == b && Demux(st.dumper.got, "a") == b + b
  {
    var c := Chunk("a", b);
    run := FirstSlotRead(b);
    assert !Pointers()[1];
    run := Extend(run, After(b, [c], None), ReadFails(c));
    st := After(b, [c, c], None);
    assert [c] + [c] == [c, c];
    assert Apply(After(b, [c], None), ReadFails(c)) == st;
    WrittenTwice(c, "a");
    assert !SparedAt(st, 1, "a");
  }
}
