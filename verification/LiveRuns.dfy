/** Single steps and whole runs of the collector and the dumper. */
module LiveRuns {
  import opened ChunkLog
  import opened LiveDump
  import opened LiveSteps
  import opened LiveFiles

  lemma StepKeepsInv(st: State, step: Step)
    requires Inv(st) && Enabled(st, step)
    ensures Inv(Apply(st, step))
  {
    match step
    case Raise(s) => RaiseKeeps(st, s);
    case OpenStream(s) => OpenStreamKeeps(st, s);
    case Begin(s, bytes) => BeginKeeps(st, s, bytes);
    case Copy(s) => CopyKeeps(st, s);
    case Publish(s) => PublishKeeps(st, s);
    case Test(s) => TestKeeps(st, s);
    case Settle => SettleKeeps(st);
    case Scribble(s, cell, pc, more) => ScribbleKeeps(st, s, cell, pc, more);
    case CopySlots(k) => CopySlotsKeeps(st, k);
    case CopyCount => CopyCountKeeps(st);
    case ReadLength => ReadKeeps(st, step);
    case ReadBytes(k) => ReadKeeps(st, step);
    case NextChunk => ReadKeeps(st, step);
    case ReadFails(junk) => ReadKeeps(st, step);
  }

  // A writer left alone for one round of its loop does exactly one turn of the append.
  lemma RoundIsATurn(st: State, s: string)
    requires Inv(st) && Enabled(st, Copy(s)) && st.lock == Free
    ensures var w, st1 := st.writers[s], Apply(st, Copy(s));
      var n := Fits(Seen(st.cells), w.cur, w.pc.rest);
      && Enabled(st1, Publish(s)) && Enabled(Apply(st1, Publish(s)), Test(s))
      && var st3 := Apply(Apply(st1, Publish(s)), Test(s));
      && (Seen(st3.cells), st3.writers[s].cur) == Turn(Seen(st.cells), w.cur, s, w.pc.rest[..n])
      && st3.writers[s].pc == if n == |w.pc.rest| then Idle else Loop(w.pc.rest[n..])
  {
    var w, st1 := st.writers[s], Apply(st, Copy(s));
    var st2 := Apply(st1, Publish(s));
    assert CellOk(st, w.cur) && WriterOk(st, s);
    CopyKeeps(st, s);
    RoundPuts(st, s);
    AllocSeen(st2.cells, s);
  }

  lemma RoundPuts(st: State, s: string)
    requires Inv(st) && Enabled(st, Copy(s)) && Inv(Apply(st, Copy(s)))
    ensures var w, st1 := st.writers[s], Apply(st, Copy(s));
      var n, st2 := Fits(Seen(st.cells), w.cur, w.pc.rest), Apply(st1, Publish(s));
      && Seen(st2.cells) == Put(Seen(st.cells), w.cur, w.pc.rest[..n]) && |st2.cells| == |st.cells|
      && st2.writers[s] == w.(pc := Published(w.pc.rest[n..]))
      && st2.cells[w.cur].len == |Seen(st2.cells)[w.cur].data|
  {
    var w, c, st1 := st.writers[s], Cur(st, s), Apply(st, Copy(s));
    assert CellOk(st, w.cur) && WriterOk(st, s);
    CopyShows(st, s);
    CopiedCell(c, w.pc.rest[..Fits(Seen(st.cells), w.cur, w.pc.rest)]);
    PublishShows(st1, s);
  }

  // ---- whole runs ----------------------------------------------------------------

  ghost predicate Follows(st: State, st': State) {
    exists step :: Enabled(st, step) && st' == Apply(st, step)
  }

  // State i of the run follows from the one before.
  ghost predicate StepAt(run: seq<State>, i: nat) {
    0 < i < |run| ==> Follows(run[i - 1], run[i])
  }

  ghost predicate RunsTo(run: seq<State>, st: State) {
    run != [] && run[0] == INIT && run[|run| - 1] == st && forall i: nat :: StepAt(run, i)
  }

  lemma {:induction false} RunKeepsInv(run: seq<State>, st: State, i: nat)
    requires RunsTo(run, st) && i < |run|
    ensures Inv(run[i])
  {
    if i > 0 {
      RunKeepsInv(run, st, i - 1);
      assert StepAt(run, i);
      var step :| Enabled(run[i - 1], step) && run[i] == Apply(run[i - 1], step);
      StepKeepsInv(run[i - 1], step);
    }
  }

  // Writers never stop. In every run that reaches the end of the dump, overflowed or not: each
  // byte of the file of s is the byte of the stream that belongs there, if and only if the slots
  // copied empty spare s.
  lemma DumpIsVerbatimIff(run: seq<State>, st: State, s: string)
    requires RunsTo(run, st) && Dumped(st)
    ensures FileVerbatim(st, s) <==> Spared(st, s)
  {
    RunKeepsInv(run, st, |run| - 1);
    FileVerbatimIff(st, s);
  }

  // When every chunk written to the file had some byte, the condition is on destinations alone.
  lemma DumpOfBytesIsVerbatimIff(run: seq<State>, st: State, s: string)
    requires RunsTo(run, st) && Dumped(st)
    requires forall i :: 0 <= i < |st.dumper.got| && st.dumper.got[i].dest == s ==> st.dumper.got[i].data != []
    ensures FileVerbatim(st, s) <==> Aside(st, s)
  {
    DumpIsVerbatimIff(run, st, s);
    SparedWithBytes(st, s);
  }

  // All files at once; when every chunk written had some byte, no slot may have been copied empty.
  lemma AllVerbatimIff(run: seq<State>, st: State)
    requires RunsTo(run, st) && Dumped(st)
    ensures Verbatim(st) <==> Harmless(st)
    ensures (forall i :: 0 <= i < |st.dumper.got| ==> st.dumper.got[i].data != []) ==> (Verbatim(st) <==> NoneEmpty(st))
  {
    forall s ensures FileVerbatim(st, s) <==> Spared(st, s) {
      DumpIsVerbatimIff(run, st, s);
    }
    if forall i :: 0 <= i < |st.dumper.got| ==> st.dumper.got[i].data != [] {
      HarmlessWithBytes(st);
    }
  }

  // A file that is spared is a prefix of what was appended to its stream.
  lemma DumpIsAPrefix(run: seq<State>, st: State, s: string)
    requires RunsTo(run, st) && Dumped(st) && Spared(st, s)
    ensures Demux(st.dumper.got, s) <= Said(st, s)
  {
    RunKeepsInv(run, st, |run| - 1);
    SparedFile(st, s);
  }

  // For a stream not yet sent to the last slot when the count was copied: its file is verbatim and
  // goes as far as could be read by then, if and only if it is kept by the slots copied empty.
  lemma DumpIsUpToDateIff(run: seq<State>, st: State, s: string)
    requires RunsTo(run, st) && Dumped(st)
    requires s in st.dumper.writers && st.dumper.writers[s].cur < DUMPED
    ensures UpToDate(st, s) <==> Kept(st, s)
  {
    RunKeepsInv(run, st, |run| - 1);
    UpToDateIff(st, s);
  }

  // Then every append that had been completed is in the file.
  lemma DumpIsUpToDate(run: seq<State>, st: State, s: string)
    requires RunsTo(run, st) && Dumped(st) && Kept(st, s)
    requires s in st.dumper.writers && st.dumper.writers[s].cur < DUMPED
    ensures Completed(st.dumper.writers[s]) <= Public(st.dumper.writers[s]) <= Demux(st.dumper.got, s) <= Said(st, s)
  {
    RunKeepsInv(run, st, |run| - 1);
    KeptFile(st, s);
    KeptIsSpared(st, s);
    SparedFile(st, s);
  }
}
