/** The collector and the parser together. */
module DumpedFrames {
  // Frames are appended to a stream chunk by chunk, the chunks are dumped while the collector runs
  // on, and the dumped file is parsed.
  import opened Wrappers
  import opened ChunkLog
  import L = LiveDump
  import F = LiveFiles
  import R = LiveRuns
  import T = TimedFrames
  import B = TimedBlocks
  import E = ElidedLog
  import P = TaskStatsLog
  import C = CutLog
  import I = ElisionSteps
  import S = TaskStats

  function Chars(bytes: seq<byte>): string {
    seq(|bytes|, i requires 0 <= i < |bytes| => bytes[i] as int as char)
  }

  lemma CharsPrefix(a: seq<byte>, b: seq<byte>)
    requires a <= b
    ensures Chars(a) <= Chars(b)
  {
  }

  lemma {:induction false} LogTextGrows(fs: seq<T.Frame>, j: nat, k: nat)
    requires j <= k <= |fs|
    ensures T.LogText(fs[..j]) <= T.LogText(fs[..k])
  {
    if j > 0 {
      T.LogFirst(fs, j - 1);
      T.LogFirst(fs, k - 1);
      LogTextGrows(fs[1..], j - 1, k - 1);
    }
  }

  // Whatever the writers did meanwhile, if the slots copied empty spare the stream: the file parses,
  // each complete frame in it is one that was appended, in order and unchanged, and at most one
  // damaged frame follows. If they keep it, every frame whose bytes could all be read when the count
  // was copied is there, as long as the stream had not been sent to the last slot.
  lemma {:induction false} DumpedFramesParse(run: seq<L.State>, st: L.State, s: string, fs: seq<T.Frame>, done: nat)
    returns (k: nat, last: seq<T.Frame>)
    requires R.RunsTo(run, st) && F.Dumped(st) && F.Spared(st, s)
    requires T.AllSound(fs) && Chars(F.Said(st, s)) <= T.LogText(fs)
    requires done <= |fs| && (s in st.dumper.writers ==> T.LogText(fs[..done]) <= Chars(L.Public(st.dumper.writers[s])))
    ensures k <= |fs| && |last| <= 1 && (last != [] ==> k < |fs| && T.Torn(last[0], fs[k]))
    ensures T.Parse(Chars(Demux(st.dumper.got, s))) == Ok(fs[..k] + last)
    ensures F.Kept(st, s) && s in st.dumper.writers && st.dumper.writers[s].cur < DUMPED ==> done <= k
  {
    var file := Demux(st.dumper.got, s);
    R.DumpIsAPrefix(run, st, s);
    CharsPrefix(file, F.Said(st, s));
    k, last := B.PrefixParses(fs, Chars(file));
    if F.Kept(st, s) && s in st.dumper.writers && st.dumper.writers[s].cur < DUMPED && k < done {
      R.DumpIsUpToDate(run, st, s);
      CharsPrefix(L.Public(st.dumper.writers[s]), file);
      LogTextGrows(fs, k + 1, done);
      assert false;
    }
  }

  // The taskstats file of such a dump, whose names have no blanks: it cannot be parsed if and only if
  // it ends right behind the fifth blank of a line, or the minus sign there. Otherwise it gives the
  // processes of its complete lines, or those and the next line with a shorter last number.
  lemma {:induction false} DumpedTaskstatsParse(run: seq<L.State>, st: L.State, s: string, ticks: seq<E.Tick>)
    returns (n: nat, torn: seq<S.Timed>)
    requires R.RunsTo(run, st) && F.Dumped(st) && F.Spared(st, s)
    requires (forall t <- ticks :: E.Sound(t)) && Chars(F.Said(st, s)) <= T.LogText(E.Frames(ticks))
    requires forall r <- E.Readings(ticks) :: I.Readable(r)
    ensures var r := P.ParseText(Chars(Demux(st.dumper.got, s)));
      && (r.Err? <==> C.BehindFive(ticks, Chars(Demux(st.dumper.got, s))))
      && (r.Ok? && r.value.Some? ==>
        C.CompleteLines(ticks, Chars(Demux(st.dumper.got, s)), n) && C.Costs(r.value.value.procs, I.Kept(E.Readings(ticks)), n, torn))
  {
    var file := Chars(Demux(st.dumper.got, s));
    R.DumpIsAPrefix(run, st, s);
    CharsPrefix(Demux(st.dumper.got, s), F.Said(st, s));
    C.CutFailsIff(ticks, file);
    n, torn := 0, [];
    if P.ParseText(file).Ok? && P.ParseText(file).value.Some? {
      n, torn := C.CutCostsOneLine(ticks, file);
    }
  }
}
