/** `_parse_taskstats_log` from the text of the log on. */
module TaskStatsLog {
  import opened Wrappers
  import opened Text
  import opened Samples
  import opened TaskStats
  import T = TimedFrames

  // ---- lines --------------------------------------------------------------------------

  // A line in tokens. A line of another number of tokens is skipped; if one of the numbers is not
  // a number, the parser fails.
  function RowOf(line: string): Result<Row> { RowOfTokens(Split(line, " ")) }

  function RowOfTokens(tokens: seq<string>): Result<Row> {
    if |tokens| != 6 then Ok(Other)
    else
      match (ReadSigned(tokens[0]), ReadSigned(tokens[1]), ReadSigned(tokens[3]), ReadSigned(tokens[4]), ReadSigned(tokens[5]))
      case (Some(pid), Some(ppid), Some(cpu), Some(blkio), Some(swap)) => Ok(Stat(pid, ppid, tokens[2], cpu, blkio, swap))
      case _ => Err
  }

  function RowsOf(lines: seq<string>): Result<seq<Row>> {
    if lines == [] then Ok([])
    else AddRow(RowsOf(lines[..|lines| - 1]), lines[|lines| - 1])
  }

  function AddRow(rows: Result<seq<Row>>, line: string): Result<seq<Row>> {
    if rows.Ok? && RowOf(line).Ok? then Ok(rows.value + [RowOf(line).value]) else Err
  }

  function BlocksOf(frames: seq<T.Frame>): Result<seq<Block>> {
    if frames == [] then Ok([])
    else AddBlock(BlocksOf(frames[..|frames| - 1]), frames[|frames| - 1])
  }

  function AddBlock(blocks: Result<seq<Block>>, f: T.Frame): Result<seq<Block>> {
    if blocks.Ok? && RowsOf(f.lines).Ok? then Ok(blocks.value + [Block(f.time, RowsOf(f.lines).value)]) else Err
  }

  function ParseFrames(frames: seq<T.Frame>): Result<Option<ProcessStats>> {
    match BlocksOf(frames) case Err => Err case Ok(blocks) => Ok(ParseLog(blocks))
  }

  function ParseText(text: string): Result<Option<ProcessStats>> {
    match T.Parse(text) case Err => Err case Ok(frames) => ParseFrames(frames)
  }

  lemma {:induction false} RowsFail(lines: seq<string>, l: nat)
    requires l <= |lines| && RowsOf(lines[..l]).Err?
    ensures RowsOf(lines).Err?
  {
    if l == |lines| {
      assert lines[..l] == lines;
    } else {
      assert lines[..|lines| - 1][..l] == lines[..l];
      RowsFail(lines[..|lines| - 1], l);
    }
  }

  lemma {:induction false} BlocksFail(frames: seq<T.Frame>, b: nat)
    requires b <= |frames| && BlocksOf(frames[..b]).Err?
    ensures BlocksOf(frames).Err?
  {
    if b == |frames| {
      assert frames[..b] == frames;
    } else {
      assert frames[..|frames| - 1][..b] == frames[..b];
      BlocksFail(frames[..|frames| - 1], b);
    }
  }

  lemma {:induction false} RowsOfAll(lines: seq<string>, rows: seq<Row>)
    requires |lines| == |rows| && forall i :: 0 <= i < |lines| ==> RowOf(lines[i]) == Ok(rows[i])
    ensures RowsOf(lines) == Ok(rows)
  {
    if lines != [] {
      var l := |lines| - 1;
      RowsOfAll(lines[..l], rows[..l]);
      assert RowOf(lines[l]) == Ok(rows[l]) && rows == rows[..l] + [rows[l]];
    }
  }

  lemma RowsNext(lines: seq<string>, l: nat)
    requires l < |lines|
    ensures RowsOf(lines[..l + 1]) == AddRow(RowsOf(lines[..l]), lines[l])
  {
    assert lines[..l + 1][..l] == lines[..l];
  }

  lemma BlocksNext(frames: seq<T.Frame>, b: nat)
    requires b < |frames|
    ensures BlocksOf(frames[..b + 1]) == AddBlock(BlocksOf(frames[..b]), frames[b])
  {
    assert frames[..b + 1][..b] == frames[..b];
  }

  lemma {:induction false} BlockTimes(frames: seq<T.Frame>)
    requires BlocksOf(frames).Ok?
    ensures |BlocksOf(frames).value| == |frames|
    ensures forall i :: 0 <= i < |frames| ==> BlocksOf(frames).value[i].time == frames[i].time
  {
    if frames != [] {
      BlockTimes(frames[..|frames| - 1]);
    }
  }

  // ---- the loops ------------------------------------------------------------------------

  // _parse_taskstats_log
  method ParseTaskstatsLog(text: string) returns (r: Result<Option<ProcessStats>>)
    ensures r == ParseText(text)
  {
    var timedBlocks := T.Parse(text);
    if timedBlocks.Err? {
      return Err;
    }
    var blocks := timedBlocks.value;
    var processMap: map<int, Proc>, pidRewrites: map<int, int> := map[], map[];
    var ltime: Option<int> := None;
    ghost var done: seq<Block> := [];
    for b := 0 to |blocks|
      invariant ltime == if b == 0 then None else Some(blocks[b - 1].time)
      invariant b == 0 ==> processMap == map[] && pidRewrites == map[]
      invariant BlocksOf(blocks[..b]) == Ok(done)
      invariant b > 0 ==> State(processMap, pidRewrites) == Parse(Flatten(done))
    {
      if ltime == None {
        processMap := processMap[1000 := INIT_PROC];
        BlockTimes(blocks[..b]);
      }
      BlocksNext(blocks, b);
      var failed;
      processMap, pidRewrites, failed := ParseBlock(processMap, pidRewrites, blocks[b], Flatten(done));
      if failed {
        BlocksFail(blocks, b + 1);
        return Err;
      }
      ghost var block := Block(blocks[b].time, RowsOf(blocks[b].lines).value);
      FlattenNext(done, block);
      done := done + [block];
      ltime := Some(blocks[b].time);
    }
    assert blocks[..|blocks|] == blocks;
    BlockTimes(blocks);
    if |blocks| < 2 {
      return Ok(None);
    }
    var startTime := blocks[0].time;
    var avgSampleLength := (ltime.value - startTime) as real / (|blocks| - 1) as real;
    return Ok(Some(ProcessStats(processMap, |blocks|, avgSampleLength, startTime, ltime.value)));
  }

  lemma FlattenNext(blocks: seq<Block>, b: Block)
    ensures Flatten(blocks + [b]) == Flatten(blocks) + TimedRows(b)
  {
    assert (blocks + [b])[..|blocks|] == blocks;
  }

  // The inner loop, over the lines of one block.
  method ParseBlock(processMap: map<int, Proc>, pidRewrites: map<int, int>, block: T.Frame, ghost before: seq<Timed>)
    returns (processMap': map<int, Proc>, pidRewrites': map<int, int>, failed: bool)
    requires State(processMap, pidRewrites) == Parse(before)
    ensures failed <==> RowsOf(block.lines).Err?
    ensures !failed ==> State(processMap', pidRewrites') == Parse(before + TimedRows(Block(block.time, RowsOf(block.lines).value)))
  {
    processMap', pidRewrites', failed := processMap, pidRewrites, false;
    assert before + TimedRows(Block(block.time, [])) == before;
    for l := 0 to |block.lines|
      invariant RowsOf(block.lines[..l]).Ok?
      invariant State(processMap', pidRewrites') == Parse(before + TimedRows(Block(block.time, RowsOf(block.lines[..l]).value)))
    {
      RowsNext(block.lines, l);
      var row := RowOf(block.lines[l]);
      if row.Err? {
        RowsFail(block.lines, l + 1);
        failed := true;
        return;
      }
      RowNext(before, block.time, RowsOf(block.lines[..l]).value, row.value);
      processMap', pidRewrites' := ParseLine(processMap', pidRewrites', block.time, row.value);
    }
    assert block.lines[..|block.lines|] == block.lines;
  }

  lemma RowNext(before: seq<Timed>, time: int, rows: seq<Row>, row: Row)
    ensures Parse(before + TimedRows(Block(time, rows + [row])))
         == ParseRow(Parse(before + TimedRows(Block(time, rows))), Timed(time, row))
  {
    ParseSnoc(before + TimedRows(Block(time, rows)), Timed(time, row));
    assert before + TimedRows(Block(time, rows + [row])) == before + TimedRows(Block(time, rows)) + [Timed(time, row)];
  }

  // The body of the inner loop, behind the tokens.
  method ParseLine(processMap: map<int, Proc>, pidRewrites: map<int, int>, time: int, line: Row)
    returns (processMap': map<int, Proc>, pidRewrites': map<int, int>)
    ensures State(processMap', pidRewrites') == ParseRow(State(processMap, pidRewrites), Timed(time, line))
  {
    processMap', pidRewrites' := processMap, pidRewrites;
    if line.Other? {
      return;
    }
    var opid, ppid := line.pid * 1000, line.ppid * 1000;
    var pid := opid;
    if opid in pidRewrites {
      pid := pidRewrites[opid];
    }
    var cmd := Name(line.comm);
    var process: Proc;
    if pid in processMap {
      process := processMap[pid];
      if process.cmd != cmd {
        pid := pid + 1;
        pidRewrites' := pidRewrites'[opid := pid];
        process := Proc(pid, cmd, ppid, time, [], process.cpu, process.blkio, process.swap);
      }
    } else {
      process := Proc(pid, cmd, ppid, time, [], 0, 0, 0);
    }
    process := AddSample(process, time, line);
    processMap' := processMap'[pid := process];
  }

  // The end of the loop's body: the deltas of a line become a sample.
  method AddSample(p: Proc, time: int, line: Row) returns (process: Proc)
    requires line.Stat?
    ensures process == Feed(p, time, line)
  {
    process := p;
    var deltaCpu, deltaBlkio, deltaSwap := line.cpu - process.cpu, line.blkio - process.blkio, line.swap - process.swap;
    var state := 'S';
    if deltaCpu > 0 {
      state := 'R';
    } else if deltaBlkio + deltaSwap > 0 {
      state := 'D';
    }
    if deltaCpu + deltaBlkio + deltaSwap > 0 {
      process := process.(samples := process.samples + [Sample(time, state, deltaCpu, 0, deltaBlkio, deltaSwap)]);
    }
    process := process.(cpu := line.cpu, blkio := line.blkio, swap := line.swap);
  }
}
