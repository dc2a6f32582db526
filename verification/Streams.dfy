/** All the collector's streams on one table. */
module Streams {
  // Whatever is opened and appended in whatever order, the files and chunks on the heap show the
  // Log of ChunkLog.

  import opened ChunkLog
  import opened OutputBuffers

  // The file variables of main, by name, and the table they share.
  class Streams {
    const sm: StackMap
    var files: map<string, BufferFile>
    ghost var log: Log
    ghost var ops: seq<Op> // all calls so far

    ghost predicate FileOk(s: string)
      reads this, sm, sm.Repr, files.Values
    {
      s in files ==>
        && files[s].sm == sm && files[s].dest == s && files[s] !in sm.Repr
        && s in log.cur && files[s].At(log.cur[s])
    }

    // The heap shows the log.
    ghost predicate Shows()
      reads this, sm, sm.Repr, files.Values
    {
      && this !in sm.Repr && sm.Valid() && sm.View() == log.chunks
      && files.Keys == log.cur.Keys
      && (forall s {:trigger FileOk(s)} :: FileOk(s))
      && (forall s, t :: s in files && t in files && s != t ==> files[s] != files[t])
    }

    ghost predicate Mirrors()
      reads this, sm, sm.Repr, files.Values
    {
      Shows() && Reached(ops, log)
    }

    constructor ()
      ensures Mirrors() && log == EMPTY && ops == [] && fresh(sm.Repr) && fresh(sm)
    {
      sm := new StackMap();
      files := map[];
      log, ops := EMPTY, [];
      new;
      EmptyIsValid();
    }

    method Open(s: string)
      requires Mirrors() && s !in files
      modifies this, sm.Repr
      ensures Mirrors() && fresh(sm.Repr - old(sm.Repr))
      ensures Possible(old(log), ChunkLog.Open(s)) && log == Step(old(log), ChunkLog.Open(s))
      ensures ops == old(ops) + [ChunkLog.Open(s)]
      ensures s in files && fresh(files[s]) && files == old(files)[s := files[s]]
    {
      ReachedNext(ops, log, ChunkLog.Open(s));
      NewFile(s);
    }

    method NewFile(s: string)
      requires Shows() && Possible(log, ChunkLog.Open(s))
      modifies this, sm.Repr
      ensures Shows() && fresh(sm.Repr - old(sm.Repr)) && log == Step(old(log), ChunkLog.Open(s))
      ensures ops == old(ops) + [ChunkLog.Open(s)]
      ensures s in files && fresh(files[s]) && files == old(files)[s := files[s]]
    {
      var f := new BufferFile(sm, s);
      files := files[s := f];
      log, ops := Step(log, ChunkLog.Open(s)), ops + [ChunkLog.Open(s)];
      forall t ensures FileOk(t) {
        if t != s && t in files {
          assert old(FileOk(t));
          OtherKept(t);
        }
      }
    }

    // A file that was not touched is at its chunk still: the table has only grown.
    twostate lemma OtherKept(t: string)
      requires t in old(files) && old(FileOk(t)) && t in files && files[t] == old(files[t])
      requires t in log.cur && log.cur[t] == old(log.cur[t])
      requires files[t].cur == old(files[t].cur) && files[t] !in sm.Repr && old(sm.slots) <= sm.slots
      ensures FileOk(t)
    {
    }

    // A stream finds its chunk with room, whatever the others did.
    lemma HasRoom(s: string)
      requires Mirrors() && s in files
      ensures Ready(log, s) && files[s].Valid() && files[s].At(log.cur[s]) && files[s].cur.length < CHUNK_PAYLOAD
    {
      ReadyWhenOpen(log, s);
      assert FileOk(s);
      assert sm.View()[log.cur[s]] == files[s].cur.View();
    }

    method Write(s: string, bytes: seq<byte>)
      requires Mirrors() && s in files
      modifies this, sm.Repr, files[s]
      ensures Mirrors() && fresh(sm.Repr - old(sm.Repr)) && files == old(files)
      ensures Ready(old(log), s) && log == Step(old(log), ChunkLog.Write(s, bytes))
      ensures ops == old(ops) + [ChunkLog.Write(s, bytes)]
    {
      HasRoom(s);
      assert FileOk(s);
      ghost var k := files[s].Append(bytes, log.cur[s]);
      forall t ensures t != s ==> FileOk(t) {
        if t != s && t in files {
          assert old(FileOk(t));
          OtherKept(t);
        }
      }
      ReachedNext(ops, log, ChunkLog.Write(s, bytes));
      Note(s, bytes, k);
    }

    // A timestamped frame is one append, if the read does not fail.
    method WriteFrame(s: string, input: seq<byte>, uptime: seq<byte>) returns (got: nat, failed: bool)
      requires Mirrors() && s in files
      modifies this, sm.Repr, files[s]
      ensures Mirrors() && fresh(sm.Repr - old(sm.Repr)) && files == old(files)
      ensures got <= |input| && (!failed ==> got == |input|)
      ensures Ready(old(log), s) && log == Step(old(log), ChunkLog.Write(s, uptime + input[..got] + [10]))
      ensures ops == old(ops) + [ChunkLog.Write(s, uptime + input[..got] + [10])]
    {
      HasRoom(s);
      assert FileOk(s);
      ghost var k;
      got, failed, k := files[s].DumpFrame(input, uptime, log.cur[s]);
      forall t ensures t != s ==> FileOk(t) {
        if t != s && t in files {
          assert old(FileOk(t));
          OtherKept(t);
        }
      }
      ReachedNext(ops, log, ChunkLog.Write(s, uptime + input[..got] + [10]));
      Note(s, uptime + input[..got] + [10], k);
    }

    // The log is brought up to date after stream s has been appended to.
    ghost method Note(s: string, bytes: seq<byte>, k: nat)
      requires Stale(s) && Ready(log, s)
      requires files[s].Wrote(k, ChunkLog.Append(log.chunks, log.cur[s], s, bytes))
      modifies this`log, this`ops
      ensures Shows() && log == Step(old(log), ChunkLog.Write(s, bytes)) && ops == old(ops) + [ChunkLog.Write(s, bytes)]
    {
      log, ops := Step(log, ChunkLog.Write(s, bytes)), ops + [ChunkLog.Write(s, bytes)];
      forall t ensures FileOk(t) {
        assert old(FileOk(t)) || t == s;
      }
    }

    // What the dumper reads back from this very table.
    lemma ReadBack(s: string)
      requires Mirrors() && s in files
      ensures Dump(sm.View(), s) <= Written(ops, s)
      ensures TotalWritten(ops) / CHUNK_PAYLOAD + Opened(ops) <= DUMPED ==> Dump(sm.View(), s) == Written(ops, s)
    {
      DumpIsAPrefix(ops, log, s);
      if TotalWritten(ops) / CHUNK_PAYLOAD + Opened(ops) <= DUMPED {
        NothingIsLost(ops, log, s);
      }
    }

    // Everything but the table and the place of s is as the log says.
    ghost predicate Stale(s: string)
      reads this, sm, sm.Repr, files.Values
    {
      && this !in sm.Repr && sm.Valid()
      && files.Keys == log.cur.Keys && s in files
      && files[s].sm == sm && files[s].dest == s && files[s] !in sm.Repr
      && (forall t {:trigger FileOk(t)} :: t != s ==> FileOk(t))
      && (forall s, t :: s in files && t in files && s != t ==> files[s] != files[t])
    }
  }
}
