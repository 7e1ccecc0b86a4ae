/** filewrite and the log together: operations that are filewrite chunks never panic the
    log and never outgrow it (kernel/file.c, kernel/log.c). */
module ChunkRuns {
  import FsSpec
  import FileSystem
  import FileData
  import FileWrite
  import opened RedoLog
  import opened GroupCommit
  import opened LogBudget

  // Blocks that one chunk of filewrite may log, with mkfs's single bitmap block.
  ghost predicate ChunkLogs(l: set<nat>) {
    exists fs: FsSpec.Fs, i: nat, off: nat, n: nat :: ChunkOf(fs, i, off, n, l)
  }

  ghost predicate ChunkOf(fs: FsSpec.Fs, i: nat, off: nat, n: nat, l: set<nat>) {
    && FsSpec.Shaped(fs) && i < |fs.ino| && fs.sb.size < 8192
    && n <= FileWrite.CHUNK && off + n <= FileData.MAXBYTES
    && FileSystem.LogOk(fs, i, off, off + n, {}, l)
  }

  // Every operation logs blocks of one chunk.
  ghost predicate ChunkRun(L: Layout, s: State, steps: seq<Step>, t: State)
    decreases |steps|
  {
    if steps == [] then t == s
    else
      && Sized(L, s) && Enabled(L, s, steps[0])
      && (steps[0].LogAppend? ==>
            var p := steps[0].p; ChunkLogs(OpBlocks(s.history, p) + {s.procs[p].pend.bn}))
      && ChunkRun(L, Next(L, s, steps[0]), steps[1..], t)
  }

  lemma {:induction false} ChunksAreModest(L: Layout, s: State, steps: seq<Step>, t: State)
    requires ChunkRun(L, s, steps, t)
    ensures ModestRun(L, 7, s, steps, t)
    decreases |steps|
  {
    if steps != [] {
      hide FsSpec.Shaped, FileSystem.LogOk, OpBlocks;
      if steps[0].LogAppend? {
        var p := steps[0].p;
        var l := OpBlocks(s.history, p) + {s.procs[p].pend.bn};
        var fs, i, off, n :| ChunkOf(fs, i, off, n, l);
        FileWrite.ChunkBudget(fs, i, off, n, l);
      }
      ChunksAreModest(L, Next(L, s, steps[0]), steps[1..], t);
    }
  }

  /** Any number of processes writing files in chunks, interleaved and crashed at will:
      the log never panics, never overflows, and recovery is always consistent. */
  lemma ChunksNeverPanic(L: Layout, init: Disk, s0: State, steps: seq<Step>, s: State)
    requires Init(L, init, s0) && L.size >= LOGSIZE && ChunkRun(L, s0, steps, s)
    ensures s.panic.NoPanic? && |s.lh| <= LOGSIZE - 2 && Consistent(L, init, s)
  {
    ChunksAreModest(L, s0, steps, s);
    InitKernel(L, init, s0);
    ModestIsFrugal(L, 7, s0, steps, s);
    FrugalLess(L, 7, MAXOPBLOCKS - 1, s0, steps, s);
    NoCapacityPanic(L, init, s0, steps, s);
  }
}
