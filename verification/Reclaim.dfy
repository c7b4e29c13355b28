/** Chunks that were handed over for removal do go away: once the worker is idle after a sync
    flush, their files are gone. */
module Reclaim {
  import opened RaftTypes
  import opened LogState
  import opened Stores
  import opened Invariants
  import opened Runs
  import opened Guarantees
  import opened Workers

  /** The chunks that no removal request names yet, oldest first. */
  function Waiting(s: Store): seq<nat> {
    s.removed + ChunkIds(s.wal.closed) + [s.wal.open.id]
  }

  lemma BufferWaits(s: Store)
    ensures Waiting(Buffer(s)) == Waiting(s)
  {
    if s.sm.state.purged.Some? {
      var closed, n := s.wal.closed, DrainCount(s.wal.closed, s.sm.state.purged);
      assert ChunkIds(closed) == ChunkIds(closed[..n]) + ChunkIds(closed[n..]);
    }
  }

  lemma RotateWaits(s: Store, state: RaftLogState)
    ensures Waiting(s) <= Waiting(s.(wal := Rotate(s.wal, state)))
  {
    var w := Rotate(s.wal, state);
    assert ChunkIds(w.closed) == ChunkIds(s.wal.closed) + [s.wal.open.id];
  }

  lemma RecordWaits(s: Store, rec: Record)
    ensures Waiting(s) <= Waiting(AppendAndApply(s, rec).0)
  {
    if Accepts(s.sm.state, rec) {
      var t := Push(s, rec).0;
      RotateWaits(t, t.sm.state);
      BufferWaits(t.(wal := Rotate(t.wal, t.sm.state)));
    }
  }

  lemma {:induction false} AppendAllWaits(s: Store, entries: seq<Entry>)
    ensures Waiting(s) <= Waiting(AppendAll(s, entries).0)
    decreases |entries|
  {
    if entries != [] {
      var rec := Act(Append(entries[0].id, entries[0].payload));
      RecordWaits(s, rec);
      AppendAllWaits(AppendAndApply(s, rec).0, entries[1..]);
    }
  }

  lemma CallWaits(s: Store, step: Step)
    requires !step.DoFlush?
    ensures Waiting(s) <= Waiting(Call(s, step).0)
  {
    match step
    case DoSaveUserData(data) => RecordWaits(s, Checkpoint(s.sm.state.(userData := data)));
    case DoSaveVote(vote) => RecordWaits(s, Act(SaveVote(vote)));
    case DoAppend(entries) => AppendAllWaits(s, entries);
    case DoTruncate(index) =>
      if KeptBy(s, index).Ok? {
        RecordWaits(s, Act(TruncateAfter(KeptBy(s, index).value)));
      }
    case DoPurge(upto) =>
      RecordWaits(s, Act(PurgeUpto(upto)));
      BufferWaits(AppendAndApply(s, Act(PurgeUpto(upto))).0);
    case DoCommit(id) => RecordWaits(s, Act(Commit(id)));
    case DoUpdateState(state) => RecordWaits(s, Checkpoint(state));
    case _ =>
  }

  lemma {:induction false} FilesAscend(files: seq<File>, at: nat)
    requires Adjacent(files, at)
    ensures forall i, j :: 0 <= i < j < |files| ==> files[i].id < files[j].id
    ensures forall f <- files :: at <= f.id
  {
    if files != [] {
      FilesAscend(files[1..], at + |files[0].recs|);
    }
  }

  predicate Ascends(ids: seq<nat>) {
    forall i, j :: 0 <= i < j < |ids| ==> ids[i] < ids[j]
  }

  lemma IdsAscend(files: seq<File>, at: nat)
    requires Adjacent(files, at)
    ensures Ascends(FileIds(files))
  {
    FilesAscend(files, at);
  }

  lemma SuffixAscends(a: seq<nat>, b: seq<nat>)
    requires Ascends(a + b)
    ensures Ascends(b)
  {
    forall i, j | 0 <= i < j < |b| ensures b[i] < b[j] {
      assert (a + b)[|a| + i] < (a + b)[|a| + j];
    }
  }

  lemma IdsSplit(s: Store)
    requires InOrder(s)
    ensures FileIds(Files(s.wal)) == QueuedIds(s.wal.queue) + Waiting(s)
  {
    var a, b, c, d := QueuedIds(s.wal.queue), s.removed, ChunkIds(s.wal.closed), [s.wal.open.id];
    assert a + b + c + d == a + (b + c + d);
  }

  lemma WaitingAscends(y: System)
    requires Contiguous(y)
    ensures Ascends(Waiting(y.store))
  {
    DiskAdjacent(y);
    IdsAscend(Files(y.store.wal), Base(y.store.wal));
    IdsSplit(y.store);
    SuffixAscends(QueuedIds(y.store.wal.queue), Waiting(y.store));
  }

  lemma FlushWaits(s: Store, sync: bool)
    requires Ascends(Waiting(s))
    ensures Waiting(s)[0] <= Waiting(Flush(s, sync))[0]
    ensures sync ==> forall id <- s.removed :: id < Waiting(Flush(s, sync))[0]
  {
    var n := |s.removed|;
    if sync && n > 0 {
      assert Waiting(Flush(s, sync)) == Waiting(s)[n..];
      assert s.removed == Waiting(s)[..n];
    }
  }

  /** The oldest chunk that no request names never moves back. */
  lemma StepWaits(y: System, step: Step)
    requires Inv(y) && Enabled(y, step) && !step.DoCrash?
    ensures Waiting(y.store)[0] <= Waiting(Take(y, step).store)[0]
  {
    match step
    case DoFlush(sync) =>
      WaitingAscends(y);
      FlushWaits(y.store, sync);
    case DoWorker =>
    case DoBoundary(_) =>
    case DoDrain =>
    case _ => CallWaits(y.store, step);
  }

  lemma {:induction false} RunWaits(y: System, steps: seq<Step>)
    requires Inv(y) && Legal(y, steps) && CrashFree(steps)
    ensures Inv(After(y, steps))
    ensures Waiting(y.store)[0] <= Waiting(After(y, steps).store)[0]
    decreases |steps|
  {
    if steps != [] {
      StepWaits(y, steps[0]);
      StepKeeps(y, steps[0]);
      RunWaits(Take(y, steps[0]), steps[1..]);
    }
  }

  lemma IdleDisk(y: System)
    requires Contiguous(y) && y.store.wal.queue == []
    ensures forall f <- Files(y.store.wal) :: Waiting(y.store)[0] <= f.id
  {
    var files := Files(y.store.wal);
    WaitingAscends(y);
    IdsSplit(y.store);
    assert FileIds(files) == Waiting(y.store);
    forall f <- files ensures Waiting(y.store)[0] <= f.id {
      var k :| 0 <= k < |files| && files[k] == f;
      assert FileIds(files)[k] == f.id;
    }
  }

  /** Once the worker is idle after a sync flush, every chunk that was waiting for removal at
      the flush is gone from disk, whatever was called meanwhile. */
  lemma FlushUnlinks(y: System, steps: seq<Step>, id: nat)
    requires Reachable(y) && Legal(y, [DoFlush(true)] + steps) && CrashFree(steps)
    requires After(y, [DoFlush(true)] + steps).store.wal.queue == [] && id in y.store.removed
    ensures forall f <- Files(After(y, [DoFlush(true)] + steps).store.wal) :: id < f.id
  {
    ReachableInv(y);
    RunCons(y, DoFlush(true), steps);
    StepKeeps(y, DoFlush(true));
    WaitingAscends(y);
    FlushWaits(y.store, true);
    RunWaits(Take(y, DoFlush(true)), steps);
    IdleDisk(After(y, [DoFlush(true)] + steps));
  }

  /** A sync flush settles everything by itself: after enough worker steps the queue is empty,
      all that was accepted is synced, and the chunks that waited for removal are gone. */
  lemma FlushSettles(y: System, n: nat)
    requires Reachable(y) && Size(Flush(y.store, true).wal.queue) <= n
    ensures Legal(y, [DoFlush(true)] + Work(n))
    ensures var z := After(y, [DoFlush(true)] + Work(n));
            && z.store.wal.queue == []
            && |Hist(y)| <= z.store.wal.synced && Grows(Hist(y), Hist(z))
            && forall id <- y.store.removed, f <- Files(z.store.wal) :: id < f.id
  {
    RunCons(y, DoFlush(true), Work(n));
    WorkerCatchesUp(Take(y, DoFlush(true)), n);
    WorkIsCrashFree(n);
    FlushedIsSynced(y, Work(n));
    forall id <- y.store.removed ensures forall f <- Files(After(y, [DoFlush(true)] + Work(n)).store.wal) :: id < f.id {
      FlushUnlinks(y, Work(n), id);
    }
  }
}
