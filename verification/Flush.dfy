/** What a flush promises, with a sync and without: once the worker is idle, everything
    accepted before it is in the files. And what a full chunk gets without any flush. */
module Flushing {
  import opened RaftTypes
  import opened LogState
  import opened Histories
  import opened Stores
  import opened Invariants
  import opened Recovery
  import opened Runs
  import opened Guarantees
  import opened Workers

  // ---- what will be written ----

  /** The offset up to which the stream will be written once the queue has been worked off. */
  function WriteCover(queue: seq<Request>, written: nat): nat
    decreases |queue|
  {
    if queue == [] then written
    else WriteCover(queue[1..], if queue[0].Write? then Max(written, queue[0].upto) else written)
  }

  lemma {:induction false} WriteCoverAtLeast(queue: seq<Request>, written: nat)
    ensures written <= WriteCover(queue, written)
    decreases |queue|
  {
    if queue != [] {
      WriteCoverAtLeast(queue[1..], if queue[0].Write? then Max(written, queue[0].upto) else written);
    }
  }

  lemma {:induction false} WriteCoverGrows(queue: seq<Request>, tail: seq<Request>, written: nat)
    ensures WriteCover(queue, written) <= WriteCover(queue + tail, written)
    decreases |queue|
  {
    if queue == [] {
      assert queue + tail == tail;
      WriteCoverAtLeast(tail, written);
    } else {
      assert (queue + tail)[1..] == queue[1..] + tail;
      WriteCoverGrows(queue[1..], tail, if queue[0].Write? then Max(written, queue[0].upto) else written);
    }
  }

  lemma {:induction false} CoverOfAnyWrite(queue: seq<Request>, written: nat, upto: nat, sync: bool)
    ensures upto <= WriteCover(queue + [Write(upto, sync)], written)
    decreases |queue|
  {
    var more := queue + [Write(upto, sync)];
    if queue == [] {
      assert more[1..] == [];
    } else {
      assert more[1..] == queue[1..] + [Write(upto, sync)];
      CoverOfAnyWrite(queue[1..], if queue[0].Write? then Max(written, queue[0].upto) else written, upto, sync);
    }
  }

  function WillWrite(s: Store): nat {
    WriteCover(s.wal.queue, s.wal.written)
  }

  lemma QueueingWrites(s: Store, t: Store)
    requires OnlyQueues(s, t)
    ensures WillWrite(s) <= WillWrite(t)
  {
    var tail := t.wal.queue[|s.wal.queue|..];
    assert t.wal.queue == s.wal.queue + tail;
    WriteCoverGrows(s.wal.queue, tail, s.wal.written);
  }

  lemma WorkerWrites(s: Store)
    ensures WillWrite(s) <= WillWrite(WorkerStep(s))
  {
    var w := s.wal;
    if w.queue != [] && w.queue[0].RemoveChunks? && w.queue[0].ids != [] {
      assert WorkerStep(s).wal.queue[1..] == w.queue[1..];
    }
  }

  /** Short of a crash, no step takes back a promised write. */
  lemma StepWrites(y: System, step: Step)
    requires !step.DoCrash?
    ensures WillWrite(y.store) <= WillWrite(Take(y, step).store)
  {
    match step
    case DoWorker => WorkerWrites(y.store);
    case DoBoundary(_) =>
    case DoDrain =>
    case _ =>
      CallOnlyQueues(y.store, step);
      QueueingWrites(y.store, Call(y.store, step).0);
  }

  lemma {:induction false} RunWrites(y: System, steps: seq<Step>)
    requires CrashFree(steps)
    ensures WillWrite(y.store) <= WillWrite(After(y, steps).store)
    decreases |steps|
  {
    if steps != [] {
      StepWrites(y, steps[0]);
      RunWrites(Take(y, steps[0]), steps[1..]);
    }
  }

  lemma FlushWillWrite(s: Store, sync: bool)
    ensures EndOffset(s.wal) <= WillWrite(Flush(s, sync))
  {
    var w, v := s.wal, Flush(s, sync).wal;
    assert v.queue == w.queue + [Write(EndOffset(w), sync)] + v.queue[|w.queue| + 1..];
    CoverOfAnyWrite(w.queue, w.written, EndOffset(w), sync);
    WriteCoverGrows(w.queue + [Write(EndOffset(w), sync)], v.queue[|w.queue| + 1..], w.written);
  }

  /** Once the worker has emptied its queue after a flush, with a sync or without, everything
      accepted before the flush is in the files, whatever the writer did meanwhile. */
  lemma FlushedIsWritten(y: System, sync: bool, steps: seq<Step>)
    requires Reachable(y) && Legal(y, [DoFlush(sync)] + steps) && CrashFree(steps)
    requires After(y, [DoFlush(sync)] + steps).store.wal.queue == []
    ensures var z := After(y, [DoFlush(sync)] + steps);
            Inv(z) && |Hist(y)| <= z.store.wal.written && Grows(Hist(y), Hist(z))
  {
    ReachableInv(y);
    RunCons(y, DoFlush(sync), steps);
    StepKeeps(y, DoFlush(sync));
    FlushWillWrite(y.store, sync);
    AtEnd(y);
    RunWrites(Take(y, DoFlush(sync)), steps);
    CoverStays(Take(y, DoFlush(sync)), steps);
    RunKeeps(Take(y, DoFlush(sync)), steps);
    GrowsTrans(Hist(y), Hist(Take(y, DoFlush(sync))), Hist(After(y, [DoFlush(sync)] + steps)));
  }

  /** From then on every entry that was accepted before the flush and is still in the log is
      read, and its record is in the files: losing the cache cannot lose it. */
  lemma FlushedReads(y: System, sync: bool, steps: seq<Step>, i: nat)
    requires Reachable(y) && Legal(y, [DoFlush(sync)] + steps) && CrashFree(steps)
    requires var z := After(y, [DoFlush(sync)] + steps).store;
             z.wal.queue == [] && i in z.sm.log && z.sm.log[i].segment < |Hist(y)|
    ensures var z := After(y, [DoFlush(sync)] + steps);
            var d := z.store.sm.log[i];
            && i in EntriesOf(Hist(z))
            && ReadOne(z.store, d) == Some(EntriesOf(Hist(z))[i])
            && Load(OnFile(z.store.wal), d.chunk, d.segment) == Some(Act(Append(d.id, EntriesOf(Hist(z))[i].payload)))
  {
    var z := After(y, [DoFlush(sync)] + steps);
    FlushedIsWritten(y, sync, steps);
    LocationHolds(z, i);
    ReadOneFinds(z, i);
  }

  /** A process that ends loses nothing that the worker has written, synced or not: the next
      open finds everything that was accepted before the flush. */
  lemma FlushedSurvivesExit(y: System, sync: bool, steps: seq<Step>, cfg: Config, reuse: bool)
    requires Reachable(y) && Legal(y, [DoFlush(sync)] + steps) && CrashFree(steps)
    requires After(y, [DoFlush(sync)] + steps).store.wal.queue == []
    ensures var z := After(y, [DoFlush(sync)] + steps);
            && Enabled(z, DoCrash(cfg, z.store.wal.written, reuse))
            && Grows(Hist(y), Hist(Take(z, DoCrash(cfg, z.store.wal.written, reuse))))
  {
    var z := After(y, [DoFlush(sync)] + steps);
    FlushedIsWritten(y, sync, steps);
    WrittenIsThere(z);
    StepKeeps(z, DoCrash(cfg, z.store.wal.written, reuse));
    ExitKeeps(Hist(y), Hist(z), Hist(Take(z, DoCrash(cfg, z.store.wal.written, reuse))), z.store.wal.written);
  }

  lemma ExitKeeps(f: History, h: History, g: History, cut: nat)
    requires Grows(f, h) && CutBack(h, g, cut) && |f| <= cut
    ensures Grows(f, g)
  {
    CutPrefix(h, g, cut, |f|);
  }

  lemma FlushThenWork(y: System, sync: bool, n: nat)
    requires Inv(y)
    ensures var z := After(y, [DoFlush(sync)] + Work(n)); Inv(z) && Hist(z) == Hist(y)
  {
    FlushKeeps(y, sync);
    RunCons(y, DoFlush(sync), Work(n));
    WorkKeepsStream(Take(y, DoFlush(sync)), n);
  }

  lemma FlushEmpties(y: System, sync: bool, n: nat)
    requires Size(Flush(y.store, sync).wal.queue) <= n
    ensures Legal(y, [DoFlush(sync)] + Work(n)) && CrashFree(Work(n))
    ensures After(y, [DoFlush(sync)] + Work(n)).store.wal.queue == []
  {
    RunCons(y, DoFlush(sync), Work(n));
    WorkerCatchesUp(Take(y, DoFlush(sync)), n);
    WorkIsCrashFree(n);
  }

  /** A flush is all it takes: with enough worker steps and nothing else, everything accepted
      is in the files and the queue is empty. */
  lemma FlushWrites(y: System, sync: bool, n: nat)
    requires Reachable(y) && Size(Flush(y.store, sync).wal.queue) <= n
    ensures Legal(y, [DoFlush(sync)] + Work(n))
    ensures var z := After(y, [DoFlush(sync)] + Work(n));
            z.store.wal.queue == [] && z.store.wal.written == |Hist(z)| && Hist(z) == Hist(y)
  {
    ReachableInv(y);
    FlushEmpties(y, sync, n);
    FlushedIsWritten(y, sync, Work(n));
    FlushThenWork(y, sync, n);
    WrittenIsThere(After(y, [DoFlush(sync)] + Work(n)));
  }

  lemma WrittenIsThere(y: System)
    requires Inv(y)
    ensures y.store.wal.written <= |Hist(y)|
  {
  }

  lemma {:induction false} CoverIgnores(queue: seq<Request>, upto: nat, synced: nat)
    ensures Cover(queue + [Write(upto, false)], synced) == Cover(queue, synced)
    decreases |queue|
  {
    var more := queue + [Write(upto, false)];
    if queue == [] {
      assert more[1..] == [];
    } else {
      assert more[1..] == queue[1..] + [Write(upto, false)];
      CoverIgnores(queue[1..], upto, if queue[0].Write? && queue[0].sync then Max(synced, queue[0].upto) else synced);
    }
  }

  /** Without a sync, a flush promises no sync and hands over no chunk for removal. */
  lemma FlushWithoutSync(s: Store)
    ensures var t := Flush(s, false);
            && Cover(t.wal.queue, t.wal.synced) == Cover(s.wal.queue, s.wal.synced)
            && QueuedIds(t.wal.queue) == QueuedIds(s.wal.queue)
            && t.removed == s.removed && t.sm == s.sm && Files(t.wal) == Files(s.wal)
  {
    var write := Write(EndOffset(s.wal), false);
    CoverIgnores(s.wal.queue, EndOffset(s.wal), s.wal.synced);
    QueuedConcat(s.wal.queue, [write]);
    assert QueuedIds([write]) == [] by { assert [write][1..] == []; }
  }

  /** With a sync, it hands over all that waits. */
  lemma FlushWithSync(s: Store)
    ensures var t := Flush(s, true);
            && QueuedIds(t.wal.queue) == QueuedIds(s.wal.queue) + s.removed
            && t.removed == [] && t.sm == s.sm && Files(t.wal) == Files(s.wal)
  {
    var write := Write(EndOffset(s.wal), true);
    QueuedConcat(s.wal.queue, [write]);
    assert QueuedIds([write]) == [] by { assert [write][1..] == []; }
    if s.removed != [] {
      QueuedConcat(s.wal.queue + [write], [RemoveChunks(s.removed)]);
      assert QueuedIds([RemoveChunks(s.removed)]) == s.removed by { assert [RemoveChunks(s.removed)][1..] == []; }
    }
  }

  // ---- a full chunk ----

  /** The open chunk is still `id`, or everything before it will be synced. */
  predicate OpenedBehindSync(s: Store, id: nat) {
    s.wal.open.id == id || s.wal.open.id <= Cover(s.wal.queue, s.wal.synced)
  }

  lemma RotateSyncs(w: Wal, state: RaftLogState)
    ensures var v := Rotate(w, state); v.open.id <= Cover(v.queue, v.synced)
  {
    CoverOfWrite(w.queue, w.synced, EndOffset(w));
  }

  lemma RecordSyncs(s: Store, rec: Record, id: nat)
    requires OpenedBehindSync(s, id)
    ensures OpenedBehindSync(AppendAndApply(s, rec).0, id)
  {
    if Accepts(s.sm.state, rec) {
      var t := Push(s, rec).0;
      RotateSyncs(t.wal, t.sm.state);
    }
  }

  lemma {:induction false} AppendAllSyncs(s: Store, entries: seq<Entry>, id: nat)
    requires OpenedBehindSync(s, id)
    ensures OpenedBehindSync(AppendAll(s, entries).0, id)
    decreases |entries|
  {
    if entries != [] {
      var rec := Act(Append(entries[0].id, entries[0].payload));
      RecordSyncs(s, rec, id);
      AppendAllSyncs(AppendAndApply(s, rec).0, entries[1..], id);
    }
  }

  lemma FlushSyncs(s: Store, sync: bool, id: nat)
    requires OpenedBehindSync(s, id)
    ensures OpenedBehindSync(Flush(s, sync), id)
  {
    assert s.wal.queue <= Flush(s, sync).wal.queue;
    QueueingSyncs(s, Flush(s, sync));
  }

  lemma CallSyncs(s: Store, step: Step, id: nat)
    requires OpenedBehindSync(s, id)
    ensures OpenedBehindSync(Call(s, step).0, id)
  {
    match step
    case DoSaveUserData(data) => RecordSyncs(s, Checkpoint(s.sm.state.(userData := data)), id);
    case DoSaveVote(vote) => RecordSyncs(s, Act(SaveVote(vote)), id);
    case DoAppend(entries) => AppendAllSyncs(s, entries, id);
    case DoTruncate(index) =>
      match KeptBy(s, index) {
        case Ok(keep) => RecordSyncs(s, Act(TruncateAfter(keep)), id);
        case Err(_) =>
      }
    case DoPurge(upto) => RecordSyncs(s, Act(PurgeUpto(upto)), id);
    case DoCommit(at) => RecordSyncs(s, Act(Commit(at)), id);
    case DoUpdateState(state) => RecordSyncs(s, Checkpoint(state), id);
    case DoFlush(sync) => FlushSyncs(s, sync, id);
    case _ =>
  }

  lemma StepSyncsOpen(y: System, step: Step, id: nat)
    requires OpenedBehindSync(y.store, id) && !step.DoCrash?
    ensures OpenedBehindSync(Take(y, step).store, id)
  {
    match step
    case DoWorker => WorkerSyncs(y.store);
    case DoBoundary(_) =>
    case DoDrain =>
    case _ => CallSyncs(y.store, step, id);
  }

  lemma {:induction false} RunSyncsOpen(y: System, steps: seq<Step>, id: nat)
    requires OpenedBehindSync(y.store, id) && CrashFree(steps)
    ensures OpenedBehindSync(After(y, steps).store, id)
    decreases |steps|
  {
    if steps != [] {
      StepSyncsOpen(y, steps[0], id);
      RunSyncsOpen(Take(y, steps[0]), steps[1..], id);
    }
  }

  /** A chunk that fills up needs no flush: when the worker is idle, everything before the
      open chunk is synced, unless that chunk was already open when the run began. */
  lemma FullChunkIsSynced(y: System, steps: seq<Step>)
    requires CrashFree(steps) && After(y, steps).store.wal.queue == []
    ensures var w := After(y, steps).store.wal; w.open.id == y.store.wal.open.id || w.open.id <= w.synced
  {
    RunSyncsOpen(y, steps, y.store.wal.open.id);
  }
}
