/** What every reachable store guarantees. */
module Guarantees {
  import opened RaftTypes
  import opened LogState
  import opened PayloadCaches
  import opened StateMachines
  import opened Histories
  import opened CacheHistories
  import opened Stores
  import opened ChunkFiles
  import opened Invariants
  import opened Recovery
  import opened Runs

  // ---- the index, the cache and the files read as one log ----

  function Found(es: seq<Entry>): seq<Option<Entry>> {
    seq(|es|, k requires 0 <= k < |es| => Some(es[k]))
  }

  lemma LoadAt(y: System, segment: nat)
    requires Contiguous(y) && Base(y.store.wal) <= segment < |Hist(y)|
    ensures Load(Files(y.store.wal), Hist(y)[segment].chunk, segment) == Some(Hist(y)[segment].rec)
  {
    var base := Base(y.store.wal);
    DiskHolds(y);
    LoadFinds(Files(y.store.wal), base, segment);
    assert Hist(y)[base..][segment - base] == Hist(y)[segment];
  }

  lemma LiveAboveBase(y: System, i: nat)
    requires Inv(y) && i in y.store.sm.log
    ensures Base(y.store.wal) <= y.store.sm.log[i].chunk
  {
    if Base(y.store.wal) > 0 {
      DeadForever(Hist(y), y.store.wal.synced, Base(y.store.wal) - 1);
    }
  }

  lemma EntrySource(h: History, i: nat)
    requires Legit(h) && i in LogOf(h)
    ensures i in EntriesOf(h) && EntriesOf(h)[i].id == LogOf(h)[i].id
    ensures var d := LogOf(h)[i];
            d.chunk <= d.segment < |h| && h[d.segment] == Placed(Act(Append(d.id, EntriesOf(h)[i].payload)), d.chunk)
  {
    LogResolves(h);
    EntriesSourced(h);
    assert Sourced(h, LogOf(h)[i]);
    assert Resolve(LogOf(h), h)[i] == EntriesOf(h)[i];
    ChunkOrder(h, LogOf(h)[i].segment, LogOf(h)[i].segment);
  }

  lemma DiskAdjacent(y: System)
    requires Contiguous(y)
    ensures Adjacent(Files(y.store.wal), Base(y.store.wal))
  {
    DiskHolds(y);
  }

  /** The location of a live entry holds the `Append` of that same id, and loads from the
      files as soon as the worker has written it. */
  lemma LocationHolds(y: System, i: nat)
    requires Inv(y) && i in y.store.sm.log
    ensures i in EntriesOf(Hist(y)) && EntriesOf(Hist(y))[i].id == y.store.sm.log[i].id
    ensures var d, w := y.store.sm.log[i], y.store.wal;
            Load(OnFile(w), d.chunk, d.segment) ==
              if d.segment < w.written then Some(Act(Append(d.id, EntriesOf(Hist(y))[i].payload))) else None
  {
    var d, w := y.store.sm.log[i], y.store.wal;
    EntrySource(Hist(y), i);
    LiveAboveBase(y, i);
    LoadAt(y, d.segment);
    DiskAdjacent(y);
    LoadCut(Files(w), Base(w), w.written, d.chunk, d.segment);
  }

  /** In every reachable state the location of a live entry loads if and only if the worker has
      written it, and then it is the `Append` of that same id. */
  lemma LocationLoads(y: System, i: nat)
    requires Reachable(y) && i in y.store.sm.log
    ensures i in EntriesOf(Hist(y)) && EntriesOf(Hist(y))[i].id == y.store.sm.log[i].id
    ensures var d, w := y.store.sm.log[i], y.store.wal;
            Load(OnFile(w), d.chunk, d.segment) ==
              if d.segment < w.written then Some(Act(Append(d.id, EntriesOf(Hist(y))[i].payload))) else None
  {
    ReachableInv(y);
    LocationHolds(y, i);
  }

  /** An entry that a read can deliver. */
  predicate InReach(s: Store, d: LogData) {
    Lookup(s.sm.cache.items, d.id).Some? || d.segment < s.wal.written
  }

  lemma ReadOneFinds(y: System, i: nat)
    requires Inv(y) && i in y.store.sm.log
    ensures i in EntriesOf(Hist(y))
    ensures var d := y.store.sm.log[i];
            ReadOne(y.store, d) == if InReach(y.store, d) then Some(EntriesOf(Hist(y))[i]) else None
  {
    var h, d, c := Hist(y), y.store.sm.log[i], y.store.sm.cache;
    LocationHolds(y, i);
    LogMirrors(h);
    WindowHolds(h);
    LookupFinds(c.items, d.id);
    if Lookup(c.items, d.id).Some? {
      var e := Item(d.id, Lookup(c.items, d.id).value);
      assert e in c.items && LiveEntry(EntriesOf(h), e.key);
    }
  }

  /** In every reachable state a live entry is read exactly if it is cached or the worker has
      written it; then the read is right, otherwise it fails. */
  lemma EntryReads(y: System, i: nat)
    requires Reachable(y) && i in y.store.sm.log
    ensures i in EntriesOf(Hist(y))
    ensures var d := y.store.sm.log[i];
            ReadOne(y.store, d) ==
              if Lookup(y.store.sm.cache.items, d.id).Some? || d.segment < y.store.wal.written
              then Some(EntriesOf(Hist(y))[i]) else None
  {
    ReachableInv(y);
    ReadOneFinds(y, i);
  }

  lemma FoundConcat(a: seq<Entry>, b: seq<Entry>)
    ensures Found(a + b) == Found(a) + Found(b)
  {
  }

  /** What one index contributes to a read. */
  lemma ReadAt(y: System, i: nat)
    requires Inv(y)
    ensures var es, log := EntriesOf(Hist(y)), y.store.sm.log;
            && (i in es <==> i in log)
            && (i in log ==> ReadOne(y.store, log[i]) == if InReach(y.store, log[i]) then Some(es[i]) else None)
  {
    LogMirrors(Hist(y));
    if i in y.store.sm.log {
      ReadOneFinds(y, i);
    }
  }

  /** Every live entry of the range can be delivered. */
  ghost predicate AllInReach(s: Store, from: nat, to: nat) {
    forall i <- s.sm.log :: from <= i < to ==> InReach(s, s.sm.log[i])
  }

  lemma {:induction false} ReadSlices(y: System, from: nat, to: nat)
    requires Inv(y)
    ensures Read(y.store, from, to) == Found(Slice(EntriesOf(Hist(y)), from, to)) <==> AllInReach(y.store, from, to)
    decreases if from < to then to - from else 0
  {
    if from < to {
      var s, es := y.store, EntriesOf(Hist(y));
      ReadSlices(y, from + 1, to);
      ReadAt(y, from);
      Unfolded(s, es, from, to);
      ReachHead(s, from, to);
      if from in es {
        ConsEqual(ReadOne(s, s.sm.log[from]), Read(s, from + 1, to), Some(es[from]), Found(Slice(es, from + 1, to)));
      }
    }
  }

  lemma Unfolded(s: Store, es: map<nat, Entry>, from: nat, to: nat)
    requires from < to
    ensures Read(s, from, to) ==
              if from in s.sm.log then [ReadOne(s, s.sm.log[from])] + Read(s, from + 1, to) else Read(s, from + 1, to)
    ensures Found(Slice(es, from, to)) ==
              if from in es then [Some(es[from])] + Found(Slice(es, from + 1, to)) else Found(Slice(es, from + 1, to))
  {
    if from in es {
      FoundConcat([es[from]], Slice(es, from + 1, to));
      assert Found([es[from]]) == [Some(es[from])];
    } else {
      assert Slice(es, from, to) == Slice(es, from + 1, to);
    }
  }

  lemma ReachHead(s: Store, from: nat, to: nat)
    requires from < to
    ensures AllInReach(s, from, to) <==>
              (from in s.sm.log ==> InReach(s, s.sm.log[from])) && AllInReach(s, from + 1, to)
  {
  }

  lemma ConsEqual<T>(a: T, x: seq<T>, b: T, y: seq<T>)
    ensures [a] + x == [b] + y <==> a == b && x == y
  {
    assert ([a] + x)[0] == a && ([a] + x)[1..] == x;
    assert ([b] + y)[0] == b && ([b] + y)[1..] == y;
  }

  /** In every reachable state a read returns exactly the simple log's entries of the range if
      and only if each of them is cached or has been written by the worker. */
  lemma ReadIsExactWhenInReach(y: System, from: nat, to: nat)
    requires Reachable(y)
    ensures Read(y.store, from, to) == Found(Slice(EntriesOf(Hist(y)), from, to)) <==>
              forall i <- y.store.sm.log :: from <= i < to ==> InReach(y.store, y.store.sm.log[i])
  {
    ReachableInv(y);
    ReadSlices(y, from, to);
  }

  /** What the worker has written needs no cache. */
  lemma WrittenInReach(s: Store, g: History, from: nat, to: nat)
    requires s.sm.log == LogOf(g) && |g| <= s.wal.written
    ensures AllInReach(s, from, to)
  {
    SegmentsBelow(g);
  }

  lemma RisingInReach(y: System, from: nat, to: nat)
    requires Inv(y) && Rising(Hist(y))
    ensures AllInReach(y.store, from, to)
  {
    var s := y.store;
    forall i <- s.sm.log ensures InReach(s, s.sm.log[i]) {
      LookupFinds(s.sm.cache.items, s.sm.log[i].id);
      assert s.sm.log[i].segment < y.reported || HasKey(s.sm.cache.items, s.sm.log[i].id);
    }
  }

  /** On a stream whose appends stay above the end of every closed chunk, a read in every
      reachable state returns exactly the simple log's entries of the range: whatever the
      cache has lost, the worker has written. */
  lemma ReadIsExact(y: System, from: nat, to: nat)
    requires Reachable(y) && Rising(Hist(y))
    ensures Read(y.store, from, to) == Found(Slice(EntriesOf(Hist(y)), from, to))
  {
    ReachableInv(y);
    ReadSlices(y, from, to);
    RisingInReach(y, from, to);
  }

  /** Without any such condition, reads are exact whenever the worker has caught up. */
  lemma IdleReadIsExact(y: System, from: nat, to: nat)
    requires Reachable(y) && y.store.wal.written == |Hist(y)|
    ensures Read(y.store, from, to) == Found(Slice(EntriesOf(Hist(y)), from, to))
  {
    ReachableInv(y);
    ReadSlices(y, from, to);
    WrittenInReach(y.store, Hist(y), from, to);
  }

  lemma {:induction false} SliceMembers(es: map<nat, Entry>, from: nat, to: nat)
    requires forall i <- es :: es[i].id.index == i
    ensures forall e: Entry :: e in Slice(es, from, to) <==>
              from <= e.id.index < to && e.id.index in es && es[e.id.index] == e
    decreases if from < to then to - from else 0
  {
    if from < to {
      SliceMembers(es, from + 1, to);
    }
  }

  lemma {:induction false} SliceAscends(es: map<nat, Entry>, from: nat, to: nat)
    requires forall i <- es :: es[i].id.index == i
    ensures forall j, k :: 0 <= j < k < |Slice(es, from, to)| ==>
              Slice(es, from, to)[j].id.index < Slice(es, from, to)[k].id.index
    decreases if from < to then to - from else 0
  {
    if from < to {
      var rest := Slice(es, from + 1, to);
      SliceAscends(es, from + 1, to);
      SliceMembers(es, from + 1, to);
      assert forall k :: 0 <= k < |rest| ==> rest[k] in rest;
      if from in es {
        assert Slice(es, from, to) == [es[from]] + rest;
      } else {
        assert Slice(es, from, to) == rest;
      }
    }
  }

  /** What a read of `[from, to)` should return: exactly the entries of the simple log with an
      index in that range, each once, by ascending index. */
  lemma SliceIsTheRange(y: System, from: nat, to: nat)
    requires Reachable(y)
    ensures var es := EntriesOf(Hist(y));
            var r := Slice(es, from, to);
            && (forall e: Entry :: e in r <==> from <= e.id.index < to && e.id.index in es && es[e.id.index] == e)
            && (forall j, k :: 0 <= j < k < |r| ==> r[j].id.index < r[k].id.index)
  {
    LogIsOneRun(y);
    IndexedByIndex(y.store.sm.log, MachineIn(y.store), EntriesOf(Hist(y)));
    SliceMembers(EntriesOf(Hist(y)), from, to);
    SliceAscends(EntriesOf(Hist(y)), from, to);
  }

  lemma IndexedByIndex(log: LogMap, m: Machine, es: map<nat, Entry>)
    requires m.log == log && Window(m) && Mirrors(log, es)
    ensures forall i <- es :: es[i].id.index == i
  {
    forall i <- es ensures es[i].id.index == i {
      assert i in log;
    }
  }

  /** In every reachable state the simple log is one run of consecutive indices with rising
      ids, from just above `purged` to `last`. */
  lemma LogIsOneRun(y: System)
    requires Reachable(y)
    ensures Window(MachineIn(y.store)) && Mirrors(y.store.sm.log, EntriesOf(Hist(y)))
    ensures y.store.sm.state == StateOf(Hist(y))
  {
    ReachableInv(y);
    MemoryMachine(y);
    LogMirrors(Hist(y));
  }

  /** On a store that holds entries, the check of `update_state` looks at two ends and decides
      the whole log: the indices are exactly those after `purged` up to `last`, every id is
      above `purged`, and the final id is `last`. */
  lemma TwoEndsDecideTheLog(y: System, s: RaftLogState)
    requires Reachable(y) && y.store.sm.log != map[]
    ensures CheckpointCheck(y.store.sm.log, s).Ok? <==>
              && s.last.Some? && Live(y.store.sm.log, s.last.value)
              && (forall i :: i in y.store.sm.log <==> NextIndex(s.purged) <= i <= s.last.value.index)
              && (forall i <- y.store.sm.log :: OptLess(s.purged, Some(y.store.sm.log[i].id)))
  {
    LogIsOneRun(y);
    CheckpointCheckFits(MachineIn(y.store), s);
    TwoEndpoints(MachineIn(y.store), s);
  }

  // ---- crash and open ----

  /** A crash may happen anywhere. Opening what it leaves never fails, and the opened store
      has the state and answers every read of the first `cut` records of the stream, where
      `cut` covers everything synced. */
  lemma CrashLosesOnlyTheTail(y: System, cfg: Config, cut: nat, reuse: bool, from: nat, to: nat)
    requires Reachable(y) && y.store.wal.synced <= cut <= |Hist(y)|
    ensures var r := Open(cfg, Survivors(y, cut), y.store.wal.synced, reuse);
            && r.Ok?
            && r.value.sm.state == StateOf(Hist(y)[..cut])
            && Read(r.value, from, to) == Found(Slice(EntriesOf(Hist(y)[..cut]), from, to))
  {
    ReachableInv(y);
    OpenKeeps(y, cfg, cut, reuse);
    OpenedIsWritten(y, cfg, cut, reuse);
    var z, g := Reopened(y, cfg, cut, reuse), Hist(y)[..cut];
    ReadSlices(z, from, to);
    OpenedView(Hist(y), Hist(z), cut);
    WrittenInReach(z.store, g, from, to);
  }

  /** The checkpoint of a new chunk changes neither log nor state. */
  lemma OpenedView(h: History, g: History, cut: nat)
    requires CutBack(h, g, cut)
    ensures StateOf(g) == StateOf(h[..cut]) && LogOf(g) == LogOf(h[..cut]) && EntriesOf(g) == EntriesOf(h[..cut])
  {
    if g != h[..cut] {
      Snoc(h[..cut], Placed(Checkpoint(StateOf(h[..cut])), cut));
    }
  }

  /** The offset up to which the stream will be synced once the queue has been worked off. */
  function Cover(queue: seq<Request>, synced: nat): nat
    decreases |queue|
  {
    if queue == [] then synced
    else Cover(queue[1..], if queue[0].Write? && queue[0].sync then Max(synced, queue[0].upto) else synced)
  }

  lemma {:induction false} CoverAtLeast(queue: seq<Request>, synced: nat)
    ensures synced <= Cover(queue, synced)
    decreases |queue|
  {
    if queue != [] {
      CoverAtLeast(queue[1..], if queue[0].Write? && queue[0].sync then Max(synced, queue[0].upto) else synced);
    }
  }

  lemma {:induction false} CoverGrows(queue: seq<Request>, tail: seq<Request>, synced: nat)
    ensures Cover(queue, synced) <= Cover(queue + tail, synced)
    decreases |queue|
  {
    if queue == [] {
      assert queue + tail == tail;
      CoverAtLeast(tail, synced);
    } else {
      assert (queue + tail)[1..] == queue[1..] + tail;
      CoverGrows(queue[1..], tail, if queue[0].Write? && queue[0].sync then Max(synced, queue[0].upto) else synced);
    }
  }

  /** A writer call only adds requests at the end of the queue. */
  ghost predicate OnlyQueues(s: Store, t: Store) {
    s.wal.queue <= t.wal.queue && t.wal.synced == s.wal.synced && t.wal.written == s.wal.written
  }

  lemma {:induction false} AppendAllOnlyQueues(s: Store, entries: seq<Entry>)
    ensures OnlyQueues(s, AppendAll(s, entries).0)
    decreases |entries|
  {
    if entries != [] {
      var (t, r) := AppendAndApply(s, Act(Append(entries[0].id, entries[0].payload)));
      AppendAllOnlyQueues(t, entries[1..]);
    }
  }

  lemma CallOnlyQueues(s: Store, step: Step)
    ensures OnlyQueues(s, Call(s, step).0)
  {
    if step.DoAppend? {
      AppendAllOnlyQueues(s, step.entries);
    }
  }

  lemma CrashSyncs(y: System, cfg: Config, cut: nat, reuse: bool)
    requires Inv(y) && y.store.wal.synced <= cut <= |Hist(y)|
    ensures y.store.wal.synced <= Reopened(y, cfg, cut, reuse).store.wal.synced
  {
    OpenKeeps(y, cfg, cut, reuse);
    if Survivors(y, cut) == [] {
      if Base(y.store.wal) > 0 {
        BaseIsSynced(y);
      }
      SurvivorsHold(y, cut);
    }
  }

  lemma WorkerSyncs(s: Store)
    ensures s.wal.synced <= WorkerStep(s).wal.synced
    ensures Cover(s.wal.queue, s.wal.synced) <= Cover(WorkerStep(s).wal.queue, WorkerStep(s).wal.synced)
  {
    var w := s.wal;
    if w.queue != [] && w.queue[0].RemoveChunks? && w.queue[0].ids != [] {
      assert WorkerStep(s).wal.queue[1..] == w.queue[1..];
    }
  }

  lemma QueueingSyncs(s: Store, t: Store)
    requires OnlyQueues(s, t)
    ensures s.wal.synced <= t.wal.synced && Cover(s.wal.queue, s.wal.synced) <= Cover(t.wal.queue, t.wal.synced)
  {
    var tail := t.wal.queue[|s.wal.queue|..];
    assert t.wal.queue == s.wal.queue + tail;
    CoverGrows(s.wal.queue, tail, s.wal.synced);
  }

  /** No step takes back a sync; and short of a crash, none takes back a promised one. */
  lemma StepSyncs(y: System, step: Step)
    requires Inv(y) && Enabled(y, step)
    ensures var w, v := y.store.wal, Take(y, step).store.wal;
            && w.synced <= v.synced
            && (!step.DoCrash? ==> Cover(w.queue, w.synced) <= Cover(v.queue, v.synced))
  {
    match step
    case DoCrash(cfg, cut, reuse) => CrashSyncs(y, cfg, cut, reuse);
    case DoWorker => WorkerSyncs(y.store);
    case DoBoundary(_) =>
    case DoDrain =>
    case _ =>
      CallOnlyQueues(y.store, step);
      QueueingSyncs(y.store, Call(y.store, step).0);
  }

  /** `g` still starts with the first `n` records of `h`. */
  ghost predicate SamePrefix(h: History, g: History, n: nat) {
    n <= |h| && n <= |g| && g[..n] == h[..n]
  }

  lemma SamePrefixTrans(f: History, g: History, h: History, n: nat, m: nat)
    requires n <= m && SamePrefix(f, g, n) && SamePrefix(g, h, m)
    ensures SamePrefix(f, h, n)
  {
    assert h[..n] == h[..m][..n] && g[..n] == g[..m][..n];
  }

  lemma GrownPrefix(h: History, g: History, n: nat)
    requires Grows(h, g) && n <= |h|
    ensures SamePrefix(h, g, n)
  {
    assert g[..n] == g[..|h|][..n];
  }

  lemma CutPrefix(h: History, g: History, cut: nat, n: nat)
    requires CutBack(h, g, cut) && n <= cut
    ensures SamePrefix(h, g, n)
  {
    assert g[..cut] == h[..cut];
    assert g[..n] == g[..cut][..n] && h[..n] == h[..cut][..n];
  }

  lemma StepKeepsSynced(y: System, step: Step)
    requires Inv(y) && Enabled(y, step)
    ensures SamePrefix(Hist(y), Hist(Take(y, step)), y.store.wal.synced)
  {
    StepKeeps(y, step);
    if step.DoCrash? {
      CutPrefix(Hist(y), Hist(Take(y, step)), step.cut, y.store.wal.synced);
    } else {
      GrownPrefix(Hist(y), Hist(Take(y, step)), y.store.wal.synced);
    }
  }

  /** Whatever is synced stays: no step, and no crash, changes or drops a synced record. */
  lemma {:induction false} SyncedStays(y: System, steps: seq<Step>)
    requires Inv(y) && Legal(y, steps)
    ensures y.store.wal.synced <= After(y, steps).store.wal.synced
    ensures SamePrefix(Hist(y), Hist(After(y, steps)), y.store.wal.synced)
    decreases |steps|
  {
    if steps == [] {
      assert RemovalSafe(Hist(y), y.store);
    } else {
      var z := Take(y, steps[0]);
      StepKeeps(y, steps[0]);
      StepSyncs(y, steps[0]);
      StepKeepsSynced(y, steps[0]);
      SyncedStays(z, steps[1..]);
      SamePrefixTrans(Hist(y), Hist(z), Hist(After(z, steps[1..])), y.store.wal.synced, z.store.wal.synced);
    }
  }

  ghost predicate CrashFree(steps: seq<Step>) {
    forall k :: 0 <= k < |steps| ==> !steps[k].DoCrash?
  }

  lemma {:induction false} CoverStays(y: System, steps: seq<Step>)
    requires Inv(y) && Legal(y, steps) && CrashFree(steps)
    ensures var w, v := y.store.wal, After(y, steps).store.wal;
            Cover(w.queue, w.synced) <= Cover(v.queue, v.synced)
    ensures Grows(Hist(y), Hist(After(y, steps)))
    decreases |steps|
  {
    if steps != [] {
      StepSyncs(y, steps[0]);
      StepKeeps(y, steps[0]);
      CoverStays(Take(y, steps[0]), steps[1..]);
      GrowsTrans(Hist(y), Hist(Take(y, steps[0])), Hist(After(y, steps)));
    }
  }

  /** Once the worker has emptied its queue after a sync flush, everything accepted before
      the flush is synced, whatever the writer did meanwhile. */
  lemma FlushedIsSynced(y: System, steps: seq<Step>)
    requires Reachable(y) && Legal(y, [DoFlush(true)] + steps) && CrashFree(steps)
    requires After(y, [DoFlush(true)] + steps).store.wal.queue == []
    ensures var z := After(y, [DoFlush(true)] + steps);
            |Hist(y)| <= z.store.wal.synced && Grows(Hist(y), Hist(z))
  {
    ReachableInv(y);
    assert ([DoFlush(true)] + steps)[1..] == steps;
    var z := Take(y, DoFlush(true));
    StepKeeps(y, DoFlush(true));
    CoverStays(z, steps);
    GrowsTrans(Hist(y), Hist(z), Hist(After(z, steps)));
    AtEnd(y);
    var w, v := y.store.wal, z.store.wal;
    assert v.queue == w.queue + [Write(|Hist(y)|, true)] + v.queue[|w.queue| + 1..];
    CoverOfWrite(w.queue, w.synced, |Hist(y)|);
    CoverGrows(w.queue + [Write(|Hist(y)|, true)], v.queue[|w.queue| + 1..], w.synced);
  }

  lemma {:induction false} CoverOfWrite(queue: seq<Request>, synced: nat, upto: nat)
    ensures upto <= Cover(queue + [Write(upto, true)], synced)
    decreases |queue|
  {
    var more := queue + [Write(upto, true)];
    if queue == [] {
      assert more[1..] == [];
    } else {
      assert more[1..] == queue[1..] + [Write(upto, true)];
      CoverOfWrite(queue[1..], if queue[0].Write? && queue[0].sync then Max(synced, queue[0].upto) else synced, upto);
    }
  }

  // ---- removal ----

  /** No live entry points into a chunk that is unlinked, queued for removal, or waiting for it. */
  lemma RemovalIsSafe(y: System, i: nat)
    requires Reachable(y) && i in y.store.sm.log
    ensures var chunk := y.store.sm.log[i].chunk;
            && (forall f <- y.gone :: f.id < chunk)
            && (forall id <- QueuedIds(y.store.wal.queue) :: id < chunk)
            && (forall id <- y.store.removed :: id < chunk)
  {
    ReachableInv(y);
    var h, w := Hist(y), y.store.wal;
    forall f <- y.gone ensures f.id < y.store.sm.log[i].chunk {
      var k :| 0 <= k < |y.gone| && y.gone[k] == f;
      DiskHolds(y);
      FilesBefore(y.gone, 0, k);
      assert f.id < Base(w);
      DeadForever(h, w.synced, Base(w) - 1);
    }
    forall id <- QueuedIds(w.queue) ensures id < y.store.sm.log[i].chunk {
      QueuedDead(h, w.queue, w.synced, id);
    }
  }

  lemma {:induction false} QueuedDead(h: History, queue: seq<Request>, synced: nat, id: nat)
    requires Legit(h) && QueueSafe(h, queue, synced) && id in QueuedIds(queue)
    ensures Dead(h, id)
    decreases |queue|
  {
    match queue[0]
    case Write(upto, sync) => QueuedDead(h, queue[1..], if sync then Max(synced, upto) else synced, id);
    case RemoveChunks(ids) =>
      if id in ids {
        DeadForever(h, synced, id);
      } else {
        QueuedDead(h, queue[1..], synced, id);
      }
  }

  lemma {:induction false} QueuedBehindSync(h: History, queue: seq<Request>, synced: nat, q: nat, id: nat, cut: nat)
    requires Legit(h) && QueueSafe(h, queue, synced)
    requires q < |queue| && queue[q].RemoveChunks? && id in queue[q].ids
    requires Cover(queue[..q], synced) <= cut <= |h|
    ensures Dead(h[..cut], id)
    decreases |queue|
  {
    if q == 0 {
      LegitPrefix(h, cut);
      assert h[..cut][..synced] == h[..synced];
      DeadForever(h[..cut], synced, id);
    } else {
      assert queue[..q][1..] == queue[1..][..q - 1];
      var next := if queue[0].Write? && queue[0].sync then Max(synced, queue[0].upto) else synced;
      QueuedBehindSync(h, queue[1..], next, q - 1, id, cut);
    }
  }

  /** By the time the worker reaches a removal, what it has synced is enough: in the synced
      stream, and in every longer one that a crash may leave, the chunks it unlinks hold
      nothing live. */
  lemma RemovalBehindSync(y: System, q: nat, id: nat, cut: nat)
    requires Reachable(y)
    requires q < |y.store.wal.queue| && y.store.wal.queue[q].RemoveChunks? && id in y.store.wal.queue[q].ids
    requires Cover(y.store.wal.queue[..q], y.store.wal.synced) <= cut <= |Hist(y)|
    ensures Dead(Hist(y)[..cut], id)
  {
    ReachableInv(y);
    QueuedBehindSync(Hist(y), y.store.wal.queue, y.store.wal.synced, q, id, cut);
  }

  /** Unlinked, queued, buffered, closed and open chunks are one gap-free sequence in this
      order; the files on disk are a suffix of it; and each removal waits behind its sync. */
  lemma ChunksAreContiguous(y: System)
    requires Reachable(y)
    ensures Contiguous(y) && QueueSafe(Hist(y), y.store.wal.queue, y.store.wal.synced)
    ensures forall k :: 0 <= k < |AllFiles(y)| - 1 ==>
              AllFiles(y)[k + 1].id == AllFiles(y)[k].id + |AllFiles(y)[k].recs|
  {
    ReachableInv(y);
    forall k | 0 <= k < |AllFiles(y)| - 1 ensures AllFiles(y)[k + 1].id == AllFiles(y)[k].id + |AllFiles(y)[k].recs| {
      NextStart(AllFiles(y), 0, k);
    }
  }

  // ---- the cache ----

  /** On a rising stream an entry that is not cached lies in a closed chunk that is written to
      the end, and synced to the end if the entry was appended since the store was last
      opened. So data that is not synced stays in memory. */
  lemma UncachedIsPersisted(y: System, i: nat)
    requires Reachable(y) && Rising(Hist(y))
    requires i in y.store.sm.log && Lookup(y.store.sm.cache.items, y.store.sm.log[i].id) == None
    ensures var d, h, w := y.store.sm.log[i], Hist(y), y.store.wal;
            && d.chunk < w.open.id
            && i in EntriesOf(h)
            && Load(OnFile(w), d.chunk, d.segment) == Some(Act(Append(d.id, EntriesOf(h)[i].payload)))
            && exists e :: d.chunk < e <= w.written && e < |h| && h[e].chunk == e
                           && (y.openedAt <= d.segment ==> e <= w.synced)
  {
    ReachableInv(y);
    var h, w, d := Hist(y), y.store.wal, y.store.sm.log[i];
    LookupFinds(y.store.sm.cache.items, d.id);
    assert d.segment < y.reported;
    EntriesSourced(h);
    assert Sourced(h, d);
    ChunkOrder(h, d.segment, d.segment);
    AtEnd(y);
    ChunkOrder(h, |h| - 1, |h| - 1);
    LocationHolds(y, i);
  }

  /** Every entry that has not been written is cached, and protected from eviction. */
  ghost predicate Protected(s: Store) {
    Served(s.sm.cache, s.sm.log, s.wal.written)
  }

  /** An accepted append leaves every unwritten entry protected exactly when its id is above
      the eviction boundary. */
  lemma AppendProtects(y: System, id: LogId, payload: Bytes)
    requires Inv(y) && Protected(y.store) && Accepts(y.store.sm.state, Act(Append(id, payload)))
    ensures Protected(AppendAndApply(y.store, Act(Append(id, payload))).0) <==>
              !Evictable(y.store.sm.cache.lastEvictable, id)
  {
    var s, rec := y.store, Act(Append(id, payload));
    var t := Push(s, rec).0;
    AtEnd(y);
    MemoryMachine(y);
    InsertMembers(s.sm.cache, id, payload);
    assert t.sm.log[id.index] == LogData(id, s.wal.open.id, |Hist(y)|);
    assert t.sm.cache.lastEvictable == s.sm.cache.lastEvictable;
    if !Evictable(s.sm.cache.lastEvictable, id) {
      ServedStep(s.sm.cache, MachineIn(s), rec, s.wal.open.id, |Hist(y)|, s.wal.written);
    }
    var u := AppendAndApply(s, rec).0;
    assert u.sm == t.sm && u.wal.written == s.wal.written;
  }

  /** No cached key is above `last`; a live key has the payload of its record, any other key
      lies below the whole log; and the size account is exact. As long as `purged` stays above
      what leaves the log at its lower end, such other keys are at or below it. */
  lemma CacheIsCoherent(y: System)
    requires Reachable(y)
    ensures Coherent(y.store.sm.cache, y.store.sm.state.last, EntriesOf(Hist(y)))
    ensures PurgedCovers(Hist(y)) ==> StaleBelow(y.store.sm.cache, y.store.sm.state.purged, EntriesOf(Hist(y)))
  {
    ReachableInv(y);
  }

  lemma StartsAlike(f: History, g: History, h: History, n: nat)
    requires Grows(f, g) && SamePrefix(g, h, n) && |f| <= n
    ensures Grows(f, h)
  {
    assert h[..|f|] == h[..n][..|f|] && g[..|f|] == g[..n][..|f|];
  }

  /** Nothing accepted before a sync flush is lost once the worker is idle again: whatever
      was called meanwhile, and wherever a crash then cuts, the stream still starts with it. */
  lemma FlushSurvivesCrash(y: System, steps: seq<Step>, cfg: Config, cut: nat, reuse: bool)
    requires Reachable(y) && Legal(y, [DoFlush(true)] + steps) && CrashFree(steps)
    requires var z := After(y, [DoFlush(true)] + steps);
             z.store.wal.queue == [] && Enabled(z, DoCrash(cfg, cut, reuse))
    ensures Grows(Hist(y), Hist(Take(After(y, [DoFlush(true)] + steps), DoCrash(cfg, cut, reuse))))
  {
    var z := After(y, [DoFlush(true)] + steps);
    FlushedIsSynced(y, steps);
    ReachableInv(y);
    RunKeeps(y, [DoFlush(true)] + steps);
    StepKeepsSynced(z, DoCrash(cfg, cut, reuse));
    StartsAlike(Hist(y), Hist(z), Hist(Take(z, DoCrash(cfg, cut, reuse))), z.store.wal.synced);
  }
}
