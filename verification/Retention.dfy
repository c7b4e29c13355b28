/** How long the cache holds what the files do not have yet: exactly when an appended entry
    can be read until the worker has written it. */
module Retention {
  import opened RaftTypes
  import opened LogState
  import opened PayloadCaches
  import opened StateMachines
  import opened Histories
  import opened CacheHistories
  import opened Stores
  import opened Invariants
  import opened Runs
  import opened Guarantees
  import opened Workers

  predicate Holds(log: LogMap, d: LogData) {
    d.id.index in log && log[d.id.index] == d
  }

  /** The entry has left the log, or a read can deliver it. */
  predicate Delivers(s: Store, d: LogData) {
    Holds(s.sm.log, d) ==> InReach(s, d)
  }

  /** The `last` of every chunk end in `(reported, cover]` is below `id`. */
  ghost predicate Clear(h: History, reported: nat, cover: nat, id: LogId) {
    forall e :: reported < e <= cover && e < |h| && h[e].chunk == e ==> OptLess(StateOf(h[..e]).last, Some(id))
  }

  /** What a caller may check before the append: the id is above the eviction boundary, and
      above the end of every chunk that the worker has yet to report and will have synced once
      the present queue is worked off. */
  ghost predicate Above(y: System, id: LogId) {
    var w := y.store.wal;
    !Evictable(y.store.sm.cache.lastEvictable, id) && Clear(Hist(y), y.reported, Cover(w.queue, w.synced), id)
  }

  // ---- what the worker can sync without writing past an offset ----

  /** The offset synced once every queued write up to `n` is done. */
  function PendingSync(queue: seq<Request>, synced: nat, n: nat): nat
    decreases |queue|
  {
    if queue == [] then synced
    else
      var r := queue[0];
      PendingSync(queue[1..], if r.Write? && r.sync && r.upto <= n then Max(synced, r.upto) else synced, n)
  }

  lemma {:induction false} PendingBound(queue: seq<Request>, synced: nat, n: nat)
    ensures synced <= PendingSync(queue, synced, n) <= Max(synced, n)
    decreases |queue|
  {
    if queue != [] {
      var r := queue[0];
      PendingBound(queue[1..], if r.Write? && r.sync && r.upto <= n then Max(synced, r.upto) else synced, n);
    }
  }

  lemma {:induction false} PendingIsCover(h: History, queue: seq<Request>, synced: nat, n: nat)
    requires QueueSafe(h, queue, synced) && |h| <= n
    ensures PendingSync(queue, synced, n) == Cover(queue, synced)
    decreases |queue|
  {
    if queue != [] {
      var r := queue[0];
      match r
      case Write(upto, sync) => PendingIsCover(h, queue[1..], if sync then Max(synced, upto) else synced, n);
      case RemoveChunks(_) => PendingIsCover(h, queue[1..], synced, n);
    }
  }

  predicate Beyond(queue: seq<Request>, n: nat) {
    forall r <- queue :: r.Write? ==> n < r.upto
  }

  /** Requests that write past `n` sync nothing before they do. */
  lemma {:induction false} PendingIgnores(queue: seq<Request>, tail: seq<Request>, synced: nat, n: nat)
    requires Beyond(tail, n)
    ensures PendingSync(queue + tail, synced, n) == PendingSync(queue, synced, n)
    decreases |queue| + |tail|
  {
    if queue == [] {
      assert queue + tail == tail;
      if tail != [] {
        assert [] + tail[1..] == tail[1..];
        PendingIgnores([], tail[1..], synced, n);
      }
    } else {
      var r := queue[0];
      assert (queue + tail)[1..] == queue[1..] + tail;
      PendingIgnores(queue[1..], tail, if r.Write? && r.sync && r.upto <= n then Max(synced, r.upto) else synced, n);
    }
  }

  // ---- an entry under guard ----

  /** As long as the entry is live and unwritten it is cached, and neither the boundary nor
      any report that can come before its write reaches it. */
  ghost predicate Guarded(s: Store, h: History, reported: nat, d: LogData) {
    s.wal.written <= d.segment && Holds(s.sm.log, d) ==>
      && HasKey(s.sm.cache.items, d.id) && !Evictable(s.sm.cache.lastEvictable, d.id)
      && Clear(h, reported, PendingSync(s.wal.queue, s.wal.synced, d.segment), d.id)
  }

  lemma GuardedDelivers(s: Store, h: History, reported: nat, d: LogData)
    requires Guarded(s, h, reported, d)
    ensures Delivers(s, d)
  {
    LookupFinds(s.sm.cache.items, d.id);
  }

  lemma ClearGrows(h: History, g: History, reported: nat, cover: nat, id: LogId)
    requires Grows(h, g) && cover < |h| && Clear(h, reported, cover, id)
    ensures Clear(g, reported, cover, id)
  {
    forall e | reported < e <= cover && e < |g| && g[e].chunk == e ensures OptLess(StateOf(g[..e]).last, Some(id)) {
      assert g[..e] == h[..e] && g[e] == h[e];
    }
  }

  /** What a step may do to the files and the queue without touching the guard. */
  ghost predicate QueuesBeyond(s: Store, t: Store, n: nat) {
    && t.wal.synced == s.wal.synced && t.wal.written == s.wal.written
    && s.wal.queue <= t.wal.queue && Beyond(t.wal.queue[|s.wal.queue|..], n)
  }

  lemma GuardMoves(s: Store, h: History, t: Store, g: History, reported: nat, d: LogData)
    requires Guarded(s, h, reported, d) && Grows(h, g) && d.segment < |h| && s.wal.synced <= s.wal.written
    requires QueuesBeyond(s, t, d.segment)
    requires Holds(t.sm.log, d) ==> Holds(s.sm.log, d)
    requires Holds(t.sm.log, d) && HasKey(s.sm.cache.items, d.id) && !Evictable(s.sm.cache.lastEvictable, d.id) ==>
               HasKey(t.sm.cache.items, d.id) && !Evictable(t.sm.cache.lastEvictable, d.id)
    ensures Guarded(t, g, reported, d)
  {
    var w := s.wal;
    if w.written <= d.segment && Holds(t.sm.log, d) {
      var tail := t.wal.queue[|w.queue|..];
      assert t.wal.queue == w.queue + tail;
      PendingIgnores(w.queue, tail, w.synced, d.segment);
      PendingBound(w.queue, w.synced, d.segment);
      ClearGrows(h, g, reported, PendingSync(w.queue, w.synced, d.segment), d.id);
    }
  }

  lemma RecordQueues(s: Store, rec: Record, n: nat)
    requires n < EndOffset(s.wal)
    ensures QueuesBeyond(s, AppendAndApply(s, rec).0, n)
  {
    if Accepts(s.sm.state, rec) {
      var t := Push(s, rec).0;
      assert t.wal.queue[|s.wal.queue|..] == [];
      var r := Rotate(t.wal, t.sm.state);
      assert r.queue[|s.wal.queue|..] == [Write(EndOffset(t.wal), true)];
    }
  }

  lemma RecordMemory(s: Store, rec: Record)
    requires Accepts(s.sm.state, rec)
    ensures var t := AppendAndApply(s, rec).0;
            && t.sm.log == LogStep(s.sm.log, rec, s.wal.open.id, EndOffset(s.wal))
            && t.sm.cache == CacheStep(s.sm.cache, rec)
  {
  }

  lemma RecordGuards(s: Store, h: History, rec: Record, g: History, reported: nat, d: LogData)
    requires Guarded(s, h, reported, d) && Grows(h, g) && d.segment < |h| && s.wal.synced <= s.wal.written
    requires EndOffset(s.wal) == |h| && Window(MachineIn(s)) && Sorted(s.sm.cache.items)
    requires Accepts(s.sm.state, rec) ==> Admissible(MachineIn(s), rec)
    ensures Guarded(AppendAndApply(s, rec).0, g, reported, d)
  {
    var t := AppendAndApply(s, rec).0;
    RecordQueues(s, rec, d.segment);
    if Accepts(s.sm.state, rec) {
      var c, m := s.sm.cache, MachineIn(s);
      RecordMemory(s, rec);
      RecordsChangeItems(c, rec);
      if Holds(t.sm.log, d) && HasKey(c.items, d.id) && !Evictable(c.lastEvictable, d.id) {
        KeptStep(c, m, rec, s.wal.open.id, |h|, d.id.index);
      }
    }
    GuardMoves(s, h, t, g, reported, d);
  }

  // ---- every step keeps the guard ----

  ghost predicate GuardedIn(y: System, d: LogData) {
    d.segment < |Hist(y)| && Guarded(y.store, Hist(y), y.reported, d)
  }

  lemma SystemFacts(y: System)
    requires Inv(y)
    ensures EndOffset(y.store.wal) == |Hist(y)| && y.store.wal.synced <= y.store.wal.written <= |Hist(y)|
    ensures MachineIn(y.store) == MachineOf(Hist(y)) && Window(MachineIn(y.store)) && Sorted(y.store.sm.cache.items)
    ensures QueueSafe(Hist(y), y.store.wal.queue, y.store.wal.synced)
  {
    AtEnd(y);
    MemoryMachine(y);
  }

  lemma RecordKeepsGuard(y: System, rec: Record, d: LogData)
    requires Inv(y) && GuardedIn(y, d)
    requires Accepts(y.store.sm.state, rec) ==> Admissible(MachineOf(Hist(y)), rec)
    ensures var z := y.(store := AppendAndApply(y.store, rec).0); Inv(z) && GuardedIn(z, d)
  {
    SystemFacts(y);
    RecordKeeps(y, rec);
    RecordGuards(y.store, Hist(y), rec, Hist(y.(store := AppendAndApply(y.store, rec).0)), y.reported, d);
  }

  lemma {:induction false} AppendKeepsGuard(y: System, entries: seq<Entry>, d: LogData)
    requires Inv(y) && GuardedIn(y, d)
    ensures GuardedIn(y.(store := AppendAll(y.store, entries).0), d)
    decreases |entries|
  {
    if entries != [] {
      var rec := Act(Append(entries[0].id, entries[0].payload));
      RecordKeepsGuard(y, rec, d);
      AppendKeepsGuard(y.(store := AppendAndApply(y.store, rec).0), entries[1..], d);
    }
  }

  lemma TruncateKeepsGuard(y: System, index: U64, d: LogData)
    requires Inv(y) && GuardedIn(y, d)
    ensures GuardedIn(y.(store := Truncate(y.store, index).0), d)
  {
    MemoryMachine(y);
    var kept := KeptBy(y.store, index);
    if kept.Ok? {
      RecordKeepsGuard(y, Act(TruncateAfter(kept.value)), d);
    }
  }

  lemma BufferKeepsGuard(y: System, d: LogData)
    requires Inv(y) && GuardedIn(y, d)
    ensures GuardedIn(y.(store := Buffer(y.store)), d)
  {
    BufferKeeps(y);
  }

  lemma PurgeKeepsGuard(y: System, upto: LogId, d: LogData)
    requires Inv(y) && GuardedIn(y, d) && Enabled(y, DoPurge(upto))
    ensures GuardedIn(y.(store := Purge(y.store, upto).0), d)
  {
    MemoryMachine(y);
    if NextIndex(y.store.sm.state.purged) <= upto.index {
      RecordKeepsGuard(y, Act(PurgeUpto(upto)), d);
      BufferKeepsGuard(y.(store := AppendAndApply(y.store, Act(PurgeUpto(upto))).0), d);
    }
  }

  lemma UpdateKeepsGuard(y: System, state: RaftLogState, d: LogData)
    requires Inv(y) && GuardedIn(y, d) && Enabled(y, DoUpdateState(state))
    ensures GuardedIn(y.(store := UpdateState(y.store, state).0), d)
  {
    MemoryMachine(y);
    CheckpointCheckFits(MachineIn(y.store), state);
    if CheckpointCheck(y.store.sm.log, state).Ok? {
      RecordKeepsGuard(y, Checkpoint(state), d);
    }
  }

  lemma FlushGuards(s: Store, sync: bool, h: History, reported: nat, d: LogData)
    requires Guarded(s, h, reported, d) && d.segment < |h| && EndOffset(s.wal) == |h| && s.wal.synced <= s.wal.written
    ensures Guarded(Flush(s, sync), h, reported, d)
  {
    var t := Flush(s, sync);
    assert t.wal.queue[|s.wal.queue|..] ==
           if sync && s.removed != [] then [Write(|h|, sync), RemoveChunks(s.removed)] else [Write(|h|, sync)];
    GuardMoves(s, h, t, h, reported, d);
  }

  lemma FlushKeepsGuard(y: System, sync: bool, d: LogData)
    requires Inv(y) && GuardedIn(y, d)
    ensures GuardedIn(y.(store := Flush(y.store, sync)), d)
  {
    SystemFacts(y);
    FlushKeeps(y, sync);
    FlushGuards(y.store, sync, Hist(y), y.reported, d);
  }

  lemma CallKeepsGuard(y: System, step: Step, d: LogData)
    requires Inv(y) && GuardedIn(y, d) && Enabled(y, step)
    requires !step.DoWorker? && !step.DoBoundary? && !step.DoDrain? && !step.DoCrash?
    ensures GuardedIn(Take(y, step), d)
  {
    match step
    case DoSaveUserData(data) =>
      MemoryMachine(y);
      RecordKeepsGuard(y, Checkpoint(y.store.sm.state.(userData := data)), d);
    case DoSaveVote(vote) => RecordKeepsGuard(y, Act(SaveVote(vote)), d);
    case DoAppend(entries) => AppendKeepsGuard(y, entries, d);
    case DoTruncate(index) => TruncateKeepsGuard(y, index, d);
    case DoPurge(upto) => PurgeKeepsGuard(y, upto, d);
    case DoCommit(id) => RecordKeepsGuard(y, Act(Commit(id)), d);
    case DoUpdateState(state) => UpdateKeepsGuard(y, state, d);
    case DoFlush(sync) => FlushKeepsGuard(y, sync, d);
  }

  lemma WorkerGuards(s: Store, h: History, reported: nat, d: LogData)
    requires Guarded(s, h, reported, d)
    ensures Guarded(WorkerStep(s), h, reported, d)
  {
    var w := s.wal;
    if w.queue != [] && w.queue[0].RemoveChunks? && w.queue[0].ids != [] {
      assert WorkerStep(s).wal.queue[1..] == w.queue[1..];
    }
  }

  lemma BoundaryGuards(y: System, e: nat, d: LogData)
    requires Inv(y) && GuardedIn(y, d) && Enabled(y, DoBoundary(e))
    ensures Guarded(MoveBoundary(y, e).store, Hist(y), MoveBoundary(y, e).reported, d)
  {
    var w := y.store.wal;
    SystemFacts(y);
    PendingBound(w.queue, w.synced, d.segment);
  }

  lemma DrainGuards(s: Store, h: History, reported: nat, d: LogData)
    requires Guarded(s, h, reported, d) && Sorted(s.sm.cache.items)
    ensures Guarded(DrainCache(s), h, reported, d)
  {
    var c := s.sm.cache;
    DrainedSpec(c);
    if HasKey(c.items, d.id) && !Evictable(c.lastEvictable, d.id) {
      var e: Item :| e in c.items && e.key == d.id;
      assert e in Drained(c).items;
    }
  }

  lemma StepKeepsGuard(y: System, step: Step, d: LogData)
    requires Inv(y) && GuardedIn(y, d) && Enabled(y, step) && !step.DoCrash?
    ensures GuardedIn(Take(y, step), d)
  {
    if IsBackground(step) {
      BackgroundKeeps(y, step);
      SystemFacts(y);
      match step
      case DoWorker => WorkerGuards(y.store, Hist(y), y.reported, d);
      case DoBoundary(e) => BoundaryGuards(y, e, d);
      case DoDrain => DrainGuards(y.store, Hist(y), y.reported, d);
    } else {
      CallKeepsGuard(y, step, d);
    }
  }

  lemma {:induction false} RunKeepsGuard(y: System, steps: seq<Step>, d: LogData)
    requires Inv(y) && GuardedIn(y, d) && Legal(y, steps) && CrashFree(steps)
    ensures GuardedIn(After(y, steps), d)
    decreases |steps|
  {
    if steps != [] {
      StepKeepsGuard(y, steps[0], d);
      StepKeeps(y, steps[0]);
      RunKeepsGuard(Take(y, steps[0]), steps[1..], d);
    }
  }

  // ---- the append itself ----

  function Appending(e: Entry): Record {
    Act(Append(e.id, e.payload))
  }

  /** Where the entry goes. */
  function Location(y: System, e: Entry): LogData {
    LogData(e.id, y.store.wal.open.id, |Hist(y)|)
  }

  function Stored(y: System, e: Entry): System {
    y.(store := AppendAndApply(y.store, Appending(e)).0)
  }

  lemma NewRequests(s: Store, rec: Record)
    requires Accepts(s.sm.state, rec)
    ensures QueuesBeyond(s, AppendAndApply(s, rec).0, EndOffset(s.wal))
  {
    var t := Push(s, rec).0;
    assert t.wal.queue[|s.wal.queue|..] == [];
    var r := Rotate(t.wal, t.sm.state);
    assert r.queue[|s.wal.queue|..] == [Write(EndOffset(t.wal), true)];
  }

  /** The appended record opens no chunk. */
  lemma ClearStays(h: History, g: History, reported: nat, cover: nat, id: LogId)
    requires Grows(h, g) && cover <= |h| < |g| && g[|h|].chunk < |h|
    requires Clear(h, reported, cover, id)
    ensures Clear(g, reported, cover, id)
  {
    forall e | reported < e <= cover && e < |g| && g[e].chunk == e ensures OptLess(StateOf(g[..e]).last, Some(id)) {
      assert g[..e] == h[..e] && g[e] == h[e];
    }
  }

  lemma NewIsCached(s: Store, e: Entry)
    requires Accepts(s.sm.state, Appending(e)) && Sorted(s.sm.cache.items)
    requires !Evictable(s.sm.cache.lastEvictable, e.id)
    ensures var c := AppendAndApply(s, Appending(e)).0.sm.cache;
            HasKey(c.items, e.id) && c.lastEvictable == s.sm.cache.lastEvictable
  {
    RecordMemory(s, Appending(e));
    InsertMembers(s.sm.cache, e.id, e.payload);
    assert Item(e.id, e.payload) in CacheStep(s.sm.cache, Appending(e)).items;
  }

  lemma NewIsGuarded(s: Store, h: History, g: History, reported: nat, e: Entry)
    requires Accepts(s.sm.state, Appending(e)) && Sorted(s.sm.cache.items)
    requires !Evictable(s.sm.cache.lastEvictable, e.id)
    requires QueueSafe(h, s.wal.queue, s.wal.synced) && EndOffset(s.wal) == |h|
    requires Clear(h, reported, Cover(s.wal.queue, s.wal.synced), e.id)
    requires Grows(h, g) && |h| < |g| && g[|h|].chunk < |h|
    ensures Guarded(AppendAndApply(s, Appending(e)).0, g, reported, LogData(e.id, s.wal.open.id, |h|))
  {
    var w, t := s.wal, AppendAndApply(s, Appending(e)).0;
    NewIsCached(s, e);
    NewRequests(s, Appending(e));
    var tail := t.wal.queue[|w.queue|..];
    assert t.wal.queue == w.queue + tail;
    PendingIgnores(w.queue, tail, w.synced, |h|);
    PendingIsCover(h, w.queue, w.synced, |h|);
    PendingBound(w.queue, w.synced, |h|);
    ClearStays(h, g, reported, Cover(w.queue, w.synced), e.id);
  }

  /** The stream after the append, and where it has the new record. */
  lemma StoredFacts(y: System, e: Entry)
    requires Inv(y) && Accepts(y.store.sm.state, Appending(e))
    ensures var z, h := Stored(y, e), Hist(y);
            && Inv(z) && Grows(h, Hist(z)) && |h| < |Hist(z)| && Hist(z)[|h|].chunk < |h|
            && z.reported == y.reported
  {
    var h := Hist(y);
    MemoryMachine(y);
    AtEnd(y);
    AppendAndApplyKeeps(y, Appending(e));
    AppendedGrows(h, Hist(Stored(y, e)), Appending(e));
    ChunkOrder(h, |h| - 1, |h| - 1);
  }

  lemma AppendedIsGuarded(y: System, e: Entry)
    requires Inv(y) && Accepts(y.store.sm.state, Appending(e)) && Above(y, e.id)
    ensures Inv(Stored(y, e)) && GuardedIn(Stored(y, e), Location(y, e))
  {
    SystemFacts(y);
    StoredFacts(y, e);
    NewIsGuarded(y.store, Hist(y), Hist(Stored(y, e)), y.reported, e);
  }

  // ---- and what happens without the guard ----

  lemma OutOfReach(y: System, d: LogData)
    requires Inv(y) && y.store.wal.written <= d.segment && Holds(y.store.sm.log, d)
    requires Evictable(y.store.sm.cache.lastEvictable, d.id)
    ensures Legal(y, [DoDrain]) && !Delivers(After(y, [DoDrain]).store, d)
  {
    var c := y.store.sm.cache;
    SystemFacts(y);
    DrainedSpec(c);
    LookupFinds(Drained(c).items, d.id);
    assert [DoDrain] + [] == [DoDrain];
    RunCons(y, DoDrain, []);
  }

  lemma StoredHolds(y: System, e: Entry)
    requires Inv(y) && Accepts(y.store.sm.state, Appending(e))
    ensures var z, d := Stored(y, e), Location(y, e);
            && z.store.wal.written <= d.segment && Holds(z.store.sm.log, d)
            && y.store.wal.queue <= z.store.wal.queue && z.store.wal.synced == y.store.wal.synced
            && z.store.wal.written == y.store.wal.written
            && z.store.sm.cache.lastEvictable == y.store.sm.cache.lastEvictable
  {
    SystemFacts(y);
    RecordMemory(y.store, Appending(e));
    RecordsChangeItems(y.store.sm.cache, Appending(e));
    NewRequests(y.store, Appending(e));
  }

  lemma ReportLoses(z: System, e: nat, d: LogData)
    requires Inv(z) && z.store.wal.written <= d.segment && Holds(z.store.sm.log, d)
    requires z.reported < e < |Hist(z)| && Hist(z)[e].chunk == e && e <= z.store.wal.synced
    requires OptLeq(Some(d.id), StateOf(Hist(z)[..e]).last)
    ensures Legal(z, [DoBoundary(e)] + [DoDrain]) && !Delivers(After(z, [DoBoundary(e)] + [DoDrain]).store, d)
  {
    RunCons(z, DoBoundary(e), [DoDrain]);
    BoundaryKeeps(z, e);
    OutOfReach(MoveBoundary(z, e), d);
  }

  /** The worker goes through the queue as it was at the append, reports a chunk end at or
      above the new id, and the cache is drained. */
  ghost function LosingRun(y: System, e: nat): seq<Step> {
    Work(Size(y.store.wal.queue)) + ([DoBoundary(e)] + [DoDrain])
  }

  lemma SyncedUpTo(y: System, entry: Entry)
    requires Inv(y) && Accepts(y.store.sm.state, Appending(entry))
    ensures var z, work, d := Stored(y, entry), Work(Size(y.store.wal.queue)), Location(y, entry);
            && Legal(z, work)
            && var u := After(z, work);
               && Inv(u) && Hist(u) == Hist(z) && u.reported == y.reported
               && u.store.wal.written <= d.segment && Holds(u.store.sm.log, d)
               && u.store.wal.synced == Cover(y.store.wal.queue, y.store.wal.synced)
  {
    var z, queue := Stored(y, entry), y.store.wal.queue;
    SystemFacts(y);
    StoredFacts(y, entry);
    StoredHolds(y, entry);
    QueueUpTo(Hist(y), queue, y.store.wal.synced);
    var tail := z.store.wal.queue[|queue|..];
    assert z.store.wal.queue == queue + tail;
    WorkOff(z.store, queue, tail, |Hist(y)|);
    WorkIsWorker(z, Size(queue));
    WorkKeepsStream(z, Size(queue));
  }

  /** After the worker has gone through the queue of the append, the chunk end may be reported. */
  lemma ReportsNext(y: System, entry: Entry, e: nat)
    requires Inv(y) && Accepts(y.store.sm.state, Appending(entry))
    requires y.reported < e <= Cover(y.store.wal.queue, y.store.wal.synced)
    requires e < |Hist(y)| && Hist(y)[e].chunk == e && OptLeq(Some(entry.id), StateOf(Hist(y)[..e]).last)
    ensures var u, last := After(Stored(y, entry), Work(Size(y.store.wal.queue))), [DoBoundary(e)] + [DoDrain];
            Legal(u, last) && !Delivers(After(u, last).store, Location(y, entry))
  {
    var z, work := Stored(y, entry), Work(Size(y.store.wal.queue));
    SyncedUpTo(y, entry);
    StoredFacts(y, entry);
    assert Hist(z)[..e] == Hist(y)[..e] && Hist(z)[e] == Hist(y)[e];
    ReportLoses(After(z, work), e, Location(y, entry));
  }

  lemma LosingIsCrashFree(y: System, e: nat)
    ensures CrashFree(LosingRun(y, e))
  {
    WorkIsCrashFree(Size(y.store.wal.queue));
  }

  lemma UnclearLoses(y: System, entry: Entry, e: nat)
    requires Inv(y) && Accepts(y.store.sm.state, Appending(entry))
    requires y.reported < e <= Cover(y.store.wal.queue, y.store.wal.synced)
    requires e < |Hist(y)| && Hist(y)[e].chunk == e && OptLeq(Some(entry.id), StateOf(Hist(y)[..e]).last)
    ensures Legal(Stored(y, entry), LosingRun(y, e)) && CrashFree(LosingRun(y, e))
    ensures !Delivers(After(Stored(y, entry), LosingRun(y, e)).store, Location(y, entry))
  {
    SyncedUpTo(y, entry);
    ReportsNext(y, entry, e);
    RunConcat(Stored(y, entry), Work(Size(y.store.wal.queue)), [DoBoundary(e)] + [DoDrain]);
    LosingIsCrashFree(y, e);
  }

  lemma NotAboveLoses(y: System, entry: Entry) returns (steps: seq<Step>)
    requires Inv(y) && Accepts(y.store.sm.state, Appending(entry)) && !Above(y, entry.id)
    ensures Legal(Stored(y, entry), steps) && CrashFree(steps)
    ensures !Delivers(After(Stored(y, entry), steps).store, Location(y, entry))
  {
    if Evictable(y.store.sm.cache.lastEvictable, entry.id) {
      StoredFacts(y, entry);
      StoredHolds(y, entry);
      OutOfReach(Stored(y, entry), Location(y, entry));
      steps := [DoDrain];
    } else {
      var h, w := Hist(y), y.store.wal;
      var e :| y.reported < e <= Cover(w.queue, w.synced) && e < |h| && h[e].chunk == e
               && !OptLess(StateOf(h[..e]).last, Some(entry.id));
      UnclearLoses(y, entry, e);
      steps := LosingRun(y, e);
    }
  }

  /** The entry is appended to `y`, and whatever is called afterwards, and however the worker,
      the boundary and drains of the cache interleave, a read can deliver it for as long as it
      is in the log. */
  ghost predicate StaysReadable(y: System, entry: Entry) {
    forall steps :: Legal(Stored(y, entry), steps) && CrashFree(steps) ==>
      Delivers(After(Stored(y, entry), steps).store, Location(y, entry))
  }

  /** An accepted append stays readable in every run that goes on from it if and only if its
      id is above the eviction boundary and above the end of every chunk that the worker has
      yet to report and will have synced before it writes the entry. Otherwise some run evicts
      the entry while no file has it. */
  lemma AppendStaysReadable(y: System, entry: Entry)
    requires Reachable(y) && Accepts(y.store.sm.state, Act(Append(entry.id, entry.payload)))
    ensures StaysReadable(y, entry) <==> Above(y, entry.id)
  {
    var z, d := Stored(y, entry), Location(y, entry);
    ReachableInv(y);
    if Above(y, entry.id) {
      AppendedIsGuarded(y, entry);
      forall steps | Legal(z, steps) && CrashFree(steps) ensures Delivers(After(z, steps).store, d) {
        RunKeepsGuard(z, steps, d);
        var u := After(z, steps);
        GuardedDelivers(u.store, Hist(u), u.reported, d);
      }
    } else {
      var steps := NotAboveLoses(y, entry);
      assert !Delivers(After(z, steps).store, d);
    }
  }

  /** A closed chunk that ends at or above the id, synced or soon to be but not yet reported. */
  lemma PendingEndBlocks(y: System, id: LogId)
    requires Reachable(y) && y.store.wal.closed != [] && OptLeq(Some(id), Final(y.store.wal.closed).state.last)
    requires y.reported < y.store.wal.open.id <= Cover(y.store.wal.queue, y.store.wal.synced)
    ensures !Above(y, id)
  {
    ReachableInv(y);
    var w, k := y.store.wal, |y.store.wal.closed| - 1;
    assert ClosedAt(Hist(y), w.closed[k], NextChunk(w.closed, w.open.id, k));
  }
}
