/** What every reachable store satisfies, and that each elementary change keeps it: a record
    pushed, a chunk rotated, chunks buffered for removal, a worker step, a boundary move. */
module Invariants {
  import opened RaftTypes
  import opened LogState
  import opened PayloadCaches
  import opened StateMachines
  import opened Histories
  import opened CacheHistories
  import opened Stores
  import opened ChunkFiles

  /** A store with what only a proof knows: the files already unlinked, the offset of the last
      chunk end that the worker reported as persisted, below which entries may have left the
      cache, and the offset at which the store was last opened. */
  datatype System = System(store: Store, gone: seq<File>, reported: nat, openedAt: nat)

  /** Every file the store ever wrote that leads to its present state, unlinked ones first. */
  function AllFiles(y: System): seq<File> {
    y.gone + Files(y.store.wal)
  }

  function Hist(y: System): History {
    Flatten(AllFiles(y))
  }

  /** The id of the oldest file still on disk. */
  function Base(w: Wal): nat {
    Files(w)[0].id
  }

  function QueuedIds(queue: seq<Request>): seq<nat> {
    if queue == [] then []
    else (if queue[0].RemoveChunks? then queue[0].ids else []) + QueuedIds(queue[1..])
  }

  /** Unlinked, queued, buffered, closed and open chunks make up one ascending sequence
      without a gap, in this order. */
  ghost predicate Contiguous(y: System) {
    Adjacent(AllFiles(y), 0) && InOrder(y.store)
  }

  ghost predicate InOrder(s: Store) {
    FileIds(Files(s.wal)) == QueuedIds(s.wal.queue) + s.removed + ChunkIds(s.wal.closed) + [s.wal.open.id]
  }

  /** Each closed chunk remembers the state at its end, where the next chunk starts. */
  ghost predicate Trailing(h: History, closed: seq<ClosedChunk>, open: nat) {
    forall k :: 0 <= k < |closed| ==> ClosedAt(h, closed[k], NextChunk(closed, open, k))
  }

  function NextChunk(closed: seq<ClosedChunk>, open: nat, k: nat): nat
    requires k < |closed|
  {
    if k + 1 < |closed| then closed[k + 1].id else open
  }

  ghost predicate ClosedAt(h: History, c: ClosedChunk, e: nat) {
    c.id < e < |h| && h[e].chunk == e && c.state == StateOf(h[..e])
  }

  /** Every queued removal sits behind a sync that covers what makes its chunks obsolete. */
  ghost predicate QueueSafe(h: History, queue: seq<Request>, synced: nat)
    decreases |queue|
  {
    && synced <= |h|
    && (queue == []
        || match queue[0]
           case Write(upto, sync) => upto <= |h| && QueueSafe(h, queue[1..], if sync then Max(synced, upto) else synced)
           case RemoveChunks(ids) => (forall id <- ids :: Dead(h[..synced], id)) && QueueSafe(h, queue[1..], synced))
  }

  ghost predicate RemovalSafe(h: History, s: Store) {
    && QueueSafe(h, s.wal.queue, s.wal.synced)
    && (forall id <- s.removed :: Dead(h, id))
    && (Base(s.wal) > 0 ==> Dead(h[..s.wal.synced], Base(s.wal) - 1))
  }

  /** The machine in memory is the replay of the whole stream. */
  ghost predicate InMemory(h: History, sm: SM) {
    sm.log == LogOf(h) && sm.state == StateOf(h)
  }

  /** What the cache holds is right. */
  ghost predicate CacheHonest(h: History, c: Cache) {
    && Coherent(c, StateOf(h).last, EntriesOf(h))
    && (PurgedCovers(h) ==> StaleBelow(c, StateOf(h).purged, EntriesOf(h)))
  }

  /** On a rising stream the cache holds everything from `floor` on. */
  ghost predicate CacheFull(h: History, c: Cache, floor: nat) {
    Rising(h) ==> Served(c, LogOf(h), floor) && BoundaryAt(h, c.lastEvictable, floor)
  }

  ghost predicate CacheKept(h: History, c: Cache, floor: nat) {
    CacheHonest(h, c) && CacheFull(h, c, floor)
  }

  ghost predicate CacheSafe(h: History, y: System) {
    var c, w := y.store.sm.cache, y.store.wal;
    && CacheKept(h, c, y.reported)
    && y.reported <= w.open.id && y.reported <= w.written <= |h| && w.synced <= w.written && Starts(h, y.reported)
    && y.reported <= Max(y.openedAt, w.synced)
  }

  ghost predicate Inv(y: System) {
    var h, w := Hist(y), y.store.wal;
    && Contiguous(y)
    && Legit(h)
    && Trailing(h, w.closed, w.open.id)
    && InMemory(h, y.store.sm)
    && RemovalSafe(h, y.store)
    && CacheSafe(h, y)
  }

  // ---- one more record ----

  lemma FollowsAdmissible(h: History, x: Placed)
    requires Follows(h, x)
    ensures Admissible(MachineOf(h), x.rec)
  {
  }

  lemma LogMirrors(h: History)
    ensures Mirrors(LogOf(h), EntriesOf(h))
  {
    LogResolves(h);
  }

  lemma HonestFollows(h: History, x: Placed, c: Cache)
    requires Legit(h) && Follows(h, x) && CacheHonest(h, c)
    ensures CacheHonest(h + [x], CacheStep(c, x.rec))
  {
    Snoc(h, x);
    WindowHolds(h);
    LogMirrors(h);
    FollowsAdmissible(h, x);
    CoherentStep(c, MachineOf(h), EntriesOf(h), x.rec);
    if PurgedCovers(h + [x]) {
      PurgedCoversSnoc(h, x);
      StaleStep(c, MachineOf(h), EntriesOf(h), x.rec);
    }
  }

  lemma FullFollows(h: History, x: Placed, c: Cache, floor: nat)
    requires Legit(h) && Follows(h, x) && Sorted(c.items) && CacheFull(h, c, floor)
    ensures CacheFull(h + [x], CacheStep(c, x.rec), floor)
  {
    var g := h + [x];
    if Rising(g) {
      Snoc(h, x);
      WindowHolds(h);
      FollowsAdmissible(h, x);
      RisingPrefix(g, |h|);
      assert g[..|h|] == h && g[|h|] == x;
      BoundaryExtends(h, x, c.lastEvictable, floor);
      if x.rec.Act? && x.rec.action.Append? {
        RisingAboveBoundary(g, c.lastEvictable, floor, |h|);
      }
      ServedStep(c, MachineOf(h), x.rec, x.chunk, |h|, floor);
    }
  }

  /** The cache keeps its promises across one record of the stream. */
  lemma CacheFollows(h: History, x: Placed, c: Cache, floor: nat)
    requires Legit(h) && Follows(h, x) && CacheKept(h, c, floor)
    ensures CacheKept(h + [x], CacheStep(c, x.rec), floor)
  {
    HonestFollows(h, x, c);
    FullFollows(h, x, c, floor);
  }

  lemma TrailingExtends(h: History, x: Placed, closed: seq<ClosedChunk>, open: nat)
    requires Trailing(h, closed, open)
    ensures Trailing(h + [x], closed, open)
  {
    forall k | 0 <= k < |closed|
      ensures ClosedAt(h + [x], closed[k], NextChunk(closed, open, k))
    {
      var e := NextChunk(closed, open, k);
      assert ClosedAt(h, closed[k], e);
      assert (h + [x])[..e] == h[..e];
    }
  }

  lemma {:induction false} QueueSafeExtends(h: History, x: Placed, queue: seq<Request>, synced: nat)
    requires QueueSafe(h, queue, synced)
    ensures QueueSafe(h + [x], queue, synced)
    decreases |queue|
  {
    if queue != [] {
      assert (h + [x])[..synced] == h[..synced];
      match queue[0]
      case Write(upto, sync) => QueueSafeExtends(h, x, queue[1..], if sync then Max(synced, upto) else synced);
      case RemoveChunks(_) => QueueSafeExtends(h, x, queue[1..], synced);
    }
  }

  lemma RemovalExtends(h: History, x: Placed, s: Store)
    requires Legit(h + [x]) && RemovalSafe(h, s)
    ensures RemovalSafe(h + [x], s)
  {
    QueueSafeExtends(h, x, s.wal.queue, s.wal.synced);
    assert (h + [x])[..s.wal.synced] == h[..s.wal.synced];
    forall id <- s.removed ensures Dead(h + [x], id) {
      DeadStep(h, x, id);
    }
  }

  /** Memory and cache follow the stream. */
  lemma MemoryFollows(h: History, x: Placed, sm: SM)
    requires InMemory(h, sm) && Follows(h, x)
    ensures var (t, r) := Applied(sm, x.rec, x.chunk, |h|);
            r == Ok(()) && InMemory(h + [x], t) && t.cache == CacheStep(sm.cache, x.rec)
  {
    Snoc(h, x);
    FollowsAdmissible(h, x);
  }

  lemma AtEnd(y: System)
    requires Contiguous(y)
    ensures var w := y.store.wal;
            Hist(y) != [] && EndOffset(w) == |Hist(y)| && Final(Hist(y)).chunk == w.open.id
  {
    var before := y.gone + y.store.wal.older;
    assert AllFiles(y) == before + [y.store.wal.open];
    OpenAtEnd(before, y.store.wal.open, 0);
  }

  lemma PushDisk(y: System, rec: Record)
    requires Contiguous(y)
    ensures var z := y.(store := Push(y.store, rec).0);
            && Contiguous(z)
            && Hist(z) == Hist(y) + [Placed(rec, y.store.wal.open.id)]
            && Base(z.store.wal) == Base(y.store.wal)
  {
    var w := y.store.wal;
    var z := y.(store := Push(y.store, rec).0);
    var before := y.gone + w.older;
    assert AllFiles(y) == before + [w.open];
    assert AllFiles(z) == before + [z.store.wal.open];
    PushFile(before, w.open, rec, 0);
    assert FileIds(Files(z.store.wal)) == FileIds(Files(w));
  }

  /** An admissible record goes through: it is stored, applied without failing, and the
      stream is one record longer. */
  lemma PushKeeps(y: System, rec: Record)
    requires Inv(y) && Admissible(MachineOf(Hist(y)), rec)
    ensures var (t, r) := Push(y.store, rec);
            && r == Ok(())
            && Inv(y.(store := t))
            && Hist(y.(store := t)) == Hist(y) + [Placed(rec, y.store.wal.open.id)]
  {
    var h, w := Hist(y), y.store.wal;
    var x := Placed(rec, w.open.id);
    var t := Push(y.store, rec).0;
    AtEnd(y);
    PushDisk(y, rec);
    Snoc(h, x);
    assert Follows(h, x);
    MemoryFollows(h, x, y.store.sm);
    CacheFollows(h, x, y.store.sm.cache, y.reported);
    TrailingExtends(h, x, w.closed, w.open.id);
    RemovalExtends(h, x, y.store);
    assert RemovalSafe(h + [x], t);
  }

  // ---- rotation and buffering ----

  lemma {:induction false} QueuedConcat(a: seq<Request>, b: seq<Request>)
    ensures QueuedIds(a + b) == QueuedIds(a) + QueuedIds(b)
  {
    if a == [] {
      assert a + b == b;
    } else {
      assert (a + b)[1..] == a[1..] + b;
      QueuedConcat(a[1..], b);
    }
  }

  lemma {:induction false} QueueWrite(h: History, queue: seq<Request>, synced: nat, upto: nat, sync: bool)
    requires QueueSafe(h, queue, synced) && upto <= |h|
    ensures QueueSafe(h, queue + [Write(upto, sync)], synced)
    decreases |queue|
  {
    var r := Write(upto, sync);
    if queue == [] {
      assert [r][1..] == [] && queue + [r] == [r];
    } else {
      assert (queue + [r])[1..] == queue[1..] + [r];
      match queue[0]
      case Write(u, s) => QueueWrite(h, queue[1..], if s then Max(synced, u) else synced, upto, sync);
      case RemoveChunks(_) => QueueWrite(h, queue[1..], synced, upto, sync);
    }
  }

  /** Behind a sync of the whole stream, chunks that hold nothing live may be removed. */
  lemma {:induction false} QueueRemoval(h: History, queue: seq<Request>, synced: nat, ids: seq<nat>)
    requires QueueSafe(h, queue, synced) && forall id <- ids :: Dead(h, id)
    ensures QueueSafe(h, queue + [Write(|h|, true), RemoveChunks(ids)], synced)
    decreases |queue|
  {
    var tail := [Write(|h|, true), RemoveChunks(ids)];
    if queue == [] {
      assert queue + tail == tail && tail[1..] == [RemoveChunks(ids)] && [RemoveChunks(ids)][1..] == [];
      assert h[..|h|] == h;
    } else {
      assert (queue + tail)[1..] == queue[1..] + tail;
      match queue[0]
      case Write(u, s) => QueueRemoval(h, queue[1..], if s then Max(synced, u) else synced, ids);
      case RemoveChunks(_) => QueueRemoval(h, queue[1..], synced, ids);
    }
  }

  lemma RotateDisk(y: System, state: RaftLogState)
    requires Contiguous(y)
    ensures var z := y.(store := y.store.(wal := Rotate(y.store.wal, state)));
            && Contiguous(z)
            && Hist(z) == Hist(y) + [Placed(Checkpoint(state), |Hist(y)|)]
            && Base(z.store.wal) == Base(y.store.wal)
            && z.store.wal.open.id == |Hist(y)|
  {
    var w := y.store.wal;
    var z := y.(store := y.store.(wal := Rotate(w, state)));
    AtEnd(y);
    NewFile(AllFiles(y), Checkpoint(state), 0);
    assert AllFiles(z) == AllFiles(y) + [z.store.wal.open];
    assert FileIds(Files(z.store.wal)) == FileIds(Files(w)) + [z.store.wal.open.id];
    assert ChunkIds(z.store.wal.closed) == ChunkIds(w.closed) + [w.open.id];
    QueuedConcat(w.queue, [Write(EndOffset(w), true)]);
    assert QueuedIds([Write(EndOffset(w), true)]) == [];
  }

  lemma RotateTrailing(h: History, closed: seq<ClosedChunk>, open: nat, x: Placed)
    requires Legit(h) && h != [] && open == Final(h).chunk && x.chunk == |h|
    requires Trailing(h, closed, open)
    ensures Trailing(h + [x], closed + [ClosedChunk(open, StateOf(h))], |h|)
  {
    var g, longer := h + [x], closed + [ClosedChunk(open, StateOf(h))];
    TrailingExtends(h, x, closed, open);
    assert g[..|h|] == h;
    ChunkOrder(h, |h| - 1, |h| - 1);
    forall k | 0 <= k < |longer| ensures ClosedAt(g, longer[k], NextChunk(longer, |h|, k)) {
      assert k < |closed| ==> ClosedAt(g, closed[k], NextChunk(closed, open, k));
    }
  }

  lemma RotateRemoval(h: History, x: Placed, s: Store, t: Store)
    requires Legit(h + [x]) && RemovalSafe(h, s)
    requires t.removed == s.removed && Base(t.wal) == Base(s.wal) && t.wal.synced == s.wal.synced
    requires t.wal.queue == s.wal.queue + [Write(|h|, true)]
    ensures RemovalSafe(h + [x], t)
  {
    RemovalExtends(h, x, s);
    QueueWrite(h + [x], s.wal.queue, s.wal.synced, |h|, true);
  }

  /** Closing the open chunk adds the checkpoint that opens the next one, and nothing else. */
  lemma RotateKeeps(y: System)
    requires Inv(y)
    ensures var z := y.(store := y.store.(wal := Rotate(y.store.wal, y.store.sm.state)));
            && Inv(z)
            && Hist(z) == Hist(y) + [Placed(Checkpoint(y.store.sm.state), |Hist(y)|)]
  {
    var h, w, state := Hist(y), y.store.wal, y.store.sm.state;
    var x := Placed(Checkpoint(state), |h|);
    var z := y.(store := y.store.(wal := Rotate(w, state)));
    AtEnd(y);
    RotateDisk(y, state);
    Snoc(h, x);
    assert Legit(h + [x]);
    MemoryFollows(h, x, y.store.sm);
    CacheFollows(h, x, y.store.sm.cache, y.reported);
    RotateTrailing(h, w.closed, w.open.id, x);
    RotateRemoval(h, x, y.store, z.store);
  }

  lemma {:induction false} DrainSpec(closed: seq<ClosedChunk>, boundary: Option<LogId>)
    ensures forall k :: 0 <= k < DrainCount(closed, boundary) ==> OptLeq(closed[k].state.last, boundary)
    ensures var n := DrainCount(closed, boundary);
            n < |closed| ==> !OptLeq(closed[n].state.last, boundary)
  {
    if closed != [] && OptLeq(closed[0].state.last, boundary) {
      DrainSpec(closed[1..], boundary);
      assert forall k :: 1 <= k < |closed| ==> closed[k] == closed[1..][k - 1];
    }
  }

  lemma DrainTrailing(h: History, closed: seq<ClosedChunk>, open: nat)
    requires Legit(h) && Trailing(h, closed, open)
    ensures var n := DrainCount(closed, StateOf(h).purged);
            && Trailing(h, closed[n..], open)
            && (forall id <- ChunkIds(closed[..n]) :: Dead(h, id))
  {
    var n := DrainCount(closed, StateOf(h).purged);
    DrainSpec(closed, StateOf(h).purged);
    forall k | 0 <= k < |closed[n..]| ensures ClosedAt(h, closed[n..][k], NextChunk(closed[n..], open, k)) {
      assert ClosedAt(h, closed[n + k], NextChunk(closed, open, n + k));
    }
    forall id <- ChunkIds(closed[..n]) ensures Dead(h, id) {
      var k :| 0 <= k < n && closed[k].id == id;
      assert ClosedAt(h, closed[k], NextChunk(closed, open, k));
      ObsoleteIsDead(h, id, NextChunk(closed, open, k));
    }
  }

  lemma MoveOver<T>(a: seq<T>, b: seq<T>, front: seq<T>, back: seq<T>, e: seq<T>)
    ensures a + b + (front + back) + e == a + (b + front) + back + e
  {
  }

  lemma BufferOrder(s: Store)
    requires InOrder(s)
    ensures InOrder(Buffer(s))
  {
    if s.sm.state.purged.Some? {
      var closed, n := s.wal.closed, DrainCount(s.wal.closed, s.sm.state.purged);
      assert ChunkIds(closed) == ChunkIds(closed[..n]) + ChunkIds(closed[n..]);
      MoveOver(QueuedIds(s.wal.queue), s.removed, ChunkIds(closed[..n]), ChunkIds(closed[n..]), [s.wal.open.id]);
    }
  }

  lemma BufferDisk(y: System)
    requires Contiguous(y)
    ensures var z := y.(store := Buffer(y.store)); Contiguous(z) && Hist(z) == Hist(y)
  {
    assert AllFiles(y.(store := Buffer(y.store))) == AllFiles(y);
    BufferOrder(y.store);
  }

  /** Buffering moves only chunks that hold nothing live. */
  lemma BufferKeeps(y: System)
    requires Inv(y)
    ensures Inv(y.(store := Buffer(y.store))) && Hist(y.(store := Buffer(y.store))) == Hist(y)
  {
    var h, s := Hist(y), y.store;
    BufferDisk(y);
    DrainTrailing(h, s.wal.closed, s.wal.open.id);
    var t := Buffer(s);
    assert t.wal == s.wal.(closed := t.wal.closed) && t.sm == s.sm;
    assert RemovalSafe(h, t);
  }

  lemma AppendAndApplyKeeps(y: System, rec: Record)
    requires Inv(y) && (Accepts(y.store.sm.state, rec) ==> Admissible(MachineOf(Hist(y)), rec))
    ensures var (t, r) := AppendAndApply(y.store, rec);
            && Inv(y.(store := t))
            && (r.Err? ==> t == y.store)
            && (r.Ok? ==> Appended(Hist(y), Hist(y.(store := t)), rec))
            && (r.Ok? ==> (|Hist(y.(store := t))| == |Hist(y)| + 2 <==>
                           y.store.cfg.isFull(y.store.wal.open.recs + [rec])))
            && (r.Ok? <==> Accepts(y.store.sm.state, rec))
  {
    if Accepts(y.store.sm.state, rec) {
      var h := Hist(y);
      PushKeeps(y, rec);
      var z := y.(store := Push(y.store, rec).0);
      AtEnd(y);
      assert Appended(h, Hist(z), rec);
      if z.store.cfg.isFull(z.store.wal.open.recs) {
        RotateKeeps(z);
        BufferKeeps(z.(store := z.store.(wal := Rotate(z.store.wal, z.store.sm.state))));
      }
    }
  }

  /** `g` is `h` with the record, and possibly the checkpoint that opens the next chunk. */
  ghost predicate Appended(h: History, g: History, rec: Record) {
    h != []
    && var t := h + [Placed(rec, Final(h).chunk)];
       g == t || g == t + [Placed(Checkpoint(StateOf(t)), |t|)]
  }

  // ---- flush, worker and boundary steps ----

  lemma FlushDisk(y: System, sync: bool)
    requires Contiguous(y)
    ensures var z := y.(store := Flush(y.store, sync)); Contiguous(z) && Hist(z) == Hist(y)
  {
    var s := y.store;
    var z := y.(store := Flush(s, sync));
    assert AllFiles(z) == AllFiles(y);
    var write := Write(EndOffset(s.wal), sync);
    QueuedConcat(s.wal.queue, [write]);
    assert QueuedIds([write]) == [] by { assert [write][1..] == []; }
    if sync && s.removed != [] {
      var removal := RemoveChunks(s.removed);
      QueuedConcat(s.wal.queue + [write], [removal]);
      assert QueuedIds([removal]) == s.removed by { assert [removal][1..] == []; }
    }
  }

  lemma FlushRemoval(h: History, s: Store, sync: bool)
    requires RemovalSafe(h, s) && EndOffset(s.wal) == |h|
    ensures RemovalSafe(h, Flush(s, sync))
  {
    var t, write := Flush(s, sync), Write(|h|, sync);
    if sync && s.removed != [] {
      QueueRemoval(h, s.wal.queue, s.wal.synced, s.removed);
      assert s.wal.queue + [write] + [RemoveChunks(s.removed)] == s.wal.queue + [write, RemoveChunks(s.removed)];
    } else {
      QueueWrite(h, s.wal.queue, s.wal.synced, |h|, sync);
    }
    assert Base(t.wal) == Base(s.wal);
  }

  lemma FlushKeeps(y: System, sync: bool)
    requires Inv(y)
    ensures Inv(y.(store := Flush(y.store, sync))) && Hist(y.(store := Flush(y.store, sync))) == Hist(y)
  {
    AtEnd(y);
    FlushDisk(y, sync);
    FlushRemoval(Hist(y), y.store, sync);
  }

  /** The file that the next worker step unlinks, if it unlinks one. */
  function NextUnlinked(s: Store): seq<File> {
    if s.wal.queue != [] && s.wal.queue[0].RemoveChunks? && s.wal.queue[0].ids != [] && s.wal.older != []
    then [s.wal.older[0]]
    else []
  }

  function WorkerMoves(y: System): System {
    y.(store := WorkerStep(y.store), gone := y.gone + NextUnlinked(y.store))
  }

  lemma WriteRemoval(h: History, s: Store)
    requires Legit(h) && RemovalSafe(h, s) && s.wal.queue != [] && s.wal.queue[0].Write?
    ensures RemovalSafe(h, WorkerStep(s))
  {
    var base, synced := Base(s.wal), WorkerStep(s).wal.synced;
    if base > 0 {
      assert h[..synced][..s.wal.synced] == h[..s.wal.synced];
      LegitPrefix(h, synced);
      DeadForever(h[..synced], s.wal.synced, base - 1);
    }
  }

  lemma SameFiles(y: System, z: System)
    requires Contiguous(y) && AllFiles(z) == AllFiles(y) && InOrder(z.store)
    ensures Contiguous(z) && Hist(z) == Hist(y)
  {
  }

  lemma WriteOrder(s: Store)
    requires InOrder(s) && s.wal.queue != [] && s.wal.queue[0].Write?
    ensures InOrder(WorkerStep(s))
  {
    assert QueuedIds(s.wal.queue) == QueuedIds(s.wal.queue[1..]);
  }

  lemma WriteDisk(y: System)
    requires Contiguous(y) && y.store.wal.queue != [] && y.store.wal.queue[0].Write?
    ensures Contiguous(WorkerMoves(y)) && Hist(WorkerMoves(y)) == Hist(y)
  {
    WriteOrder(y.store);
    assert AllFiles(WorkerMoves(y)) == AllFiles(y);
    SameFiles(y, WorkerMoves(y));
  }

  lemma WriteKeeps(y: System)
    requires Inv(y) && y.store.wal.queue != [] && y.store.wal.queue[0].Write?
    ensures Inv(WorkerMoves(y)) && Hist(WorkerMoves(y)) == Hist(y)
  {
    WriteDisk(y);
    WriteRemoval(Hist(y), y.store);
  }

  /** The chunk after an obsolete one bounds every live entry from below. */
  lemma DeadUpTo(h: History, n: nat, q: nat, next: nat)
    requires Legit(h) && n <= |h| && Dead(h[..n], q) && q < next <= |h|
    requires forall i :: q <= i < next ==> h[i].chunk == q
    ensures Dead(h[..n], next - 1)
  {
    var g := h[..n];
    LegitPrefix(h, n);
    EntriesSourced(g);
    ChunksAscend(g);
    forall i <- LogOf(g) ensures next <= LogOf(g)[i].chunk {
      var d := LogOf(g)[i];
      assert Sourced(g, d) && Starts(g, g[d.segment].chunk) && h[d.chunk] == g[d.chunk];
    }
    assert Starts(g, g[n - 1].chunk) && h[Final(g).chunk] == g[Final(g).chunk];
  }

  /** A removal request names the oldest file on disk, and that file holds nothing live
      in any stream the disk can still lose. */
  lemma UnlinkTarget(y: System)
    requires Inv(y) && y.store.wal.queue != [] && y.store.wal.queue[0].RemoveChunks? && y.store.wal.queue[0].ids != []
    ensures var w := y.store.wal;
            && w.older != [] && w.older[0].id == w.queue[0].ids[0]
            && Unlink(w.older, w.queue[0].ids[0]) == w.older[1..]
            && 0 < Files(w)[1].id && Dead(Hist(y)[..w.synced], Files(w)[1].id - 1)
  {
    var h, w := Hist(y), y.store.wal;
    var id, k := w.queue[0].ids[0], |y.gone|;
    assert FileIds(Files(w))[0] == id;
    assert |FileIds(Files(w))| >= 2;
    var all := AllFiles(y);
    assert all[k] == w.older[0] && all[k + 1] == Files(w)[1];
    FilesBefore(all, 0, k);
    FilesBefore(all, 0, k + 1);
    NextStart(all, 0, k);
    DeadUpTo(h, w.synced, id, all[k + 1].id);
  }

  lemma TailIds(files: seq<File>, ids: seq<nat>, more: seq<nat>)
    requires FileIds(files) == ids + more && ids != []
    ensures files != [] && FileIds(files[1..]) == ids[1..] + more
  {
    assert |FileIds(files)| == |files|;
    assert FileIds(files[1..]) == FileIds(files)[1..];
  }

  lemma UnlinkOrder(s: Store)
    requires InOrder(s) && s.wal.queue != [] && s.wal.queue[0].RemoveChunks? && s.wal.queue[0].ids != []
    requires s.wal.older != [] && Unlink(s.wal.older, s.wal.queue[0].ids[0]) == s.wal.older[1..]
    ensures InOrder(WorkerStep(s))
  {
    var w, t := s.wal, WorkerStep(s);
    var ids, queued := w.queue[0].ids, QueuedIds(w.queue[1..]);
    var behind := s.removed + ChunkIds(w.closed) + [w.open.id];
    assert (ids + queued) + s.removed + ChunkIds(w.closed) + [w.open.id] == ids + (queued + behind);
    TailIds(Files(w), ids, queued + behind);
    assert Files(t.wal) == Files(w)[1..];
    assert t.wal.queue[1..] == w.queue[1..];
    assert QueuedIds(t.wal.queue) == ids[1..] + queued;
    assert (ids[1..] + queued) + s.removed + ChunkIds(w.closed) + [w.open.id] == ids[1..] + (queued + behind);
  }

  lemma UnlinkFiles(y: System)
    requires y.store.wal.queue != [] && y.store.wal.queue[0].RemoveChunks?
    requires var w := y.store.wal;
             w.queue[0].ids != [] ==> w.older != [] && Unlink(w.older, w.queue[0].ids[0]) == w.older[1..]
    ensures AllFiles(WorkerMoves(y)) == AllFiles(y)
  {
  }

  lemma UnlinkDisk(y: System)
    requires Contiguous(y) && y.store.wal.queue != [] && y.store.wal.queue[0].RemoveChunks?
    requires var w := y.store.wal;
             w.queue[0].ids != [] ==> w.older != [] && Unlink(w.older, w.queue[0].ids[0]) == w.older[1..]
    ensures Contiguous(WorkerMoves(y)) && Hist(WorkerMoves(y)) == Hist(y)
  {
    UnlinkFiles(y);
    if y.store.wal.queue[0].ids != [] {
      UnlinkOrder(y.store);
    } else {
      assert QueuedIds(y.store.wal.queue) == QueuedIds(y.store.wal.queue[1..]);
    }
    SameFiles(y, WorkerMoves(y));
  }

  lemma UnlinkRemoval(h: History, s: Store)
    requires RemovalSafe(h, s) && s.wal.queue != [] && s.wal.queue[0].RemoveChunks?
    requires var w := s.wal;
             w.queue[0].ids != [] ==>
               && w.older != [] && Unlink(w.older, w.queue[0].ids[0]) == w.older[1..]
               && 0 < Files(w)[1].id && Dead(h[..w.synced], Files(w)[1].id - 1)
    ensures RemovalSafe(h, WorkerStep(s))
  {
    var w, t := s.wal, WorkerStep(s);
    if w.queue[0].ids == [] {
      assert t.wal.queue == w.queue[1..];
    } else {
      assert Base(t.wal) == Files(w)[1].id;
      assert t.wal.queue[1..] == w.queue[1..];
    }
  }

  lemma UnlinkKeeps(y: System)
    requires Inv(y) && y.store.wal.queue != [] && y.store.wal.queue[0].RemoveChunks?
    ensures Inv(WorkerMoves(y)) && Hist(WorkerMoves(y)) == Hist(y)
  {
    if y.store.wal.queue[0].ids != [] {
      UnlinkTarget(y);
    }
    UnlinkDisk(y);
    UnlinkRemoval(Hist(y), y.store);
  }

  lemma WorkerKeeps(y: System)
    requires Inv(y)
    ensures Inv(WorkerMoves(y)) && Hist(WorkerMoves(y)) == Hist(y)
  {
    if y.store.wal.queue == [] {
      assert y.gone + [] == y.gone;
    } else if y.store.wal.queue[0].Write? {
      WriteKeeps(y);
    } else {
      UnlinkKeeps(y);
    }
  }

  /** The boundary moves to the checkpoint that opens chunk `e`. */
  function MoveBoundary(y: System, e: nat): System
    requires e <= |Hist(y)|
  {
    var sm := y.store.sm;
    y.(store := y.store.(sm := sm.(cache := sm.cache.(lastEvictable := StateOf(Hist(y)[..e]).last))),
       reported := Max(y.reported, e))
  }

  lemma BoundaryKept(h: History, c: Cache, e: nat, floor: nat)
    requires Legit(h) && e < |h| && h[e].chunk == e && CacheKept(h, c, floor)
    ensures CacheKept(h, c.(lastEvictable := StateOf(h[..e]).last), Max(floor, e))
  {
    if Rising(h) {
      BoundaryMoves(h, c, e, floor);
    }
  }

  function WithCache(y: System, c: Cache, floor: nat): System {
    System(y.store.(sm := y.store.sm.(cache := c)), y.gone, floor, y.openedAt)
  }

  /** A change to the cache alone has to answer for the cache alone. */
  lemma CacheChangeKeeps(y: System, c: Cache, floor: nat)
    requires Inv(y) && CacheSafe(Hist(y), WithCache(y, c, floor))
    ensures Inv(WithCache(y, c, floor)) && Hist(WithCache(y, c, floor)) == Hist(y)
  {
    var z := WithCache(y, c, floor);
    assert AllFiles(z) == AllFiles(y);
    assert InOrder(z.store) && RemovalSafe(Hist(y), z.store);
  }

  lemma BoundarySafe(y: System, e: nat)
    requires Inv(y) && e < |Hist(y)| && Hist(y)[e].chunk == e && e <= y.store.wal.synced
    ensures CacheSafe(Hist(y), MoveBoundary(y, e))
  {
    var h := Hist(y);
    AtEnd(y);
    ChunkOrder(h, e, |h| - 1);
    BoundaryKept(h, y.store.sm.cache, e, y.reported);
  }

  lemma BoundaryKeeps(y: System, e: nat)
    requires Inv(y) && e < |Hist(y)| && Hist(y)[e].chunk == e && e <= y.store.wal.synced
    ensures Inv(MoveBoundary(y, e)) && Hist(MoveBoundary(y, e)) == Hist(y)
  {
    BoundarySafe(y, e);
    var z := MoveBoundary(y, e);
    assert z == WithCache(y, z.store.sm.cache, z.reported);
    CacheChangeKeeps(y, z.store.sm.cache, z.reported);
  }

  function DrainCache(s: Store): Store {
    s.(sm := s.sm.(cache := Drained(s.sm.cache)))
  }

  lemma DrainKept(h: History, c: Cache, floor: nat)
    requires CacheKept(h, c, floor)
    ensures CacheKept(h, Drained(c), floor)
  {
    var d := Drained(c);
    DrainedSpec(c);
    if Rising(h) {
      forall i <- LogOf(h) | floor <= LogOf(h)[i].segment ensures HasKey(d.items, LogOf(h)[i].id) {
        var e: Item :| e in c.items && e.key == LogOf(h)[i].id;
        assert e in d.items;
      }
    }
  }

  lemma DrainKeeps(y: System)
    requires Inv(y)
    ensures Inv(y.(store := DrainCache(y.store))) && Hist(y.(store := DrainCache(y.store))) == Hist(y)
  {
    DrainKept(Hist(y), y.store.sm.cache, y.reported);
    CacheChangeKeeps(y, Drained(y.store.sm.cache), y.reported);
  }
}
