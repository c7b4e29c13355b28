/** Crash and open: whatever suffix of chunks is left, cut wherever the crash cut it,
    replays to exactly what the live store was at the cut. */
module Recovery {
  import opened RaftTypes
  import opened PayloadCaches
  import opened StateMachines
  import opened Histories
  import opened CacheHistories
  import opened Stores
  import opened ChunkFiles
  import opened Invariants

  /** Where the open chunk of the replayed stream starts. */
  function ReplayFloor(h: History, p: nat): nat {
    if |h| <= p then p else Final(h).chunk
  }

  ghost predicate ReplayedMemory(h: History, p: nat, sm: SM)
    requires p <= |h|
  {
    sm.log == LogFrom(h[p..], p) && (p < |h| ==> sm.state == StateOf(h))
  }

  lemma EmptyCacheKept(h: History, cfg: Config)
    ensures CacheKept(h, Fresh(cfg.maxItems, cfg.capacity).cache, |h|)
  {
    SegmentsBelow(h);
  }

  lemma LeadCheckpoint(g: History, x: Placed)
    requires Legit(g + [x]) && x.chunk == |g|
    ensures x.rec == Checkpoint(StateOf(g)) && StateOf(g + [x]) == StateOf(g) && LogOf(g + [x]) == LogOf(g)
  {
    Snoc(g, x);
    if g != [] {
      ChunkOrder(g, |g| - 1, |g| - 1);
    }
  }

  lemma LeadHonest(g: History, x: Placed, c: Cache)
    requires Legit(g + [x]) && x.chunk == |g| && CacheHonest(g, c)
    ensures CacheHonest(g + [x], c)
  {
    Snoc(g, x);
    LeadCheckpoint(g, x);
    if PurgedCovers(g + [x]) {
      PurgedCoversSnoc(g, x);
    }
  }

  /** A chunk-leading checkpoint changes nothing in memory, and protects everything after it. */
  lemma LeadFull(g: History, x: Placed, c: Cache)
    requires Legit(g + [x]) && x.chunk == |g|
    requires c.lastEvictable == None || c.lastEvictable == StateOf(g).last
    ensures CacheFull(g + [x], c, |g|)
  {
    var h := g + [x];
    LeadCheckpoint(g, x);
    SegmentsBelow(g);
    if c.lastEvictable.Some? {
      assert h[..|g|] == g && h[|g|] == x;
      assert BoundaryAt(h, c.lastEvictable, |g|);
    }
  }

  /** One more record, seen from offset `p`. */
  lemma SnocFrom(g: History, p: nat, x: Placed)
    requires p <= |g|
    ensures (g + [x])[p..] == g[p..] + [x]
    ensures LogFrom((g + [x])[p..], p) == LogStep(LogFrom(g[p..], p), x.rec, x.chunk, |g|)
  {
    assert (g + [x])[p..] == g[p..] + [x];
    Snoc(g[p..], x);
  }

  lemma MemoryLead(g: History, p: nat, x: Placed, sm: SM)
    requires p <= |g| && Legit(g + [x]) && ReplayedMemory(g, p, sm) && x.chunk == |g|
    ensures var (t, r) := Applied(sm, x.rec, x.chunk, |g|);
            r.Ok? && ReplayedMemory(g + [x], p, t) && t.cache == sm.cache
  {
    SnocFrom(g, p, x);
    LeadCheckpoint(g, x);
    var t := Applied(sm, x.rec, x.chunk, |g|).0;
    assert t == sm.(state := StateOf(g));
    assert LogFrom((g + [x])[p..], p) == LogFrom(g[p..], p);
  }

  lemma MemoryStep(g: History, p: nat, x: Placed, sm: SM)
    requires p < |g| && Legit(g + [x]) && ReplayedMemory(g, p, sm) && x.chunk != |g|
    ensures var (t, r) := Applied(sm, x.rec, x.chunk, |g|);
            r.Ok? && ReplayedMemory(g + [x], p, t) && t.cache == CacheStep(sm.cache, x.rec)
  {
    Snoc(g, x);
    SnocFrom(g, p, x);
    FollowsAdmissible(g, x);
  }

  lemma ReboundHonest(g: History, sm: SM)
    requires CacheHonest(g, sm.cache)
    ensures CacheHonest(g, Rebound(sm).cache)
  {
  }

  lemma ReplayLead(g: History, p: nat, x: Placed, sm: SM)
    requires p <= |g| && Legit(g + [x]) && x.chunk == |g|
    requires ReplayedMemory(g, p, sm) && CacheHonest(g, sm.cache)
    requires sm.cache.lastEvictable == None || sm.cache.lastEvictable == StateOf(g).last
    ensures var (t, r) := Applied(sm, x.rec, x.chunk, |g|);
            r.Ok? && ReplayedMemory(g + [x], p, t) && CacheKept(g + [x], t.cache, x.chunk)
  {
    MemoryLead(g, p, x, sm);
    LeadHonest(g, x, sm.cache);
    LeadFull(g, x, sm.cache);
  }

  lemma ReplayMore(g: History, p: nat, x: Placed, sm: SM)
    requires p < |g| && Legit(g + [x]) && x.chunk != |g|
    requires ReplayedMemory(g, p, sm) && CacheKept(g, sm.cache, Final(g).chunk)
    ensures var (t, r) := Applied(sm, x.rec, x.chunk, |g|);
            r.Ok? && ReplayedMemory(g + [x], p, t) && CacheKept(g + [x], t.cache, x.chunk)
  {
    MemoryStep(g, p, x, sm);
    Snoc(g, x);
    assert x.chunk == Final(g).chunk;
    CacheFollows(g, x, sm.cache, Final(g).chunk);
  }

  /** What a replay of `h` from offset `p` must give: the live state, the map built since
      `p`, and a cache that keeps the promises of a live one. */
  ghost predicate Replayed(h: History, p: nat, r: Result<SM, Error>)
    requires p <= |h|
  {
    && r.Ok? && ReplayedMemory(h, p, r.value)
    && CacheKept(h, r.value.cache, ReplayFloor(h, p))
    && (p == |h| ==> r.value.cache.lastEvictable == None)
  }

  function ReplayOne(sm: SM, rebound: bool, x: Placed, at: nat): Result<SM, Error> {
    var (t, r) := Applied(if rebound then Rebound(sm) else sm, x.rec, x.chunk, at);
    if r.Ok? then Ok(t) else Err(r.error)
  }

  lemma ReplaySnoc(cfg: Config, d: History, x: Placed, base: nat, sm: SM)
    requires Replay(cfg, d, base) == Ok(sm)
    ensures Replay(cfg, d + [x], base) == ReplayOne(sm, x.chunk == base + |d| && d != [], x, base + |d|)
  {
    Snoc(d, x);
  }

  lemma ReplayedStep(g: History, p: nat, x: Placed, sm: SM)
    requires p <= |g| && Legit(g + [x]) && Replayed(g, p, Ok(sm)) && (p == |g| ==> x.chunk == p)
    ensures Replayed(g + [x], p, ReplayOne(sm, x.chunk == |g| && p < |g|, x, |g|))
  {
    Snoc(g, x);
    if x.chunk == |g| {
      ReboundHonest(g, sm);
      ReplayLead(g, p, x, if p < |g| then Rebound(sm) else sm);
    } else {
      ReplayMore(g, p, x, sm);
    }
  }

  lemma EmptyReplayed(cfg: Config, h: History)
    requires Legit(h)
    ensures Replayed(h, |h|, Replay(cfg, h[|h|..], |h|))
  {
    EmptyCacheKept(h, cfg);
  }

  lemma StartsBefore(g: History, x: Placed, p: nat)
    requires p <= |g| && Legit(g + [x]) && Starts(g + [x], p)
    ensures Legit(g) && Starts(g, p) && (p == |g| ==> x.chunk == p)
  {
    Snoc(g, x);
  }

  lemma ReplaySuffix(cfg: Config, g: History, x: Placed, p: nat, sm: SM)
    requires p <= |g| && Replay(cfg, g[p..], p) == Ok(sm)
    ensures Replay(cfg, (g + [x])[p..], p) == ReplayOne(sm, x.chunk == |g| && p < |g|, x, |g|)
  {
    assert (g + [x])[p..] == g[p..] + [x];
    ReplaySnoc(cfg, g[p..], x, p, sm);
  }

  /** Replay from a chunk start accepts every record; the state it reaches is the live one,
      and the cache it fills keeps the promises of a live cache. */
  lemma {:induction false} ReplayAccepts(cfg: Config, h: History, p: nat)
    requires Legit(h) && p <= |h| && Starts(h, p)
    ensures Replayed(h, p, Replay(cfg, h[p..], p))
  {
    if |h| == p {
      EmptyReplayed(cfg, h);
    } else {
      var g, x := Init(h), Final(h);
      assert h == g + [x];
      StartsBefore(g, x, p);
      ReplayAccepts(cfg, g, p);
      var sm := Replay(cfg, g[p..], p).value;
      ReplaySuffix(cfg, g, x, p, sm);
      ReplayedStep(g, p, x, sm);
    }
  }

  /** When no live entry points below chunk `p`, replay from `p` misses nothing. */
  lemma SuffixSuffices(h: History, p: nat)
    requires Legit(h) && p <= |h| && Starts(h, p)
    requires p > 0 ==> Dead(h, p - 1)
    ensures LogFrom(h[p..], p) == LogOf(h)
  {
    SuffixLog(h, p);
    assert forall i <- LogOf(h) :: p <= LogOf(h)[i].chunk;
  }

  // ---- the eviction boundary after a replay ----

  lemma {:induction false} ReplayState(cfg: Config, d: History, base: nat)
    requires Replay(cfg, d, base).Ok?
    ensures Replay(cfg, d, base).value.state == StateOf(d)
  {
    if d != [] {
      ReplayState(cfg, Init(d), base);
    }
  }

  /** Within a file the boundary stays where its first record put it. */
  lemma {:induction false} BoundaryInFile(cfg: Config, d: History, f: File, r: nat, base: nat)
    requires 0 < r <= |f.recs| && f.id == base + |d| && Replay(cfg, d + Place(f)[..r], base).Ok?
    ensures Replay(cfg, d, base).Ok?
    ensures Replay(cfg, d + Place(f)[..r], base).value.cache.lastEvictable ==
              if d == [] then Replay(cfg, d, base).value.cache.lastEvictable else StateOf(d).last
  {
    var g, x := d + Place(f)[..r - 1], Placed(f.recs[r - 1], f.id);
    assert d + Place(f)[..r] == g + [x];
    Snoc(g, x);
    var sm := Replay(cfg, g, base).value;
    ReplaySnoc(cfg, g, x, base, sm);
    if r == 1 {
      assert g == d;
      ReplayState(cfg, d, base);
      RecordsChangeItems((if d != [] then Rebound(sm) else sm).cache, x.rec);
    } else {
      BoundaryInFile(cfg, d, f, r - 1, base);
      RecordsChangeItems(sm.cache, x.rec);
    }
  }

  lemma LastFile(files: seq<File>, base: nat)
    requires files != [] && Adjacent(files, base)
    ensures var n := |files| - 1;
            var d := Flatten(files[..n]);
            && Flatten(files) == d + Place(files[n]) && files[n].recs != []
            && files[n].id == base + |d|
            && (d == [] <==> n == 0)
  {
    var n := |files| - 1;
    FilesBefore(files, base, n);
    assert files == files[..n] + [files[n]];
    FlattenConcat(files[..n], [files[n]]);
    FlattenOne(files[n]);
    if n > 0 {
      assert Flatten(files[..n]) == Place(files[0]) + Flatten(files[..n][1..]);
    }
  }

  lemma ReplayRestoresBoundary(cfg: Config, files: seq<File>, base: nat)
    requires files != [] && Adjacent(files, base) && Replay(cfg, Flatten(files), base).Ok?
    ensures Replay(cfg, Flatten(files), base).value.cache.lastEvictable ==
              if |files| == 1 then None else StateThrough(files, |files| - 1).last
  {
    var n := |files| - 1;
    var d, f := Flatten(files[..n]), files[n];
    LastFile(files, base);
    assert Place(f)[..|f.recs|] == Place(f);
    BoundaryInFile(cfg, d, f, |f.recs|, base);
  }

  /** Opening leaves the eviction boundary where the worker had it when the last file was
      begun: at the `last` of everything before that file. */
  lemma OpenRestoresBoundary(cfg: Config, files: seq<File>, synced: nat, reuse: bool)
    requires files != [] && Open(cfg, files, synced, reuse).Ok?
    ensures Open(cfg, files, synced, reuse).value.sm.cache.lastEvictable ==
              if |files| == 1 then None else StateThrough(files, |files| - 1).last
  {
    ReplayRestoresBoundary(cfg, files, files[0].id);
  }

  // ---- what a crash leaves ----

  function Survivors(y: System, cut: nat): seq<File> {
    CutFiles(Files(y.store.wal), cut)
  }

  /** The stream splits at the oldest file on disk. */
  lemma DiskHolds(y: System)
    requires Contiguous(y)
    ensures var h, base, files := Hist(y), Base(y.store.wal), Files(y.store.wal);
            && base < |h| && h[base].chunk == base
            && Adjacent(y.gone, 0) && Flatten(y.gone) == h[..base]
            && Adjacent(files, base) && Flatten(files) == h[base..]
            && (base == 0 ==> y.gone == [])
  {
    var all, k, files := AllFiles(y), |y.gone|, Files(y.store.wal);
    assert all[k] == files[0] && all[..k] == y.gone;
    FilesBefore(all, 0, k);
    FlattenConcat(y.gone, files);
    AdjacentConcat(y.gone, files, 0);
  }

  lemma BaseIsSynced(y: System)
    requires Inv(y) && Base(y.store.wal) > 0
    ensures Base(y.store.wal) < y.store.wal.synced
  {
    var h, n := Hist(y), y.store.wal.synced;
    LegitPrefix(h, n);
    ChunkOrder(h[..n], n - 1, n - 1);
  }

  /** What survives is a gap-free suffix of the files, cut at a record. */
  lemma SurvivorsHold(y: System, cut: nat)
    requires Contiguous(y) && Base(y.store.wal) <= cut <= |Hist(y)|
    ensures var h, base, files := Hist(y), Base(y.store.wal), Survivors(y, cut);
            && Adjacent(files, base) && Flatten(files) == h[base..cut]
            && Adjacent(y.gone + files, 0) && Flatten(y.gone + files) == h[..cut]
            && (files == [] <==> cut == base)
  {
    var h, base, files := Hist(y), Base(y.store.wal), Survivors(y, cut);
    DiskHolds(y);
    CutStream(Files(y.store.wal), base, cut);
    AdjacentConcat(y.gone, files, 0);
    FlattenConcat(y.gone, files);
    assert h[base..][..cut - base] == h[base..cut];
    assert h[..cut] == h[..base] + h[base..cut];
  }

  // ---- open ----

  /** At every crash point, what survives replays without a rejection to exactly the state
      and the index map that the live store had after the first `cut` records. */
  lemma CrashRecovery(y: System, cfg: Config, cut: nat)
    requires Inv(y) && 0 < cut && y.store.wal.synced <= cut <= |Hist(y)|
    ensures var h, files := Hist(y)[..cut], Survivors(y, cut);
            && files != [] && files[0].id == Base(y.store.wal) && Adjacent(files, files[0].id)
            && var r := Replay(cfg, Flatten(files), files[0].id);
               r.Ok? && InMemory(h, r.value) && CacheKept(h, r.value.cache, Final(h).chunk)
  {
    var h, g, base, files := Hist(y), Hist(y)[..cut], Base(y.store.wal), Survivors(y, cut);
    if base > 0 {
      BaseIsSynced(y);
      assert g[..y.store.wal.synced] == h[..y.store.wal.synced];
      LegitPrefix(h, cut);
      DeadForever(g, y.store.wal.synced, base - 1);
    }
    DiskHolds(y);
    SurvivorsHold(y, cut);
    LegitPrefix(h, cut);
    assert g[base..] == h[base..cut];
    assert Starts(g, base);
    ReplayAccepts(cfg, g, base);
    SuffixSuffices(g, base);
  }

  lemma OpenedOrder(files: seq<File>, synced: nat)
    requires files != []
    ensures var w := OpenedWal(files, synced);
            && Files(w) == files
            && FileIds(files) == ChunkIds(w.closed) + [w.open.id]
  {
    var w, n := OpenedWal(files, synced), |files| - 1;
    assert files == files[..n] + [files[n]];
    assert ChunkIds(w.closed) == FileIds(files)[..n];
  }

  lemma SliceOfSlice(h: History, base: nat, e: nat)
    requires base <= e <= |h|
    ensures h[..e][base..] == h[base..][..e - base]
  {
  }

  lemma NextFileStarts(h: History, files: seq<File>, base: nat, k: nat)
    requires Adjacent(files, base) && k + 1 < |files| && base <= |h| && Flatten(files) == h[base..]
    ensures var e := files[k + 1].id;
            && base <= files[k].id < e < |h| && h[e].chunk == e
            && Flatten(files[..k + 1]) == h[..e][base..]
  {
    var e := files[k + 1].id;
    FilesBefore(files, base, k);
    FilesBefore(files, base, k + 1);
    NextStart(files, base, k);
    assert h[base..][e - base] == h[e];
    SliceOfSlice(h, base, e);
  }

  lemma StateSince(h: History, base: nat, e: nat)
    requires Legit(h) && base < e <= |h| && h[base].chunk == base
    ensures StateOf(h[..e][base..]) == StateOf(h[..e])
  {
    LegitPrefix(h, e);
    assert h[..e][base] == h[base];
    SuffixState(h[..e], base);
  }

  lemma ThroughFile(h: History, files: seq<File>, base: nat, k: nat)
    requires Legit(h) && Adjacent(files, base) && k + 1 < |files|
    requires base < |h| && h[base].chunk == base && Flatten(files) == h[base..]
    ensures files[k + 1].id <= |h| && StateThrough(files, k + 1) == StateOf(h[..files[k + 1].id])
  {
    NextFileStarts(h, files, base, k);
    StateSince(h, base, files[k + 1].id);
  }

  /** The state recorded for a replayed chunk is the live state where the chunk ended. */
  lemma ReplayedChunk(h: History, files: seq<File>, base: nat, k: nat)
    requires Legit(h) && Adjacent(files, base) && k + 1 < |files|
    requires base < |h| && h[base].chunk == base && Flatten(files) == h[base..]
    ensures ClosedAt(h, ClosedOf(files)[k], files[k + 1].id)
  {
    NextFileStarts(h, files, base, k);
    ThroughFile(h, files, base, k);
    assert ClosedOf(files)[k] == ClosedChunk(files[k].id, StateOf(h[..files[k + 1].id]));
  }

  lemma OpenedTrailing(h: History, files: seq<File>, base: nat, synced: nat)
    requires Legit(h) && files != [] && Adjacent(files, base)
    requires base < |h| && h[base].chunk == base && Flatten(files) == h[base..]
    ensures var w := OpenedWal(files, synced); Trailing(h, w.closed, w.open.id)
  {
    var w := OpenedWal(files, synced);
    forall k | 0 <= k < |w.closed| ensures ClosedAt(h, w.closed[k], NextChunk(w.closed, w.open.id, k)) {
      ReplayedChunk(h, files, base, k);
    }
  }

  function OpenedSystem(y: System, cfg: Config, cut: nat, sm: SM): System
    requires Survivors(y, cut) != []
  {
    var files := Survivors(y, cut);
    System(Store(cfg, OpenedWal(files, y.store.wal.synced), sm, []), y.gone, Final(files).id, cut)
  }

  lemma OpenedDisk(y: System, cfg: Config, cut: nat, sm: SM)
    requires Inv(y) && 0 < cut && y.store.wal.synced <= cut <= |Hist(y)| && Survivors(y, cut) != []
    ensures var z := OpenedSystem(y, cfg, cut, sm);
            && Contiguous(z) && Hist(z) == Hist(y)[..cut]
            && Base(z.store.wal) == Base(y.store.wal)
            && Trailing(Hist(z), z.store.wal.closed, z.store.wal.open.id)
            && EndOffset(z.store.wal) == cut && Final(Hist(z)).chunk == z.store.wal.open.id
  {
    var files, z, h := Survivors(y, cut), OpenedSystem(y, cfg, cut, sm), Hist(y);
    if Base(y.store.wal) > 0 {
      BaseIsSynced(y);
    }
    SurvivorsHold(y, cut);
    DiskHolds(y);
    OpenedOrder(files, y.store.wal.synced);
    assert AllFiles(z) == y.gone + files;
    AtEnd(z);
    LegitPrefix(h, cut);
    assert h[..cut][Base(y.store.wal)..] == h[Base(y.store.wal)..cut];
    OpenedTrailing(h[..cut], files, Base(y.store.wal), y.store.wal.synced);
  }

  lemma OpenedRemoval(h: History, cut: nat, s: Store, t: Store)
    requires RemovalSafe(h, s) && s.wal.synced <= cut <= |h|
    requires t.removed == [] && t.wal.queue == [] && t.wal.synced == s.wal.synced && Base(t.wal) == Base(s.wal)
    ensures RemovalSafe(h[..cut], t)
  {
    assert h[..cut][..s.wal.synced] == h[..s.wal.synced];
  }

  lemma OpenedInv(y: System, cfg: Config, cut: nat)
    requires Inv(y) && 0 < cut && y.store.wal.synced <= cut <= |Hist(y)|
    ensures var files := Survivors(y, cut);
            && files != [] && Adjacent(files, files[0].id)
            && var r := Replay(cfg, Flatten(files), files[0].id);
               r.Ok? && var z := OpenedSystem(y, cfg, cut, r.value); Inv(z) && Hist(z) == Hist(y)[..cut]
  {
    var h, synced := Hist(y)[..cut], y.store.wal.synced;
    CrashRecovery(y, cfg, cut);
    var files := Survivors(y, cut);
    var sm := Replay(cfg, Flatten(files), files[0].id).value;
    var z := OpenedSystem(y, cfg, cut, sm);
    OpenedDisk(y, cfg, cut, sm);
    LegitPrefix(Hist(y), cut);
    OpenedRemoval(Hist(y), cut, y.store, z.store);
    ChunkOrder(h, cut - 1, cut - 1);
    assert CacheSafe(h, z);
  }

  lemma ForgetQueue(y: System)
    requires Inv(y) && QueuedIds(y.store.wal.queue) == []
    ensures var z := y.(store := y.store.(wal := y.store.wal.(queue := [])));
            Inv(z) && Hist(z) == Hist(y)
  {
    var z := y.(store := y.store.(wal := y.store.wal.(queue := [])));
    assert AllFiles(z) == AllFiles(y);
    assert RemovalSafe(Hist(y), z.store);
  }

  /** The store that opens on what a crash at `cut` leaves. */
  function Reopened(y: System, cfg: Config, cut: nat, reuse: bool): System {
    match Open(cfg, Survivors(y, cut), y.store.wal.synced, reuse)
    case Err(_) => y
    case Ok(s) => System(s, y.gone, if Survivors(y, cut) == [] then 0 else Final(Survivors(y, cut)).id, cut)
  }

  /** `g` is the first `cut` records of `h`, and possibly the checkpoint of a new chunk. */
  ghost predicate CutBack(h: History, g: History, cut: nat) {
    cut <= |h| && (g == h[..cut] || g == h[..cut] + [Placed(Checkpoint(StateOf(h[..cut])), cut)])
  }

  lemma FirstStream(z: System)
    requires z.store.wal == FirstWal() && z.store.removed == [] && z.gone == []
    ensures Contiguous(z) && Hist(z) == [Placed(Checkpoint(DEFAULT_STATE), 0)]
  {
    var first := File(0, [Checkpoint(DEFAULT_STATE)]);
    assert AllFiles(z) == [first];
    FlattenOne(first);
    assert Place(first) == [Placed(Checkpoint(DEFAULT_STATE), 0)];
    assert [first][1..] == [] && Adjacent([first], 0);
  }

  lemma FirstOpen(cfg: Config, z: System)
    requires z == System(Store(cfg, FirstWal(), Fresh(cfg.maxItems, cfg.capacity), []), [], 0, 0)
    ensures Inv(z) && Hist(z) == [Placed(Checkpoint(DEFAULT_STATE), 0)]
  {
    FirstStream(z);
    var h := Hist(z);
    assert Init(h) == [] && Legit([]) && Follows([], h[0]);
    assert LogFrom(Init(h), 0) == map[] && EntriesOf(Init(h)) == map[];
    assert RemovalSafe(h, z.store);
  }

  /** What a crash leaves is in the files. */
  lemma OpenedIsWritten(y: System, cfg: Config, cut: nat, reuse: bool)
    requires Inv(y) && y.store.wal.synced <= cut <= |Hist(y)|
    requires Open(cfg, Survivors(y, cut), y.store.wal.synced, reuse).Ok?
    ensures cut <= Reopened(y, cfg, cut, reuse).store.wal.written
  {
    if cut > 0 {
      OpenedInv(y, cfg, cut);
      OpenedDisk(y, cfg, cut, Replay(cfg, Flatten(Survivors(y, cut)), Survivors(y, cut)[0].id).value);
    }
  }

  lemma OpenKeeps(y: System, cfg: Config, cut: nat, reuse: bool)
    requires Inv(y) && y.store.wal.synced <= cut <= |Hist(y)|
    ensures Open(cfg, Survivors(y, cut), y.store.wal.synced, reuse).Ok?
    ensures var z := Reopened(y, cfg, cut, reuse); Inv(z) && CutBack(Hist(y), Hist(z), cut)
  {
    var h, files := Hist(y), Survivors(y, cut);
    var z := Reopened(y, cfg, cut, reuse);
    if cut == 0 {
      if Base(y.store.wal) > 0 {
        BaseIsSynced(y);
      }
      DiskHolds(y);
      SurvivorsHold(y, 0);
      FirstOpen(cfg, z);
      assert h[..0] == [];
    } else {
      OpenedInv(y, cfg, cut);
      var sm := Replay(cfg, Flatten(files), files[0].id).value;
      var o := OpenedSystem(y, cfg, cut, sm);
      if reuse {
        BufferKeeps(o);
      } else {
        var r := o.(store := o.store.(wal := Rotate(o.store.wal, sm.state)));
        RotateKeeps(o);
        assert r.store.wal.queue == [Write(EndOffset(o.store.wal), true)];
        ForgetQueue(r);
        BufferKeeps(r.(store := r.store.(wal := r.store.wal.(queue := []))));
      }
    }
  }
}
