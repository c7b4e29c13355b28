/** What each call does to the payload cache, said without the cache's own operations; and the
    limits it is held to. */
module CacheCalls {
  import opened RaftTypes
  import opened LogState
  import opened PayloadCaches
  import opened StateMachines
  import opened Histories
  import opened CacheHistories
  import opened Stores
  import opened Invariants
  import opened Recovery
  import opened Runs
  import opened Answers

  lemma CacheIsSound(y: System)
    requires Inv(y)
    ensures var c := y.store.sm.cache; Sorted(c.items) && c.size == Sum(c.items)
    ensures forall e: Item :: e in y.store.sm.cache.items ==> OptLeq(Some(e.key), y.store.sm.state.last)
  {
  }

  lemma RecordCache(s: Store, rec: Record)
    ensures AppendAndApply(s, rec).0.sm.cache ==
              if Accepts(s.sm.state, rec) then CacheStep(s.sm.cache, rec) else s.sm.cache
  {
  }

  // ---- every call but append ----

  /** A cached key that the step leaves in the cache: a truncation keeps what is at or below
      the last id it keeps, a purge drops what is at or below both it and the boundary, and a
      drain what is at or below the boundary. Nothing else touches the cache. */
  predicate Stays(s: Store, v: View, step: Step, key: LogId) {
    var boundary := s.sm.cache.lastEvictable;
    match step
    case DoTruncate(index) => Truncate(s, index).1.Ok? ==> OptLeq(Some(key), LastKept(v, index))
    case DoPurge(upto) =>
      !(NextIndex(s.sm.state.purged) <= upto.index && Leq(key, upto) && OptLeq(Some(key), boundary))
    case DoDrain => !OptLeq(Some(key), boundary)
    case _ => true
  }

  /** The step changes nothing in the cache but what it holds, and keeps exactly what stays. */
  ghost predicate CacheMoves(s: Store, v: View, step: Step, d: Cache) {
    && OnlyItems(s.sm.cache, d.(lastEvictable := s.sm.cache.lastEvictable))
    && (forall e: Item :: e in d.items <==> e in s.sm.cache.items && Stays(s, v, step, e.key))
  }

  lemma TruncationKeeps(c: Cache, keep: Option<LogId>)
    requires Sorted(c.items)
    ensures var d := CacheStep(c, Act(TruncateAfter(keep)));
            OnlyItems(c, d) && forall e: Item :: e in d.items <==> e in c.items && OptLeq(Some(e.key), keep)
  {
    RecordsChangeItems(c, Act(TruncateAfter(keep)));
    if keep.Some? {
      TruncatedAfterSpec(c, keep.value);
    }
  }

  lemma PurgeDrops(c: Cache, upto: LogId)
    requires Sorted(c.items)
    ensures var d := CacheStep(c, Act(PurgeUpto(upto)));
            && OnlyItems(c, d)
            && forall e: Item :: e in d.items <==>
                 e in c.items && !(Leq(e.key, upto) && OptLeq(Some(e.key), c.lastEvictable))
  {
    RecordsChangeItems(c, Act(PurgeUpto(upto)));
    PurgedUptoSpec(c, upto);
  }

  lemma KeptIsLastKept(y: System, index: U64)
    requires Inv(y) && Truncate(y.store, index).1.Ok?
    ensures KeptBy(y.store, index) == Ok(LastKept(ViewOf(Hist(y)), index))
  {
    MemoryMachine(y);
    LogMirrors(Hist(y));
  }

  lemma TruncateCache(s: Store, v: View, index: U64)
    requires Sorted(s.sm.cache.items)
    requires Truncate(s, index).1.Ok? ==> KeptBy(s, index) == Ok(LastKept(v, index))
    ensures var d := Truncate(s, index).0.sm.cache;
            CacheMoves(s, v, DoTruncate(index), d) && d.lastEvictable == s.sm.cache.lastEvictable
  {
    if Truncate(s, index).1.Ok? {
      RecordCache(s, Act(TruncateAfter(LastKept(v, index))));
      TruncationKeeps(s.sm.cache, LastKept(v, index));
    }
  }

  lemma PurgeCache(s: Store, v: View, upto: LogId)
    requires Sorted(s.sm.cache.items)
    ensures var d := Purge(s, upto).0.sm.cache;
            CacheMoves(s, v, DoPurge(upto), d) && d.lastEvictable == s.sm.cache.lastEvictable
  {
    if NextIndex(s.sm.state.purged) <= upto.index {
      RecordCache(s, Act(PurgeUpto(upto)));
      PurgeDrops(s.sm.cache, upto);
    }
  }

  lemma DrainsCache(s: Store, v: View)
    requires Sorted(s.sm.cache.items)
    ensures var d := DrainCache(s).sm.cache;
            CacheMoves(s, v, DoDrain, d) && d.lastEvictable == s.sm.cache.lastEvictable
  {
    DrainedSpec(s.sm.cache);
  }

  lemma OtherCache(s: Store, step: Step)
    requires !step.DoAppend? && !step.DoTruncate? && !step.DoPurge?
    ensures Call(s, step).0.sm.cache == s.sm.cache
  {
  }

  lemma StepCache(y: System, step: Step)
    requires Inv(y) && Enabled(y, step) && !step.DoCrash? && !step.DoAppend?
    ensures var c, d := y.store.sm.cache, Take(y, step).store.sm.cache;
            && CacheMoves(y.store, ViewOf(Hist(y)), step, d)
            && d.lastEvictable == if step.DoBoundary? then StateOf(Hist(y)[..step.chunk]).last else c.lastEvictable
  {
    CacheIsSound(y);
    match step
    case DoTruncate(index) =>
      if Truncate(y.store, index).1.Ok? {
        KeptIsLastKept(y, index);
      }
      TruncateCache(y.store, ViewOf(Hist(y)), index);
    case DoPurge(upto) => PurgeCache(y.store, ViewOf(Hist(y)), upto);
    case DoDrain => DrainsCache(y.store, ViewOf(Hist(y)));
    case DoWorker =>
    case DoBoundary(_) =>
    case _ => OtherCache(y.store, step);
  }

  /** After every step but an append or a crash, the cache holds exactly the items it held
      before and that stay, in order, and accounts for exactly their bytes; the boundary is
      where it was, or where a report moved it. */
  lemma CallCaches(y: System, step: Step)
    requires Reachable(y) && Enabled(y, step) && !step.DoCrash? && !step.DoAppend?
    ensures var c, d := y.store.sm.cache, Take(y, step).store.sm.cache;
            && (forall e: Item :: e in d.items <==> e in c.items && Stays(y.store, ViewOf(Hist(y)), step, e.key))
            && Sorted(d.items) && d.size == Sum(d.items)
            && d.lastEvictable == if step.DoBoundary? then StateOf(Hist(y)[..step.chunk]).last else c.lastEvictable
  {
    ReachableInv(y);
    StepKeeps(y, step);
    CacheIsSound(Take(y, step));
    StepCache(y, step);
  }

  // ---- append ----

  lemma {:induction false} InsertedLast(items: seq<Item>, key: LogId, value: Bytes)
    requires forall e: Item :: e in items ==> Less(e.key, key)
    ensures Inserted(items, key, value) == items + [Item(key, value)]
  {
    if items != [] {
      assert items[0] in items;
      assert forall e: Item :: e in items[1..] ==> e in items;
      InsertedLast(items[1..], key, value);
      assert items == [items[0]] + items[1..];
    }
  }

  /** Within both limits. */
  predicate Fits(cfg: Config, items: seq<Item>) {
    |items| <= cfg.maxItems && Sum(items) <= cfg.capacity
  }

  /** `items` are `all` without the shortest evictable prefix that brings them within the
      limits; or without every evictable item, if no such prefix does. */
  ghost predicate Trimmed(cfg: Config, boundary: Option<LogId>, all: seq<Item>, items: seq<Item>) {
    exists n :: 0 <= n <= |all| && items == all[n..] && TrimsTo(cfg, boundary, all, n)
  }

  ghost predicate TrimsTo(cfg: Config, boundary: Option<LogId>, all: seq<Item>, n: nat)
    requires n <= |all|
  {
    && (forall k :: 0 <= k < n ==> OptLeq(Some(all[k].key), boundary) && !Fits(cfg, all[k..]))
    && (n < |all| ==> Fits(cfg, all[n..]) || !OptLeq(Some(all[n].key), boundary))
  }

  /** The cache has the two limits of the configuration. */
  predicate Limited(s: Store) {
    s.sm.cache.maxItems == s.cfg.maxItems && s.sm.cache.capacity == s.cfg.capacity
  }

  lemma EvictionTrims(cfg: Config, c: Cache)
    requires Sorted(c.items) && c.size == Sum(c.items) && c.maxItems == cfg.maxItems && c.capacity == cfg.capacity
    ensures Trimmed(cfg, c.lastEvictable, c.items, Evicted(c).items)
  {
    EvictedShape(c);
    var n := |c.items| - |Evicted(c).items|;
    forall k | 0 <= k < n ensures OptLeq(Some(c.items[k].key), c.lastEvictable) && !Fits(cfg, c.items[k..]) {
      EvictedIsShortest(c, k);
    }
    if n < |c.items| {
      assert c.items[n] == Evicted(c).items[0];
    }
    assert TrimsTo(cfg, c.lastEvictable, c.items, n);
  }

  lemma InsertIsLast(c: Cache, last: Option<LogId>, key: LogId, value: Bytes)
    requires Sorted(c.items) && c.size == Sum(c.items) && OptLess(last, Some(key))
    requires forall e: Item :: e in c.items ==> OptLeq(Some(e.key), last)
    ensures var all := Inserted(c.items, key, value);
            all == c.items + [Item(key, value)] && Sorted(all) && c.size + |value| == Sum(all)
  {
    forall e: Item | e in c.items ensures Less(e.key, key) {
      assert OptLeq(Some(e.key), last);
    }
    InsertedLast(c.items, key, value);
    InsertedSorted(c.items, key, value);
    InsertedSum(c.items, key, value);
  }

  lemma InsertTrims(cfg: Config, c: Cache, last: Option<LogId>, key: LogId, value: Bytes)
    requires Sorted(c.items) && c.size == Sum(c.items) && c.maxItems == cfg.maxItems && c.capacity == cfg.capacity
    requires (forall e: Item :: e in c.items ==> OptLeq(Some(e.key), last)) && OptLess(last, Some(key))
    ensures Trimmed(cfg, c.lastEvictable, c.items + [Item(key, value)], InsertAndEvict(c, key, value).items)
  {
    InsertIsLast(c, last, key, value);
    EvictionTrims(cfg, c.(items := Inserted(c.items, key, value), size := c.size + |value|));
  }

  lemma RecordTrims(y: System, e: Entry)
    requires Inv(y) && Limited(y.store) && Accepts(y.store.sm.state, Act(Append(e.id, e.payload)))
    ensures var c, d := y.store.sm.cache, AppendAndApply(y.store, Act(Append(e.id, e.payload))).0.sm.cache;
            Trimmed(y.store.cfg, c.lastEvictable, c.items + [Item(e.id, e.payload)], d.items)
  {
    CacheIsSound(y);
    RecordCache(y.store, Act(Append(e.id, e.payload)));
    InsertTrims(y.store.cfg, y.store.sm.cache, y.store.sm.state.last, e.id, e.payload);
  }

  /** An accepted append puts its item behind the others and then evicts from the front, no
      more and no less than the configured limits and the boundary ask for. */
  lemma AppendCaches(y: System, e: Entry)
    requires Reachable(y) && Call(y.store, DoAppend([e])).1.Ok?
    ensures var c, d := y.store.sm.cache, Take(y, DoAppend([e])).store.sm.cache;
            && Trimmed(y.store.cfg, c.lastEvictable, c.items + [Item(e.id, e.payload)], d.items)
            && d.size == Sum(d.items) && d.lastEvictable == c.lastEvictable
  {
    ReachableInv(y);
    LimitsAreConfigured(y);
    AppendAllSnoc(y.store, [e], [], e);
    RecordTrims(y, e);
    RecordCache(y.store, Act(Append(e.id, e.payload)));
    RecordsChangeItems(y.store.sm.cache, Act(Append(e.id, e.payload)));
    AppendAllKeeps(y, [e]);
    CacheIsSound(Take(y, DoAppend([e])));
  }

  /** A batch is its entries one by one; so after any accepted batch the cache is within both
      configured limits, or holds nothing that may be evicted. */
  lemma BatchCaches(y: System, es: seq<Entry>)
    requires Reachable(y) && es != [] && Call(y.store, DoAppend(es)).1.Ok?
    ensures var cfg, d := y.store.cfg, Take(y, DoAppend(es)).store.sm.cache;
            || (|d.items| <= cfg.maxItems && d.size <= cfg.capacity)
            || (forall e: Item :: e in d.items ==> !OptLeq(Some(e.key), d.lastEvictable))
  {
    ReachableInv(y);
    LimitsAreConfigured(y);
    BatchFits(y, es);
  }

  lemma BatchFits(y: System, es: seq<Entry>)
    requires Inv(y) && Limited(y.store) && es != [] && AppendAll(y.store, es).1.Ok?
    ensures var cfg, d := y.store.cfg, AppendAll(y.store, es).0.sm.cache;
            || (|d.items| <= cfg.maxItems && d.size <= cfg.capacity)
            || (forall i: Item :: i in d.items ==> !OptLeq(Some(i.key), d.lastEvictable))
  {
    AppendAllLast(y.store, es);
    AppendAllLimits(y.store, Init(es));
    AppendAllKeeps(y, Init(es));
    AppendAllKeeps(y, es);
    BatchEnds(y.(store := AppendAll(y.store, Init(es)).0), y.(store := AppendAll(y.store, es).0), Final(es));
  }

  lemma BatchEnds(x: System, z: System, e: Entry)
    requires Inv(x) && Inv(z) && Limited(x.store) && Accepts(x.store.sm.state, Act(Append(e.id, e.payload)))
    requires z.store == AppendAndApply(x.store, Act(Append(e.id, e.payload))).0
    ensures var cfg, d := x.store.cfg, z.store.sm.cache;
            || (|d.items| <= cfg.maxItems && d.size <= cfg.capacity)
            || (forall e: Item :: e in d.items ==> !OptLeq(Some(e.key), d.lastEvictable))
  {
    var c, d, rec := x.store.sm.cache, z.store.sm.cache, Act(Append(e.id, e.payload));
    RecordTrims(x, e);
    RecordCache(x.store, rec);
    RecordsChangeItems(c, rec);
    CacheIsSound(z);
    TrimmedEnds(x.store.cfg, c.lastEvictable, c.items + [Item(e.id, e.payload)], d.items);
  }

  lemma AboveIsAbove(boundary: Option<LogId>, a: LogId, b: LogId)
    requires !OptLeq(Some(a), boundary) && (a == b || Less(a, b))
    ensures !OptLeq(Some(b), boundary)
  {
  }

  lemma FirstAbove(boundary: Option<LogId>, items: seq<Item>)
    requires Sorted(items) && items != [] && !OptLeq(Some(items[0].key), boundary)
    ensures forall e: Item :: e in items ==> !OptLeq(Some(e.key), boundary)
  {
    forall e: Item | e in items ensures !OptLeq(Some(e.key), boundary) {
      var k :| 0 <= k < |items| && items[k] == e;
      AboveIsAbove(boundary, items[0].key, e.key);
    }
  }

  lemma TrimmedEnds(cfg: Config, boundary: Option<LogId>, all: seq<Item>, items: seq<Item>)
    requires Trimmed(cfg, boundary, all, items) && Sorted(items)
    ensures Fits(cfg, items) || forall e: Item :: e in items ==> !OptLeq(Some(e.key), boundary)
  {
    var n :| 0 <= n <= |all| && items == all[n..] && TrimsTo(cfg, boundary, all, n);
    if items != [] && !Fits(cfg, items) {
      assert items[0] == all[n];
      FirstAbove(boundary, items);
    }
  }

  // ---- the limits ----

  lemma RecordLimits(s: Store, rec: Record)
    requires Limited(s)
    ensures Limited(AppendAndApply(s, rec).0) && AppendAndApply(s, rec).0.cfg == s.cfg
  {
    RecordsChangeItems(s.sm.cache, rec);
  }

  lemma {:induction false} AppendAllLimits(s: Store, entries: seq<Entry>)
    requires Limited(s)
    ensures Limited(AppendAll(s, entries).0) && AppendAll(s, entries).0.cfg == s.cfg
    decreases |entries|
  {
    if entries != [] {
      var rec := Act(Append(entries[0].id, entries[0].payload));
      RecordLimits(s, rec);
      AppendAllLimits(AppendAndApply(s, rec).0, entries[1..]);
    }
  }

  lemma CallLimits(s: Store, step: Step)
    requires Limited(s)
    ensures Limited(Call(s, step).0) && Call(s, step).0.cfg == s.cfg
  {
    match step
    case DoSaveUserData(data) => RecordLimits(s, Checkpoint(s.sm.state.(userData := data)));
    case DoSaveVote(vote) => RecordLimits(s, Act(SaveVote(vote)));
    case DoAppend(entries) => AppendAllLimits(s, entries);
    case DoTruncate(index) =>
      match KeptBy(s, index) {
        case Ok(keep) => RecordLimits(s, Act(TruncateAfter(keep)));
        case Err(_) =>
      }
    case DoPurge(upto) => RecordLimits(s, Act(PurgeUpto(upto)));
    case DoCommit(id) => RecordLimits(s, Act(Commit(id)));
    case DoUpdateState(state) => RecordLimits(s, Checkpoint(state));
    case _ =>
  }

  lemma {:induction false} ReplayLimits(cfg: Config, d: History, base: nat)
    requires Replay(cfg, d, base).Ok?
    ensures var c := Replay(cfg, d, base).value.cache; c.maxItems == cfg.maxItems && c.capacity == cfg.capacity
  {
    if d != [] {
      ReplayLimits(cfg, Init(d), base);
      var sm, at, x := Replay(cfg, Init(d), base).value, base + |d| - 1, Final(d);
      RecordsChangeItems((if x.chunk == at && base < at then Rebound(sm) else sm).cache, x.rec);
    }
  }

  lemma OpenLimits(cfg: Config, files: seq<File>, synced: nat, reuse: bool)
    requires Open(cfg, files, synced, reuse).Ok?
    ensures Limited(Open(cfg, files, synced, reuse).value) && Open(cfg, files, synced, reuse).value.cfg == cfg
  {
    if files != [] {
      ReplayLimits(cfg, Flatten(files), files[0].id);
    }
  }

  lemma StepLimits(y: System, step: Step)
    requires Limited(y.store)
    ensures Limited(Take(y, step).store)
  {
    match step
    case DoWorker =>
    case DoBoundary(_) =>
    case DoDrain => DrainLimits(y.store.sm.cache);
    case DoCrash(cfg, cut, reuse) =>
      if Open(cfg, Survivors(y, cut), y.store.wal.synced, reuse).Ok? {
        OpenLimits(cfg, Survivors(y, cut), y.store.wal.synced, reuse);
      }
    case _ => CallLimits(y.store, step);
  }

  lemma {:induction false} DrainLimits(c: Cache)
    ensures OnlyItems(c, Drained(c))
    decreases |c.items|
  {
    if c.items != [] && Evictable(c.lastEvictable, c.items[0].key) {
      DrainLimits(DropFirst(c));
    }
  }

  lemma {:induction false} RunLimits(y: System, steps: seq<Step>)
    requires Limited(y.store)
    ensures Limited(After(y, steps).store)
    decreases |steps|
  {
    if steps != [] {
      StepLimits(y, steps[0]);
      RunLimits(Take(y, steps[0]), steps[1..]);
    }
  }

  /** In every reachable store, crashes and opens included, the cache has the two limits of the
      configuration that the store was opened with. */
  lemma LimitsAreConfigured(y: System)
    requires Reachable(y)
    ensures y.store.sm.cache.maxItems == y.store.cfg.maxItems && y.store.sm.cache.capacity == y.store.cfg.capacity
  {
    var cfg, steps :| Legal(Start(cfg), steps) && y == After(Start(cfg), steps);
    RunLimits(Start(cfg), steps);
  }

  /** The configuration is the one of the last open; no other step changes it. */
  lemma ConfigIsTheOpenedOne(y: System, step: Step)
    requires Reachable(y) && Enabled(y, step)
    ensures Take(y, step).store.cfg == if step.DoCrash? then step.cfg else y.store.cfg
  {
    ReachableInv(y);
    LimitsAreConfigured(y);
    match step
    case DoWorker =>
    case DoBoundary(_) =>
    case DoDrain =>
    case DoCrash(cfg, cut, reuse) =>
      OpenKeeps(y, cfg, cut, reuse);
      OpenLimits(cfg, Survivors(y, cut), y.store.wal.synced, reuse);
    case _ => CallLimits(y.store, step);
  }
}
