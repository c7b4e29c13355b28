/** Two ways in which a cached key ends up above `purged` although its entry has left the log:
    a purge with a lower id than the entry it removes, and an update that lowers `purged`. */
module StaleKeys {
  import opened RaftTypes
  import opened PayloadCaches
  import opened StateMachines
  import opened Histories
  import opened CacheHistories
  import opened Stores
  import opened Invariants
  import opened Runs

  const LOW := LogId(2, 5)
  const FIRST := LogId(3, 5)
  const SECOND := LogId(4, 6)

  const HELD: seq<Item> := [Item(FIRST, [7]), Item(SECOND, [8])]

  function LargeConfig(): Config {
    Config(100, 100, (recs: seq<Record>) => false)
  }

  /** Everything is in the open chunk, and nothing has been written or evicted. */
  function InOpen(recs: seq<Record>, log: LogMap, items: seq<Item>, state: RaftLogState): Store {
    Store(LargeConfig(), Wal([], File(0, [Checkpoint(DEFAULT_STATE)] + recs), [], [], 0, 0),
          SM(log, Cache(100, 100, |items|, items, None), state), [])
  }

  function OneHeld(): Store {
    InOpen([Act(Append(FIRST, [7]))], map[5 := LogData(FIRST, 0, 1)], HELD[..1], DEFAULT_STATE.(last := Some(FIRST)))
  }

  function BothHeld(): Store {
    InOpen([Act(Append(FIRST, [7])), Act(Append(SECOND, [8]))],
           map[5 := LogData(FIRST, 0, 1), 6 := LogData(SECOND, 0, 2)],
           HELD, DEFAULT_STATE.(last := Some(SECOND)))
  }

  function PurgedAt(id: LogId): Store {
    InOpen([Act(Append(FIRST, [7])), Act(Append(SECOND, [8])), Act(PurgeUpto(id))],
           map[6 := LogData(SECOND, 0, 2)],
           HELD, DEFAULT_STATE.(last := Some(SECOND), purged := Some(id)))
  }

  function Lowered(): RaftLogState {
    DEFAULT_STATE.(last := Some(SECOND), purged := Some(LOW))
  }

  lemma HoldFirst(s: Store)
    requires s == Start(LargeConfig()).store
    ensures AppendAll(s, [Entry(FIRST, [7])]).0 == OneHeld()
  {
    assert [Entry(FIRST, [7])][1..] == [];
  }

  lemma HoldSecond(s: Store)
    requires s == OneHeld()
    ensures AppendAll(s, [Entry(SECOND, [8])]).0 == BothHeld()
  {
    assert [Entry(SECOND, [8])][1..] == [];
  }

  lemma PurgeFirst(s: Store, id: LogId)
    requires s == BothHeld() && id.index == 5 && id.term <= 3
    ensures CoherentPurge(MachineIn(s), id) && Purge(s, id).0 == PurgedAt(id)
  {
    assert 6 in s.sm.log;
  }

  lemma ReachesOne()
    ensures Reaches(OneHeld(), 0)
  {
    var s := Start(LargeConfig()).store;
    ReachesStart(LargeConfig());
    HoldFirst(s);
    CallReaches(s, 0, DoAppend([Entry(FIRST, [7])]), OneHeld());
  }

  lemma ReachesBoth()
    ensures Reaches(BothHeld(), 0)
  {
    ReachesOne();
    HoldSecond(OneHeld());
    CallReaches(OneHeld(), 0, DoAppend([Entry(SECOND, [8])]), BothHeld());
  }

  lemma PurgeReaches(s: Store, id: LogId, t: Store)
    requires Reaches(s, 0) && CoherentPurge(MachineIn(s), id) && t == Purge(s, id).0
    ensures Reaches(t, 0)
  {
    CallReaches(s, 0, DoPurge(id), t);
  }

  lemma ReachesPurged()
    ensures Reaches(PurgedAt(FIRST), 0)
  {
    ReachesBoth();
    PurgeFirst(BothHeld(), FIRST);
    PurgeReaches(BothHeld(), FIRST, PurgedAt(FIRST));
  }

  lemma LowerPurged(s: Store)
    requires s == PurgedAt(FIRST)
    ensures CoherentUpdate(MachineIn(s), Lowered())
    ensures UpdateState(s, Lowered()).0.sm == s.sm.(state := Lowered())
  {
    CheckpointCheckFits(MachineIn(s), Lowered());
    assert IsEnds(s.sm.log.Keys, 6, 6);
  }

  /** The key is cached and above `purged`, and no entry carries it. */
  ghost predicate Stale(sm: SM, key: LogId) {
    HasKey(sm.cache.items, key) && key.index !in sm.log && !OptLeq(Some(key), sm.state.purged)
  }

  lemma StaleShows(y: System, key: LogId)
    requires Reachable(y) && Stale(y.store.sm, key)
    ensures !StaleBelow(y.store.sm.cache, y.store.sm.state.purged, EntriesOf(Hist(y)))
  {
    ReachableInv(y);
    LogMirrors(Hist(y));
    var e: Item :| e in y.store.sm.cache.items && e.key == key;
  }

  /** Every cached key is live. */
  predicate AllLive(sm: SM) {
    forall e <- sm.cache.items :: Live(sm.log, e.key)
  }

  lemma LiveIsFresh(y: System)
    requires Reachable(y) && AllLive(y.store.sm)
    ensures StaleBelow(y.store.sm.cache, y.store.sm.state.purged, EntriesOf(Hist(y)))
  {
    ReachableInv(y);
    LogMirrors(Hist(y));
  }

  lemma PurgedFresh(y: System)
    requires Reachable(y) && y.store == PurgedAt(FIRST)
    ensures StaleBelow(y.store.sm.cache, y.store.sm.state.purged, EntriesOf(Hist(y)))
  {
    ReachableInv(y);
    LogMirrors(Hist(y));
    assert 6 in y.store.sm.log;
  }

  lemma PurgeLeaves(y: System, id: LogId, key: LogId)
    requires Reachable(y) && AllLive(y.store.sm) && CoherentPurge(MachineIn(y.store), id)
    requires Stale(Purge(y.store, id).0.sm, key)
    ensures exists z, upto :: Reachable(z) && Enabled(z, DoPurge(upto)) && FreshBut(z, DoPurge(upto))
  {
    LiveIsFresh(y);
    ReachesNext(y, DoPurge(id));
    StaleShows(Take(y, DoPurge(id)), key);
    assert FreshBut(y, DoPurge(id));
  }

  /** Every cached key is live or at or below `purged`, but after the step one is not. */
  ghost predicate FreshBut(y: System, step: Step) {
    && StaleBelow(y.store.sm.cache, y.store.sm.state.purged, EntriesOf(Hist(y)))
    && var z := Take(y, step);
       !StaleBelow(z.store.sm.cache, z.store.sm.state.purged, EntriesOf(Hist(z)))
  }

  /** An update that lowers `purged` leaves a stale key above it. */
  lemma StaleAfterUpdate()
    ensures exists y, s :: Reachable(y) && Enabled(y, DoUpdateState(s)) && FreshBut(y, DoUpdateState(s))
  {
    ReachesPurged();
    LowerPurged(PurgedAt(FIRST));
    assert PurgedAt(FIRST).sm.cache.items[0].key == FIRST;
    var y :| Reachable(y) && y.store == PurgedAt(FIRST) && y.reported == 0;
    UpdateLowers(y);
  }

  lemma UpdateLowers(y: System)
    requires Reachable(y) && y.store == PurgedAt(FIRST) && CoherentUpdate(MachineIn(y.store), Lowered())
    requires Stale(UpdateState(y.store, Lowered()).0.sm, FIRST)
    ensures Enabled(y, DoUpdateState(Lowered())) && FreshBut(y, DoUpdateState(Lowered()))
  {
    PurgedFresh(y);
    ReachesNext(y, DoUpdateState(Lowered()));
    StaleShows(Take(y, DoUpdateState(Lowered())), FIRST);
  }

  lemma BothLive(sm: SM)
    requires sm == BothHeld().sm
    ensures AllLive(sm)
  {
    assert 5 in sm.log && 6 in sm.log;
  }

  lemma LowStale(sm: SM)
    requires sm == PurgedAt(LOW).sm
    ensures Stale(sm, FIRST)
  {
    assert sm.cache.items[0].key == FIRST;
  }

  /** So does a purge with a lower id than the entry it removes. */
  lemma StaleAfterLowPurge()
    ensures exists y, upto :: Reachable(y) && Enabled(y, DoPurge(upto)) && FreshBut(y, DoPurge(upto))
  {
    ReachesBoth();
    BothLive(BothHeld().sm);
    PurgeFirst(BothHeld(), LOW);
    LowStale(PurgedAt(LOW).sm);
    var y :| Reachable(y) && y.store == BothHeld() && y.reported == 0;
    PurgeLeaves(y, LOW, FIRST);
  }
}
