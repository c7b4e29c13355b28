/** A follower may replace a truncated suffix by entries of a lower term (section 5.3 of "In
    Search of an Understandable Consensus Algorithm"). Such an entry can leave the cache
    before the worker has written it, because a truncation does not move the eviction
    boundary back. These are two such runs. */
module Replacement {
  import opened RaftTypes
  import opened LogState
  import opened PayloadCaches
  import opened StateMachines
  import opened Histories
  import opened Stores
  import opened Invariants
  import opened Runs
  import opened Guarantees
  import opened Retention

  const OLD := LogId(3, 0)
  const NEW := LogId(2, 0)
  const VOTE := Vote(1, 1)

  const EMPTY: RaftLogState := RaftLogState(Some(VOTE), None, None, None, None)

  /** The cache keeps only what must not be evicted; a chunk closes at its fourth record. */
  function SmallConfig(): Config {
    Config(0, 0, (recs: seq<Record>) => |recs| >= 4)
  }

  function Voted(): Store {
    var recs := [Checkpoint(DEFAULT_STATE), Act(SaveVote(VOTE)), Act(SaveVote(VOTE))];
    Store(SmallConfig(), Wal([], File(0, recs), [], [], 0, 0), SM(map[], Cache(0, 0, 0, [], None), EMPTY), [])
  }

  /** One chunk is closed, and ends with the old entry. */
  function Closed(open: seq<Record>, queue: seq<Request>, written: nat, sm: SM): Store {
    var full := EMPTY.(last := Some(OLD));
    var first := File(0, Voted().wal.open.recs + [Act(Append(OLD, [7]))]);
    var second := File(4, [Checkpoint(full)] + open);
    Store(SmallConfig(), Wal([first], second, [ClosedChunk(0, full)], queue, written, written), sm, [])
  }

  function HoldingOld(boundary: Option<LogId>): SM {
    SM(map[0 := LogData(OLD, 0, 3)], Cache(0, 0, 1, [Item(OLD, [7])], boundary), EMPTY.(last := Some(OLD)))
  }

  function OldStored(): Store {
    Closed([], [Write(4, true)], 0, HoldingOld(None))
  }

  function OldPersisted(): Store {
    Closed([], [], 4, HoldingOld(Some(OLD)))
  }

  function Truncated(): Store {
    Closed([Act(TruncateAfter(None))], [], 4, SM(map[], Cache(0, 0, 0, [], Some(OLD)), EMPTY))
  }

  function Replaced(): Store {
    Closed([Act(TruncateAfter(None)), Act(Append(NEW, [5]))], [], 4,
           SM(map[0 := LogData(NEW, 4, 6)], Cache(0, 0, 0, [], Some(OLD)), EMPTY.(last := Some(NEW))))
  }

  lemma VoteTwice(s: Store)
    requires s == Start(SmallConfig()).store
    ensures AppendAndApply(AppendAndApply(s, Act(SaveVote(VOTE))).0, Act(SaveVote(VOTE))).0 == Voted()
  {
  }

  lemma StoreOld(s: Store)
    requires s == Voted()
    ensures AppendAll(s, [Entry(OLD, [7])]).0 == OldStored()
  {
    assert [Entry(OLD, [7])][1..] == [];
  }

  lemma TruncateOld(s: Store)
    requires s == OldPersisted()
    ensures Truncate(s, 0).0 == Truncated()
  {
  }

  lemma StoreNew(s: Store)
    requires s == Truncated()
    ensures AppendAll(s, [Entry(NEW, [5])]).0 == Replaced()
  {
    assert [Entry(NEW, [5])][1..] == [];
  }

  lemma ReachesVoted()
    ensures Reaches(Voted(), 0)
  {
    var s := Start(SmallConfig()).store;
    VoteTwice(s);
    ReachesStart(SmallConfig());
    CallReaches(s, 0, DoSaveVote(VOTE), AppendAndApply(s, Act(SaveVote(VOTE))).0);
    CallReaches(AppendAndApply(s, Act(SaveVote(VOTE))).0, 0, DoSaveVote(VOTE), Voted());
  }

  lemma ReachesOldStored()
    ensures Reaches(OldStored(), 0)
  {
    ReachesVoted();
    StoreOld(Voted());
    CallReaches(Voted(), 0, DoAppend([Entry(OLD, [7])]), OldStored());
  }

  /** Once the newest closed chunk is synced, the worker may report it. */
  lemma ReportReaches(s: Store, reported: nat)
    requires Reaches(s, reported) && s.wal.closed != [] && reported < s.wal.open.id <= s.wal.synced
    ensures Reaches(s.(sm := s.sm.(cache := s.sm.cache.(lastEvictable := Final(s.wal.closed).state.last))),
                    s.wal.open.id)
  {
    var y :| Reachable(y) && y.store == s && y.reported == reported;
    var k, e := |s.wal.closed| - 1, s.wal.open.id;
    ReachableInv(y);
    assert ClosedAt(Hist(y), s.wal.closed[k], NextChunk(s.wal.closed, e, k));
    ReachesNext(y, DoBoundary(e));
  }

  lemma ReachesPersisted()
    ensures Reaches(OldPersisted(), 4)
  {
    ReachesOldStored();
    WorkerReaches(OldStored(), 0);
    ReportReaches(WorkerStep(OldStored()), 0);
  }

  lemma ReachesTruncated()
    ensures Reaches(Truncated(), 4)
  {
    ReachesPersisted();
    TruncateOld(OldPersisted());
    CallReaches(OldPersisted(), 4, DoTruncate(0), Truncated());
  }

  lemma ReachesReplaced()
    ensures Reaches(Replaced(), 4)
  {
    ReachesTruncated();
    StoreNew(Truncated());
    CallReaches(Truncated(), 4, DoAppend([Entry(NEW, [5])]), Replaced());
  }

  predicate NeitherCachedNorWritten(s: Store, d: LogData) {
    && d.chunk == s.wal.open.id
    && Lookup(s.sm.cache.items, d.id) == None
    && Load(OnFile(s.wal), d.chunk, d.segment) == None
  }

  lemma NewIsNowhere(s: Store)
    requires s == Replaced()
    ensures 0 in s.sm.log && NeitherCachedNorWritten(s, s.sm.log[0])
  {
    var files := Files(s.wal);
    assert |files[0].recs| == 4 && files[1..] == [s.wal.open] && CutFiles(files[1..], 4) == [];
    assert OnFile(s.wal) == [files[0]] && [files[0]][1..] == [];
  }

  /** The new entry is live and in the open chunk, but neither cached nor in any file. */
  lemma EvictedBeforeWritten()
    ensures exists y, i :: Reachable(y) && i in y.store.sm.log && NeitherCachedNorWritten(y.store, y.store.sm.log[i])
  {
    ReachesReplaced();
    var s := Replaced();
    NewIsNowhere(s);
    var y :| Reachable(y) && y.store == s && y.reported == 4;
    assert 0 in y.store.sm.log;
  }

  // ---- the same loss, from a report that comes after the append ----

  /** The old entry is gone before the worker has synced its chunk; the boundary is still unset. */
  function TruncatedEarly(): Store {
    Closed([Act(TruncateAfter(None))], [Write(4, true)], 0, SM(map[], Cache(0, 0, 0, [], None), EMPTY))
  }

  lemma TruncateEarly(s: Store)
    requires s == OldStored()
    ensures Truncate(s, 0).0 == TruncatedEarly()
  {
  }

  lemma EarlyFacts(s: Store)
    requires s == TruncatedEarly()
    ensures s.sm.cache.lastEvictable == None && s.sm.state.last == None
    ensures s.wal.closed != [] && Final(s.wal.closed).state.last == Some(OLD)
    ensures s.wal.open.id == 4 == Cover(s.wal.queue, s.wal.synced)
  {
    assert s.wal.queue[1..] == [];
  }

  lemma ReachesEarly()
    ensures Reaches(TruncatedEarly(), 0)
  {
    ReachesOldStored();
    TruncateEarly(OldStored());
    CallReaches(OldStored(), 0, DoTruncate(0), TruncatedEarly());
  }

  /** An id above the boundary at its append is not enough: the boundary may move onto it. */
  lemma LostToLaterReport()
    ensures exists y, e: Entry :: Reachable(y) && Accepts(y.store.sm.state, Act(Append(e.id, e.payload)))
                                  && !Evictable(y.store.sm.cache.lastEvictable, e.id) && !StaysReadable(y, e)
  {
    var s := TruncatedEarly();
    ReachesEarly();
    EarlyFacts(s);
    LostFrom(s, Entry(NEW, [5]));
  }

  lemma LostFrom(s: Store, e: Entry)
    requires Reaches(s, 0) && s.sm.cache.lastEvictable == None && s.sm.state.last == None
    requires s.wal.closed != [] && OptLeq(Some(e.id), Final(s.wal.closed).state.last)
    requires 0 < s.wal.open.id <= Cover(s.wal.queue, s.wal.synced)
    ensures exists y :: Reachable(y) && Accepts(y.store.sm.state, Act(Append(e.id, e.payload)))
                        && !Evictable(y.store.sm.cache.lastEvictable, e.id) && !StaysReadable(y, e)
  {
    var y :| Reachable(y) && y.store == s && y.reported == 0;
    PendingEndBlocks(y, e.id);
    AppendStaysReadable(y, e);
  }
}
