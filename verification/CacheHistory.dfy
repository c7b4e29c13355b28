/** What the payload cache holds, measured against the record stream. */
module CacheHistories {
  import opened RaftTypes
  import opened LogState
  import opened PayloadCaches
  import opened StateMachines
  import opened Histories

  predicate LiveEntry(entries: map<nat, Entry>, id: LogId) {
    id.index in entries && entries[id.index].id == id
  }

  /** The index map and the simple log hold the same ids. */
  ghost predicate Mirrors(log: LogMap, entries: map<nat, Entry>) {
    log.Keys == entries.Keys && forall i <- log :: log[i].id == entries[i].id
  }

  /** No cached key is above `last`. A live key has the payload of its record; any other
      key lies below the whole log. The size account is exact. */
  ghost predicate Coherent(c: Cache, last: Option<LogId>, entries: map<nat, Entry>) {
    && Sorted(c.items) && Slack(c) == 0
    && forall e: Item :: e in c.items ==>
         && OptLeq(Some(e.key), last)
         && if LiveEntry(entries, e.key) then entries[e.key.index].payload == e.value
            else forall i <- entries :: Less(e.key, entries[i].id)
  }

  lemma FreshKey(c: Cache, last: Option<LogId>, entries: map<nat, Entry>, id: LogId)
    requires Coherent(c, last, entries) && OptLess(last, Some(id))
    ensures !HasKey(c.items, id)
  {
    forall e: Item | e in c.items ensures e.key != id {
      assert OptLeq(Some(e.key), last);
    }
  }

  lemma AppendKeepsOld(c: Cache, m: Machine, entries: map<nat, Entry>, id: LogId, payload: Bytes, e: Item)
    requires Window(m) && Mirrors(m.log, entries) && Admissible(m, Act(Append(id, payload)))
    requires Coherent(c, m.state.last, entries) && e in c.items
    ensures var es := entries[id.index := Entry(id, payload)];
            && OptLess(Some(e.key), Some(id))
            && if LiveEntry(es, e.key) then es[e.key.index].payload == e.value
               else forall i <- es :: Less(e.key, es[i].id)
  {
    assert OptLeq(Some(e.key), m.state.last);
    if LiveEntry(entries, e.key) {
      assert e.key.index in m.log;
    }
  }

  lemma CoherentAppend(c: Cache, m: Machine, entries: map<nat, Entry>, id: LogId, payload: Bytes)
    requires Window(m) && Mirrors(m.log, entries) && Admissible(m, Act(Append(id, payload)))
    requires Coherent(c, m.state.last, entries)
    ensures Coherent(InsertAndEvict(c, id, payload), Some(id), entries[id.index := Entry(id, payload)])
  {
    var d, es := InsertAndEvict(c, id, payload), entries[id.index := Entry(id, payload)];
    FreshKey(c, m.state.last, entries, id);
    InsertMembers(c, id, payload);
    InsertAccounting(c, id, payload);
    forall e: Item | e in d.items
      ensures OptLeq(Some(e.key), Some(id))
      ensures if LiveEntry(es, e.key) then es[e.key.index].payload == e.value
              else forall i <- es :: Less(e.key, es[i].id)
    {
      if e != Item(id, payload) {
        AppendKeepsOld(c, m, entries, id, payload, e);
      }
    }
  }

  /** A cached key that a truncation leaves in the cache is live after it exactly if it was before. */
  lemma TruncateLiveness(m: Machine, entries: map<nat, Entry>, keep: LogId, id: LogId)
    requires Window(m) && Mirrors(m.log, entries) && Admissible(m, Act(TruncateAfter(Some(keep))))
    requires Leq(id, keep)
    ensures LiveEntry(EntryStep(entries, Act(TruncateAfter(Some(keep)))), id) <==> LiveEntry(entries, id)
  {
    if LiveEntry(entries, id) {
      assert id.index in m.log && m.log[id.index].id == id;
      if Some(keep) != m.state.purged {
        assert keep.index in m.log && m.log[keep.index].id == keep;
      }
    }
  }

  lemma CoherentTruncate(c: Cache, m: Machine, entries: map<nat, Entry>, keep: Option<LogId>)
    requires Window(m) && Mirrors(m.log, entries) && Admissible(m, Act(TruncateAfter(keep)))
    requires Coherent(c, m.state.last, entries)
    ensures Coherent(CacheStep(c, Act(TruncateAfter(keep))), Next(m.state, Act(TruncateAfter(keep))).last,
                     EntryStep(entries, Act(TruncateAfter(keep))))
  {
    if keep.Some? {
      TruncatedAfterSpec(c, keep.value);
      var d, es := TruncatedAfter(c, keep.value), EntryStep(entries, Act(TruncateAfter(keep)));
      var last := Next(m.state, Act(TruncateAfter(keep))).last;
      forall e: Item | e in d.items
        ensures OptLeq(Some(e.key), last)
        ensures if LiveEntry(es, e.key) then es[e.key.index].payload == e.value
                else forall i <- es :: Less(e.key, es[i].id)
      {
        assert e in c.items;
        TruncateLiveness(m, entries, keep.value, e.key);
      }
    }
  }

  lemma CoherentPurgeStep(c: Cache, m: Machine, entries: map<nat, Entry>, upto: LogId)
    requires Window(m) && Mirrors(m.log, entries) && Admissible(m, Act(PurgeUpto(upto)))
    requires Coherent(c, m.state.last, entries)
    ensures Coherent(PurgedUpto(c, upto), Next(m.state, Act(PurgeUpto(upto))).last,
                     EntryStep(entries, Act(PurgeUpto(upto))))
  {
    PurgedUptoSpec(c, upto);
    var es := EntryStep(entries, Act(PurgeUpto(upto)));
    forall e: Item | e in c.items && LiveEntry(entries, e.key) && !LiveEntry(es, e.key)
      ensures forall i <- es :: Less(e.key, es[i].id)
    {
      assert e.key.index <= upto.index;
      assert forall i <- es :: i in m.log && m.log[e.key.index].id == e.key;
    }
  }

  lemma CheckpointRaisesLast(m: Machine, s: RaftLogState)
    requires Window(m) && Admissible(m, Checkpoint(s))
    ensures OptLeq(m.state.last, s.last)
  {
    if m.log != map[] && !KeepsOrder(m.state, Checkpoint(s)) {
      TwoEndpoints(m, s);
    }
  }

  lemma CoherentCheckpoint(c: Cache, m: Machine, entries: map<nat, Entry>, s: RaftLogState)
    requires Window(m) && Admissible(m, Checkpoint(s))
    requires Coherent(c, m.state.last, entries)
    ensures Coherent(c, s.last, entries)
  {
    CheckpointRaisesLast(m, s);
    forall e: Item | e in c.items ensures OptLeq(Some(e.key), s.last) {
      assert OptLeq(Some(e.key), m.state.last);
    }
  }

  lemma CoherentStep(c: Cache, m: Machine, entries: map<nat, Entry>, rec: Record)
    requires Window(m) && Mirrors(m.log, entries) && Admissible(m, rec)
    requires Coherent(c, m.state.last, entries)
    ensures Coherent(CacheStep(c, rec), Next(m.state, rec).last, EntryStep(entries, rec))
  {
    match rec
    case Act(Append(id, payload)) => CoherentAppend(c, m, entries, id, payload);
    case Act(TruncateAfter(keep)) => CoherentTruncate(c, m, entries, keep);
    case Act(PurgeUpto(id)) => CoherentPurgeStep(c, m, entries, id);
    case Checkpoint(s) => CoherentCheckpoint(c, m, entries, s);
    case _ =>
  }

  // ---- stale keys and the purge point ----

  /** Every cached key is live, or at or below `purged`. */
  ghost predicate StaleBelow(c: Cache, purged: Option<LogId>, entries: map<nat, Entry>) {
    forall e: Item :: e in c.items ==> LiveEntry(entries, e.key) || OptLeq(Some(e.key), purged)
  }

  /** `purged` ends above every id that the record takes out of the log at its lower end. */
  ghost predicate PurgeCovers(m: Machine, rec: Record) {
    match rec
    case Checkpoint(s) => OptLeq(m.state.purged, s.purged)
    case Act(PurgeUpto(id)) =>
      forall i <- m.log :: i <= id.index ==> OptLeq(Some(m.log[i].id), OptMax(m.state.purged, Some(id)))
    case _ => true
  }

  lemma StalePurge(c: Cache, m: Machine, entries: map<nat, Entry>, upto: LogId)
    requires Window(m) && Mirrors(m.log, entries) && Admissible(m, Act(PurgeUpto(upto))) && Sorted(c.items)
    requires StaleBelow(c, m.state.purged, entries) && PurgeCovers(m, Act(PurgeUpto(upto)))
    ensures StaleBelow(PurgedUpto(c, upto), OptMax(m.state.purged, Some(upto)),
                       EntryStep(entries, Act(PurgeUpto(upto))))
  {
    PurgedUptoSpec(c, upto);
    var d, es := PurgedUpto(c, upto), EntryStep(entries, Act(PurgeUpto(upto)));
    forall e: Item | e in d.items
      ensures LiveEntry(es, e.key) || OptLeq(Some(e.key), OptMax(m.state.purged, Some(upto)))
    {
      assert e in c.items;
      if LiveEntry(entries, e.key) && !LiveEntry(es, e.key) {
        assert e.key.index in m.log && m.log[e.key.index].id == e.key && e.key.index <= upto.index;
      }
    }
  }

  lemma StaleAppend(c: Cache, m: Machine, entries: map<nat, Entry>, id: LogId, payload: Bytes)
    requires Window(m) && Mirrors(m.log, entries) && Admissible(m, Act(Append(id, payload))) && Sorted(c.items)
    requires StaleBelow(c, m.state.purged, entries)
    ensures StaleBelow(InsertAndEvict(c, id, payload), m.state.purged, entries[id.index := Entry(id, payload)])
  {
    InsertMembers(c, id, payload);
    forall e: Item | e in c.items && e.key != id && LiveEntry(entries, e.key)
      ensures LiveEntry(entries[id.index := Entry(id, payload)], e.key)
    {
      assert e.key.index in m.log;
    }
  }

  lemma StaleTruncate(c: Cache, m: Machine, entries: map<nat, Entry>, keep: Option<LogId>)
    requires Window(m) && Mirrors(m.log, entries) && Admissible(m, Act(TruncateAfter(keep))) && Sorted(c.items)
    requires StaleBelow(c, m.state.purged, entries)
    ensures StaleBelow(CacheStep(c, Act(TruncateAfter(keep))), m.state.purged,
                       EntryStep(entries, Act(TruncateAfter(keep))))
  {
    if keep.Some? {
      TruncatedAfterSpec(c, keep.value);
      forall e: Item | e in c.items && Leq(e.key, keep.value)
        ensures LiveEntry(EntryStep(entries, Act(TruncateAfter(keep))), e.key) <==> LiveEntry(entries, e.key)
      {
        TruncateLiveness(m, entries, keep.value, e.key);
      }
    }
  }

  lemma StaleStep(c: Cache, m: Machine, entries: map<nat, Entry>, rec: Record)
    requires Window(m) && Mirrors(m.log, entries) && Admissible(m, rec) && Sorted(c.items)
    requires StaleBelow(c, m.state.purged, entries)
    requires PurgeCovers(m, rec)
    ensures StaleBelow(CacheStep(c, rec), Next(m.state, rec).purged, EntryStep(entries, rec))
  {
    match rec
    case Act(PurgeUpto(id)) => StalePurge(c, m, entries, id);
    case Act(Append(id, payload)) => StaleAppend(c, m, entries, id, payload);
    case Act(TruncateAfter(keep)) => StaleTruncate(c, m, entries, keep);
    case _ =>
  }

  /** Stale keys stay at or below `purged`, whatever the cache holds, exactly when the record
      keeps `purged` above all it takes out of the log. */
  lemma StaleExactly(m: Machine, entries: map<nat, Entry>, rec: Record)
    requires Window(m) && Mirrors(m.log, entries) && Admissible(m, rec)
    ensures (forall c: Cache :: Sorted(c.items) && StaleBelow(c, m.state.purged, entries) ==>
                           StaleBelow(CacheStep(c, rec), Next(m.state, rec).purged, EntryStep(entries, rec)))
            <==> PurgeCovers(m, rec)
  {
    if PurgeCovers(m, rec) {
      forall c: Cache | Sorted(c.items) && StaleBelow(c, m.state.purged, entries)
        ensures StaleBelow(CacheStep(c, rec), Next(m.state, rec).purged, EntryStep(entries, rec))
      {
        StaleStep(c, m, entries, rec);
      }
    } else {
      var key := if rec.Checkpoint? then m.state.purged.value else LeftAbove(m, rec.action.id);
      var c := Cache(1, 0, 0, [Item(key, [])], None);
      assert Item(key, []) in c.items && StaleBelow(c, m.state.purged, entries);
      assert CacheStep(c, rec) == c;
    }
  }

  /** An id that a purge takes out of the log, above the purge point it leaves. */
  ghost function LeftAbove(m: Machine, upto: LogId): LogId
    requires !PurgeCovers(m, Act(PurgeUpto(upto)))
  {
    var i :| i in m.log && i <= upto.index && !OptLeq(Some(m.log[i].id), OptMax(m.state.purged, Some(upto)));
    m.log[i].id
  }

  /** Throughout the stream `purged` stays above all that left the log at its lower end. */
  ghost predicate PurgedCovers(h: History) {
    forall j :: 0 <= j < |h| ==> PurgeCovers(MachineOf(h[..j]), h[j].rec)
  }

  lemma PurgedCoversSnoc(h: History, x: Placed)
    requires PurgedCovers(h + [x])
    ensures PurgedCovers(h) && PurgeCovers(MachineOf(h), x.rec)
  {
    var g := h + [x];
    assert g[|h|] == x && g[..|h|] == h;
    forall j | 0 <= j < |h| ensures PurgeCovers(MachineOf(h[..j]), h[j].rec) {
      assert g[..j] == h[..j] && g[j] == h[j];
    }
  }

  // ---- what the cache must hold ----

  /** Every entry stored at `floor` or later is cached and above the eviction boundary. */
  ghost predicate Served(c: Cache, log: LogMap, floor: nat) {
    forall i <- log :: floor <= log[i].segment ==>
      HasKey(c.items, log[i].id) && !Evictable(c.lastEvictable, log[i].id)
  }

  lemma TruncateKeepsBelow(m: Machine, keep: Option<LogId>, i: nat)
    requires Window(m) && Admissible(m, Act(TruncateAfter(keep)))
    requires i in m.log && i < NextIndex(keep)
    ensures Leq(m.log[i].id, keep.value)
  {
    assert i == keep.value.index || Less(m.log[i].id, m.log[keep.value.index].id);
  }

  /** An entry above the boundary stays cached for as long as it is live. */
  lemma KeptStep(c: Cache, m: Machine, rec: Record, chunk: nat, segment: nat, i: nat)
    requires Window(m) && Admissible(m, rec) && Sorted(c.items)
    requires i in m.log && HasKey(c.items, m.log[i].id) && !Evictable(c.lastEvictable, m.log[i].id)
    ensures var log := LogStep(m.log, rec, chunk, segment);
            i in log && log[i] == m.log[i] ==> HasKey(CacheStep(c, rec).items, m.log[i].id)
  {
    var e: Item :| e in c.items && e.key == m.log[i].id;
    var d, log := CacheStep(c, rec), LogStep(m.log, rec, chunk, segment);
    if i in log && log[i] == m.log[i] {
      match rec {
        case Act(Append(id, payload)) =>
          InsertMembers(c, id, payload);
          assert if id == e.key then Item(id, payload) in d.items else e in d.items;
        case Act(TruncateAfter(keep)) =>
          TruncateKeepsBelow(m, keep, i);
          if keep.Some? {
            TruncatedAfterSpec(c, keep.value);
          }
          assert e in d.items;
        case Act(PurgeUpto(id)) =>
          PurgedUptoSpec(c, id);
          assert e in d.items;
        case _ =>
      }
    }
  }

  /** Boundary and limits are as they were. */
  predicate OnlyItems(c: Cache, r: Cache) {
    r == c.(items := r.items, size := r.size)
  }

  predicate NoLarger(r: Cache, c: Cache) {
    |r.items| <= |c.items| && r.size <= c.size
  }

  lemma {:induction false} EvictedItems(c: Cache)
    ensures OnlyItems(c, Evicted(c))
    decreases |c.items|
  {
    if Over(c) && c.items != [] && Evictable(c.lastEvictable, c.items[0].key) {
      EvictedItems(DropFirst(c));
    }
  }

  lemma {:induction false} TruncatedItems(c: Cache, key: LogId)
    ensures OnlyItems(c, TruncatedAfter(c, key)) && NoLarger(TruncatedAfter(c, key), c)
    decreases |c.items|
  {
    if c.items != [] && Less(key, c.items[|c.items| - 1].key) {
      TruncatedItems(DropLast(c), key);
    }
  }

  lemma {:induction false} PurgedItems(c: Cache, key: LogId)
    ensures OnlyItems(c, PurgedUpto(c, key)) && NoLarger(PurgedUpto(c, key), c)
    decreases |c.items|
  {
    if c.items != [] && Leq(c.items[0].key, key) && Evictable(c.lastEvictable, c.items[0].key) {
      PurgedItems(DropFirst(c), key);
    }
  }

  /** Only the worker moves the boundary, and nothing changes the limits. */
  lemma RecordsChangeItems(c: Cache, rec: Record)
    ensures OnlyItems(c, CacheStep(c, rec))
  {
    match rec
    case Act(Append(id, payload)) =>
      EvictedItems(c.(items := Inserted(c.items, id, payload), size := c.size + |payload|));
    case Act(TruncateAfter(keep)) =>
      if keep.Some? {
        TruncatedItems(c, keep.value);
      }
    case Act(PurgeUpto(id)) => PurgedItems(c, id);
    case _ =>
  }

  lemma ServedStep(c: Cache, m: Machine, rec: Record, chunk: nat, segment: nat, floor: nat)
    requires Window(m) && Admissible(m, rec) && Sorted(c.items)
    requires Served(c, m.log, floor)
    requires rec.Act? && rec.action.Append? ==> !Evictable(c.lastEvictable, rec.action.id)
    ensures Served(CacheStep(c, rec), LogStep(m.log, rec, chunk, segment), floor)
    ensures CacheStep(c, rec).lastEvictable == c.lastEvictable
  {
    var d, log := CacheStep(c, rec), LogStep(m.log, rec, chunk, segment);
    RecordsChangeItems(c, rec);
    forall i <- log | floor <= log[i].segment
      ensures HasKey(d.items, log[i].id) && !Evictable(d.lastEvictable, log[i].id)
    {
      if i in m.log && log[i] == m.log[i] {
        KeptStep(c, m, rec, chunk, segment, i);
      } else {
        InsertMembers(c, rec.action.id, rec.action.payload);
        assert Item(rec.action.id, rec.action.payload) in d.items;
      }
    }
  }

  /** Every appended id is above the `last` of every chunk-closing checkpoint before it. */
  ghost predicate Rising(h: History) {
    forall e, j :: 0 <= e <= j < |h| && h[e].chunk == e && h[j].rec.Act? && h[j].rec.action.Append? ==>
      OptLess(StateOf(h[..e]).last, Some(h[j].rec.action.id))
  }

  /** The boundary is the `last` of the checkpoint that opens a chunk at or below `floor`. */
  ghost predicate BoundaryAt(h: History, boundary: Option<LogId>, floor: nat) {
    boundary == None || exists e :: 0 <= e < |h| && e <= floor && h[e].chunk == e && boundary == StateOf(h[..e]).last
  }

  lemma RisingPrefix(h: History, n: nat)
    requires Rising(h) && n <= |h|
    ensures Rising(h[..n])
  {
    var g := h[..n];
    forall e, j | 0 <= e <= j < |g| && g[e].chunk == e && g[j].rec.Act? && g[j].rec.action.Append?
      ensures OptLess(StateOf(g[..e]).last, Some(g[j].rec.action.id))
    {
      assert g[..e] == h[..e] && h[e] == g[e] && h[j] == g[j];
    }
  }

  lemma BoundaryExtends(h: History, x: Placed, boundary: Option<LogId>, floor: nat)
    requires BoundaryAt(h, boundary, floor)
    ensures BoundaryAt(h + [x], boundary, floor)
  {
    if boundary.Some? {
      var e :| 0 <= e < |h| && e <= floor && h[e].chunk == e && boundary == StateOf(h[..e]).last;
      assert (h + [x])[..e] == h[..e];
    }
  }

  /** On a rising stream no appended id is at or below an earlier boundary. */
  lemma RisingAboveBoundary(h: History, boundary: Option<LogId>, floor: nat, j: nat)
    requires Rising(h) && j < |h| && h[j].rec.Act? && h[j].rec.action.Append?
    requires BoundaryAt(h[..j], boundary, floor)
    ensures !Evictable(boundary, h[j].rec.action.id)
  {
    if boundary.Some? {
      var g := h[..j];
      var e :| 0 <= e < |g| && e <= floor && g[e].chunk == e && boundary == StateOf(g[..e]).last;
      assert g[..e] == h[..e] && h[e] == g[e];
    }
  }

  /** Moving the boundary to the checkpoint that opens chunk `e` leaves every entry from `e` on protected. */
  lemma BoundaryMoves(h: History, c: Cache, e: nat, floor: nat)
    requires Legit(h) && Rising(h) && e < |h| && h[e].chunk == e
    requires Served(c, LogOf(h), floor)
    ensures Served(c.(lastEvictable := StateOf(h[..e]).last), LogOf(h), if floor < e then e else floor)
  {
    EntriesSourced(h);
    forall i <- LogOf(h) | e <= LogOf(h)[i].segment
      ensures !Evictable(StateOf(h[..e]).last, LogOf(h)[i].id)
    {
      assert Sourced(h, LogOf(h)[i]);
    }
  }
}
