/** What opening puts back into the cache: everything, when the configured limits allow it. */
module Refills {
  import opened RaftTypes
  import opened LogState
  import opened PayloadCaches
  import opened StateMachines
  import opened Histories
  import opened CacheHistories
  import opened Stores
  import opened Invariants
  import opened Recovery
  import opened Runs
  import opened CacheCalls

  /** How many entries the records append, and how many bytes of payload. */
  function Appends(d: History): nat {
    if d == [] then 0 else Appends(Init(d)) + (if IsAppend(Final(d).rec) then 1 else 0)
  }

  function AppendedBytes(d: History): nat {
    if d == [] then 0
    else AppendedBytes(Init(d)) + (if IsAppend(Final(d).rec) then |Final(d).rec.action.payload| else 0)
  }

  predicate IsAppend(rec: Record) {
    rec.Act? && rec.action.Append?
  }

  /** The cache holds every entry of the map. */
  ghost predicate Holds(sm: SM) {
    forall i <- sm.log :: HasKey(sm.cache.items, sm.log[i].id)
  }

  predicate Within(c: Cache, count: nat, bytes: nat) {
    |c.items| <= count && c.size <= bytes
  }

  lemma {:induction false} InsertedCount(items: seq<Item>, key: LogId, value: Bytes)
    ensures |Inserted(items, key, value)| <= |items| + 1
  {
    if items != [] && Less(items[0].key, key) {
      InsertedCount(items[1..], key, value);
    }
  }

  /** Within the limits an insertion evicts nothing. */
  lemma InsertHolds(c: Cache, log: LogMap, id: LogId, payload: Bytes, longer: LogMap)
    requires Sorted(c.items) && |c.items| < c.maxItems && c.size + |payload| <= c.capacity
    requires longer.Keys == log.Keys + {id.index} && longer[id.index].id == id
    requires forall i <- log :: i != id.index ==> longer[i] == log[i]
    requires forall i <- log :: HasKey(c.items, log[i].id)
    ensures var r := InsertAndEvict(c, id, payload);
            && |r.items| <= |c.items| + 1 && r.size == c.size + |payload|
            && forall i <- longer :: HasKey(r.items, longer[i].id)
  {
    var items := Inserted(c.items, id, payload);
    InsertedCount(c.items, id, payload);
    InsertedMembers(c.items, id, payload);
    assert InsertAndEvict(c, id, payload).items == items;
    assert Item(id, payload) in items;
    forall i <- log | i != id.index ensures HasKey(items, log[i].id) {
      var e: Item :| e in c.items && e.key == log[i].id;
      assert if e.key == id then Item(id, payload) in items else e in items;
    }
  }

  lemma TruncateHolds(c: Cache, m: Machine, log: LogMap, keep: Option<LogId>)
    requires Sorted(c.items) && Window(m) && Admissible(m, Act(TruncateAfter(keep)))
    requires forall i <- log :: i in m.log && log[i] == m.log[i] && HasKey(c.items, log[i].id)
    ensures forall i <- log :: i < NextIndex(keep) ==> HasKey(CacheStep(c, Act(TruncateAfter(keep))).items, log[i].id)
  {
    forall i <- log | i < NextIndex(keep)
      ensures HasKey(CacheStep(c, Act(TruncateAfter(keep))).items, log[i].id)
    {
      var e: Item :| e in c.items && e.key == log[i].id;
      TruncateKeepsBelow(m, keep, i);
      TruncatedAfterSpec(c, keep.value);
      assert e in TruncatedAfter(c, keep.value).items;
    }
  }

  lemma PurgeHolds(c: Cache, m: Machine, log: LogMap, upto: LogId)
    requires Sorted(c.items) && Window(m) && Admissible(m, Act(PurgeUpto(upto)))
    requires forall i <- log :: i in m.log && log[i] == m.log[i] && HasKey(c.items, log[i].id)
    ensures forall i <- log :: upto.index < i ==> HasKey(PurgedUpto(c, upto).items, log[i].id)
  {
    PurgedUptoSpec(c, upto);
    forall i <- log | upto.index < i ensures HasKey(PurgedUpto(c, upto).items, log[i].id) {
      var e: Item :| e in c.items && e.key == log[i].id;
      assert e in PurgedUpto(c, upto).items;
    }
  }

  /** A record that leaves room keeps every entry of the map in the cache. */
  lemma StepHolds(sm: SM, m: Machine, rec: Record, chunk: nat, segment: nat, count: nat, bytes: nat)
    requires Sorted(sm.cache.items) && Window(m) && Admissible(m, rec) && Holds(sm) && Within(sm.cache, count, bytes)
    requires forall i <- sm.log :: i in m.log && sm.log[i] == m.log[i]
    requires IsAppend(rec) ==> count < sm.cache.maxItems && bytes + |rec.action.payload| <= sm.cache.capacity
    ensures var t := SM(LogStep(sm.log, rec, chunk, segment), CacheStep(sm.cache, rec), Next(sm.state, rec));
            && Holds(t)
            && Within(t.cache, count + (if IsAppend(rec) then 1 else 0),
                      bytes + (if IsAppend(rec) then |rec.action.payload| else 0))
  {
    match rec
    case Act(Append(id, payload)) => InsertHolds(sm.cache, sm.log, id, payload, LogStep(sm.log, rec, chunk, segment));
    case Act(TruncateAfter(keep)) =>
      TruncateHolds(sm.cache, m, sm.log, keep);
      if keep.Some? {
        TruncatedItems(sm.cache, keep.value);
      }
    case Act(PurgeUpto(id)) =>
      PurgeHolds(sm.cache, m, sm.log, id);
      PurgedItems(sm.cache, id);
    case _ =>
  }

  lemma SuffixInWhole(h: History, p: nat)
    requires Legit(h) && p <= |h| && Starts(h, p)
    ensures forall i <- LogFrom(h[p..], p) :: i in LogOf(h) && LogFrom(h[p..], p)[i] == LogOf(h)[i]
  {
    SuffixLog(h, p);
  }

  ghost predicate Refilled(r: Result<SM, Error>, d: History) {
    r.Ok? && Holds(r.value) && Within(r.value.cache, Appends(d), AppendedBytes(d))
  }

  lemma AppendsSnoc(d: History, x: Placed)
    ensures Appends(d + [x]) == Appends(d) + (if IsAppend(x.rec) then 1 else 0)
    ensures AppendedBytes(d + [x]) == AppendedBytes(d) + (if IsAppend(x.rec) then |x.rec.action.payload| else 0)
  {
    assert Init(d + [x]) == d;
  }

  lemma RefillStep(cfg: Config, g: History, x: Placed, p: nat)
    requires p <= |g| && Legit(g + [x]) && Starts(g, p) && (p == |g| ==> x.chunk == p)
    requires Appends(g[p..] + [x]) <= cfg.maxItems && AppendedBytes(g[p..] + [x]) <= cfg.capacity
    requires Refilled(Replay(cfg, g[p..], p), g[p..])
    ensures Refilled(Replay(cfg, (g + [x])[p..], p), g[p..] + [x])
  {
    Snoc(g, x);
    ReplayAccepts(cfg, g, p);
    var sm := Replay(cfg, g[p..], p).value;
    ReplaySuffix(cfg, g, x, p, sm);
    AppendsSnoc(g[p..], x);
    ReplayLimits(cfg, g[p..], p);
    ReplayedStep(g, p, x, sm);
    WindowHolds(g);
    SuffixInWhole(g, p);
    FollowsAdmissible(g, x);
    RefillOne(sm, x.chunk == |g| && p < |g|, MachineOf(g), x, |g|, Appends(g[p..]), AppendedBytes(g[p..]));
  }

  lemma RefillOne(sm: SM, rebound: bool, m: Machine, x: Placed, at: nat, count: nat, bytes: nat)
    requires Sorted(sm.cache.items) && Window(m) && Admissible(m, x.rec) && Holds(sm) && Within(sm.cache, count, bytes)
    requires forall i <- sm.log :: i in m.log && sm.log[i] == m.log[i]
    requires IsAppend(x.rec) ==> count < sm.cache.maxItems && bytes + |x.rec.action.payload| <= sm.cache.capacity
    ensures ReplayOne(sm, rebound, x, at).Ok? ==>
              var t := ReplayOne(sm, rebound, x, at).value;
              && Holds(t)
              && Within(t.cache, count + (if IsAppend(x.rec) then 1 else 0),
                        bytes + (if IsAppend(x.rec) then |x.rec.action.payload| else 0))
  {
    StepHolds(if rebound then Rebound(sm) else sm, m, x.rec, x.chunk, at, count, bytes);
  }

  lemma {:induction false} ReplayRefills(cfg: Config, h: History, p: nat)
    requires Legit(h) && p <= |h| && Starts(h, p)
    requires Appends(h[p..]) <= cfg.maxItems && AppendedBytes(h[p..]) <= cfg.capacity
    ensures Refilled(Replay(cfg, h[p..], p), h[p..])
  {
    if |h| > p {
      var g, x := Init(h), Final(h);
      assert h == g + [x] && h[p..] == g[p..] + [x];
      StartsBefore(g, x, p);
      AppendsSnoc(g[p..], x);
      ReplayRefills(cfg, g, p);
      RefillStep(cfg, g, x, p);
    } else {
      assert h[p..] == [];
    }
  }

  /** When what the surviving files append fits the configured limits, a crash and an open
      leave every live entry in the cache. */
  lemma OpenRefills(y: System, cfg: Config, cut: nat, reuse: bool, i: nat)
    requires Reachable(y) && 0 < cut && y.store.wal.synced <= cut <= |Hist(y)|
    requires Appends(Flatten(Survivors(y, cut))) <= cfg.maxItems
    requires AppendedBytes(Flatten(Survivors(y, cut))) <= cfg.capacity
    ensures var r := Open(cfg, Survivors(y, cut), y.store.wal.synced, reuse);
            r.Ok? && (i in r.value.sm.log ==> Lookup(r.value.sm.cache.items, r.value.sm.log[i].id).Some?)
  {
    ReachableInv(y);
    OpenKeeps(y, cfg, cut, reuse);
    SurvivingReplay(y, cfg, cut);
    var r := Open(cfg, Survivors(y, cut), y.store.wal.synced, reuse).value;
    if i in r.sm.log {
      LookupFinds(r.sm.cache.items, r.sm.log[i].id);
    }
  }

  lemma SurvivingReplay(y: System, cfg: Config, cut: nat)
    requires Inv(y) && 0 < cut && y.store.wal.synced <= cut <= |Hist(y)|
    requires Appends(Flatten(Survivors(y, cut))) <= cfg.maxItems
    requires AppendedBytes(Flatten(Survivors(y, cut))) <= cfg.capacity
    ensures var files := Survivors(y, cut);
            files != [] && Refilled(Replay(cfg, Flatten(files), files[0].id), Flatten(files))
  {
    var h, g, base, files := Hist(y), Hist(y)[..cut], Base(y.store.wal), Survivors(y, cut);
    CrashRecovery(y, cfg, cut);
    if base > 0 {
      BaseIsSynced(y);
    }
    DiskHolds(y);
    SurvivorsHold(y, cut);
    LegitPrefix(h, cut);
    assert g[base..] == h[base..cut];
    assert Starts(g, base);
    ReplayRefills(cfg, g, base);
  }
}
