/** The state machine that records are applied to: the log map, the payload cache and the
    log state move together. */
module StateMachines {
  import opened RaftTypes
  import opened LogState
  import opened PayloadCaches

  /** Where an entry lives: its chunk, and the offset of its record. */
  datatype LogData = LogData(id: LogId, chunk: nat, segment: nat)

  type LogMap = map<nat, LogData>

  datatype Machine = Machine(log: LogMap, state: RaftLogState)

  datatype SM = SM(log: LogMap, cache: Cache, state: RaftLogState)

  function Fresh(maxItems: nat, capacity: nat): SM {
    SM(map[], Cache(maxItems, capacity, 0, [], None), DEFAULT_STATE)
  }

  /** The index map after a record stored at `segment` of `chunk`. */
  function LogStep(log: LogMap, rec: Record, chunk: nat, segment: nat): LogMap {
    match rec
    case Act(Append(id, _)) => log[id.index := LogData(id, chunk, segment)]
    case Act(TruncateAfter(keep)) => map i | i in log && i < NextIndex(keep) :: log[i]
    case Act(PurgeUpto(id)) => map i | i in log && id.index < i :: log[i]
    case _ => log
  }

  function CacheStep(c: Cache, rec: Record): Cache {
    match rec
    case Act(Append(id, payload)) => InsertAndEvict(c, id, payload)
    case Act(TruncateAfter(keep)) => if keep.Some? then TruncatedAfter(c, keep.value) else Cleared(c)
    case Act(PurgeUpto(id)) => PurgedUpto(c, id)
    case _ => c
  }

  /** The map and the cache move before the state decides, as in the source; a rejection
      that comes this late does not undo them. */
  function Applied(sm: SM, rec: Record, chunk: nat, segment: nat): (SM, Result<(), Error>) {
    var check := Check(sm.state, rec);
    (SM(LogStep(sm.log, rec, chunk, segment),
        CacheStep(sm.cache, rec),
        if check.Ok? then Next(sm.state, rec) else sm.state),
     check)
  }

  /** The two ends of the log decide whether a checkpoint describes it. */
  predicate DescribesEnds(first: LogId, lastHeld: LogId, s: RaftLogState) {
    && first.index == NextIndex(s.purged)
    && OptLess(s.purged, Some(first))
    && Some(lastHeld) == s.last
  }

  // ---- the window ----

  predicate Live(log: LogMap, id: LogId) {
    id.index in log && log[id.index].id == id
  }

  ghost predicate InRange(m: Machine) {
    forall i <- m.log :: m.log[i].id.index == i && NextIndex(m.state.purged) <= i < NextIndex(m.state.last)
  }

  ghost predicate AbovePurged(m: Machine) {
    forall i <- m.log :: OptLess(m.state.purged, Some(m.log[i].id))
  }

  ghost predicate Gapless(m: Machine) {
    forall i, j :: i in m.log && i <= j < NextIndex(m.state.last) ==> j in m.log
  }

  ghost predicate Ascending(log: LogMap) {
    forall i, j :: i in log && j in log && i < j ==> Less(log[i].id, log[j].id)
  }

  ghost predicate EndsAtLast(m: Machine) {
    if m.log == map[] then m.state.last == m.state.purged
    else m.state.last.Some? && Live(m.log, m.state.last.value)
  }

  /** The log map is one run of indices with strictly increasing ids, all of it above
      `purged`, ending at `last`. */
  ghost predicate Window(m: Machine) {
    Bounded(m.state) && InRange(m) && AbovePurged(m) && Gapless(m) && Ascending(m.log) && EndsAtLast(m)
  }

  /** What a caller owes a purge that is not a no-op: the entries it leaves are above it in
      both orders, and if it leaves none of them it reaches `last` in both. */
  ghost predicate CoherentPurge(m: Machine, upto: LogId) {
    && (forall i <- m.log :: upto.index < i ==> Less(upto, m.log[i].id))
    && (m.log != map[] && (forall i <- m.log :: i <= upto.index) ==> OptLeq(m.state.last, Some(upto)))
  }

  /** What a caller owes `update_state` beyond the check that it runs itself. That `last` does
      not fall keeps every cached key at or below it. */
  ghost predicate CoherentUpdate(m: Machine, s: RaftLogState) {
    && Bounded(s)
    && (m.log == map[] ==> s.last == s.purged && OptLeq(m.state.last, s.last))
  }

  predicate IsEnds(keys: set<nat>, lo: nat, hi: nat) {
    lo in keys && hi in keys && forall i <- keys :: lo <= i <= hi
  }

  /** A non-empty log is compared with the checkpoint at its two ends; an empty log matches any. */
  ghost predicate CheckpointFits(m: Machine, s: RaftLogState) {
    m.log != map[] ==>
      exists lo, hi :: IsEnds(m.log.Keys, lo, hi) && DescribesEnds(m.log[lo].id, m.log[hi].id, s)
  }

  /** The log is exactly the entries the state calls present: those in `(purged, last]`. */
  ghost predicate Describes(log: LogMap, s: RaftLogState) {
    && s.last.Some?
    && Live(log, s.last.value)
    && (forall i :: i in log <==> NextIndex(s.purged) <= i <= s.last.value.index)
    && (forall i <- log :: OptLess(s.purged, Some(log[i].id)))
  }

  /** The records that the store's operations may put in the log, given what callers owe. */
  ghost predicate Admissible(m: Machine, rec: Record) {
    && Accepts(m.state, rec)
    && match rec
       case Act(TruncateAfter(keep)) => keep == m.state.purged || (keep.Some? && Live(m.log, keep.value))
       case Act(PurgeUpto(id)) => NextIndex(m.state.purged) <= id.index && CoherentPurge(m, id)
       case Checkpoint(s) => KeepsOrder(m.state, rec) || (CheckpointFits(m, s) && CoherentUpdate(m, s))
       case _ => true
  }

  function StepMachine(m: Machine, rec: Record, chunk: nat, segment: nat): Machine {
    Machine(LogStep(m.log, rec, chunk, segment), Next(m.state, rec))
  }

  lemma WindowAppend(m: Machine, rec: Record, chunk: nat, segment: nat)
    requires Window(m) && Admissible(m, rec) && rec.Act? && rec.action.Append?
    ensures Window(StepMachine(m, rec, chunk, segment))
  {
    assert rec.action.id.index in LogStep(m.log, rec, chunk, segment);
  }

  lemma WindowTruncate(m: Machine, rec: Record, chunk: nat, segment: nat)
    requires Window(m) && Admissible(m, rec) && rec.Act? && rec.action.TruncateAfter?
    ensures Window(StepMachine(m, rec, chunk, segment))
  {
    var keep := rec.action.keep;
    if keep != m.state.purged {
      assert keep.value.index in LogStep(m.log, rec, chunk, segment);
    }
  }

  lemma WindowPurge(m: Machine, rec: Record, chunk: nat, segment: nat)
    requires Window(m) && Admissible(m, rec) && rec.Act? && rec.action.PurgeUpto?
    ensures Window(StepMachine(m, rec, chunk, segment))
  {
    var upto := rec.action.id;
    if m.log != map[] && upto.index < m.state.last.value.index {
      assert m.state.last.value.index in LogStep(m.log, rec, chunk, segment);
    }
  }

  /** The source lets any purge through, and the window survives exactly the coherent ones. */
  lemma PurgeExactly(m: Machine, upto: LogId, chunk: nat, segment: nat)
    requires Window(m) && NextIndex(m.state.purged) <= upto.index
    ensures Window(StepMachine(m, Act(PurgeUpto(upto)), chunk, segment)) <==> CoherentPurge(m, upto)
  {
    var t := StepMachine(m, Act(PurgeUpto(upto)), chunk, segment);
    if CoherentPurge(m, upto) {
      WindowPurge(m, Act(PurgeUpto(upto)), chunk, segment);
    } else if i :| i in m.log && upto.index < i && !Less(upto, m.log[i].id) {
      assert i in t.log;
    }
  }

  /** A purge that names the index of an entry with a higher term is accepted, and `last`
      becomes an id that no entry has. */
  lemma ConflictingPurge()
    ensures exists m: Machine, upto: LogId :: Window(m) && upto.index in m.log && m.log[upto.index].id != upto
                              && Accepts(m.state, Act(PurgeUpto(upto)))
                              && !Window(StepMachine(m, Act(PurgeUpto(upto)), 0, 0))
  {
    var a, b, upto := LogId(1, 0), LogId(1, 1), LogId(2, 0);
    var m := Machine(map[0 := LogData(a, 0, 1), 1 := LogData(b, 0, 2)], DEFAULT_STATE.(last := Some(b)));
    assert b.index in m.log && upto.index in m.log;
    PurgeExactly(m, upto, 0, 0);
  }

  lemma WindowEnds(m: Machine, lo: nat, hi: nat)
    requires Window(m) && IsEnds(m.log.Keys, lo, hi)
    ensures hi == m.state.last.value.index
    ensures forall i :: i in m.log <==> lo <= i <= hi
    ensures forall i <- m.log :: Leq(m.log[lo].id, m.log[i].id)
  {
  }

  /** On a window, looking at the two ends decides the whole log: the test accepts a state
      exactly when the state's `(purged, last]` is the log the store holds. */
  lemma TwoEndpoints(m: Machine, s: RaftLogState)
    requires Window(m) && m.log != map[]
    ensures CheckpointFits(m, s) <==> Describes(m.log, s)
  {
    if CheckpointFits(m, s) {
      var lo, hi :| IsEnds(m.log.Keys, lo, hi) && DescribesEnds(m.log[lo].id, m.log[hi].id, s);
      WindowEnds(m, lo, hi);
    }
    if Describes(m.log, s) {
      var lo, hi := NextIndex(s.purged), s.last.value.index;
      assert IsEnds(m.log.Keys, lo, hi);
      assert DescribesEnds(m.log[lo].id, m.log[hi].id, s);
    }
  }

  lemma WindowCheckpoint(m: Machine, s: RaftLogState)
    requires Window(m) && Admissible(m, Checkpoint(s))
    ensures Window(Machine(m.log, s))
  {
    if m.log != map[] && !KeepsOrder(m.state, Checkpoint(s)) {
      TwoEndpoints(m, s);
    }
  }

  /** A state that passes the check leaves a window exactly if it is bounded and, on an empty
      log, claims no entries. The check looks at neither. */
  lemma UpdateExactly(m: Machine, s: RaftLogState)
    requires Window(m) && CheckpointFits(m, s)
    ensures Window(Machine(m.log, s)) <==> Bounded(s) && (m.log == map[] ==> s.last == s.purged)
  {
    if m.log != map[] {
      TwoEndpoints(m, s);
    }
  }

  lemma WindowStep(m: Machine, rec: Record, chunk: nat, segment: nat)
    requires Window(m) && Admissible(m, rec)
    ensures Window(StepMachine(m, rec, chunk, segment))
  {
    match rec
    case Act(Append(_, _)) => WindowAppend(m, rec, chunk, segment);
    case Act(TruncateAfter(_)) => WindowTruncate(m, rec, chunk, segment);
    case Act(PurgeUpto(_)) => WindowPurge(m, rec, chunk, segment);
    case Checkpoint(s) => WindowCheckpoint(m, s);
    case _ =>
  }

  lemma KeysHaveEnds(keys: set<nat>)
    requires keys != {}
    ensures exists lo, hi :: IsEnds(keys, lo, hi)
  {
    var k :| k in keys;
    var rest := keys - {k};
    if rest == {} {
      assert keys == {k};
      assert IsEnds(keys, k, k);
    } else {
      KeysHaveEnds(rest);
      var lo, hi :| IsEnds(rest, lo, hi);
      assert keys == rest + {k};
      assert IsEnds(keys, if k < lo then k else lo, if hi < k then k else hi);
    }
  }

  /** A non-empty log is compared with the checkpoint at its first and its last key. */
  ghost function CheckpointCheck(log: LogMap, s: RaftLogState): Result<(), Error> {
    if log == map[] then Ok(())
    else
      KeysHaveEnds(log.Keys);
      var lo, hi :| IsEnds(log.Keys, lo, hi);
      if DescribesEnds(log[lo].id, log[hi].id, s) then Ok(())
      else Err(CheckpointLogMismatch(log[lo].id, log[hi].id, s.purged, s.last))
  }

  lemma CheckpointCheckFits(m: Machine, s: RaftLogState)
    ensures CheckpointCheck(m.log, s).Ok? <==> CheckpointFits(m, s)
  {
    if m.log != map[] {
      KeysHaveEnds(m.log.Keys);
    }
  }

  /** The state machine object. The cache is shared with the thread that moves the eviction boundary. */
  class RaftLogStateMachine {
    var log: LogMap
    const cache: PayloadCache
    const cell: RaftLogStateCell

    ghost predicate Valid()
      reads this, cache
    {
      cache.Valid() && forall i <- log :: log[i].id.index == i
    }

    function Value(): SM
      reads this, cache, cell
    {
      SM(log, cache.Value(), cell.Value())
    }

    constructor (maxItems: nat, capacity: nat)
      ensures Valid() && Value() == Fresh(maxItems, capacity)
      ensures fresh(cache) && fresh(cell)
    {
      log := map[];
      cache := new PayloadCache(maxItems, capacity);
      cell := new RaftLogStateCell();
    }

    /** Gives the answer that `Apply` will give, wherever the record gets stored, without
        changing anything. */
    method Check(rec: Record) returns (r: Result<(), Error>)
      ensures forall chunk: nat, segment: nat :: Applied(Value(), rec, chunk, segment).1 == r
      ensures Bounded(cell.Value()) && rec.Act? ==>
                (r.Ok? <==> && Forward(cell.Value(), Next(cell.Value(), rec))
                            && (rec.action.Append? ==> CanFollow(cell.last, rec.action.id)))
    {
      if Bounded(cell.Value()) && rec.Act? {
        AcceptsExactly(cell.Value(), rec.action);
      }
      r := LogState.Check(cell.Value(), rec);
    }

    method CheckCheckpoint(s: RaftLogState) returns (r: Result<(), Error>)
      ensures r == CheckpointCheck(log, s)
    {
      if log == map[] {
        return Ok(());
      }
      KeysHaveEnds(log.Keys);
      var lo, hi :| lo in log.Keys && hi in log.Keys && IsEnds(log.Keys, lo, hi);
      if DescribesEnds(log[lo].id, log[hi].id, s) {
        r := Ok(());
      } else {
        r := Err(CheckpointLogMismatch(log[lo].id, log[hi].id, s.purged, s.last));
      }
    }

    method Apply(rec: Record, chunk: nat, segment: nat) returns (r: Result<(), Error>)
      requires Valid()
      modifies this`log, cache, cell
      ensures Valid() && cache.lastEvictable == old(cache.lastEvictable)
      ensures (Value(), r) == Applied(old(Value()), rec, chunk, segment)
    {
      match rec {
        case Act(Append(id, payload)) =>
          log := log[id.index := LogData(id, chunk, segment)];
          cache.Insert(id, payload);
        case Act(TruncateAfter(keep)) =>
          log := map i | i in log && i < NextIndex(keep) :: log[i];
          if keep.Some? {
            cache.TruncateAfter(keep.value);
          } else {
            cache.Clear();
          }
        case Act(PurgeUpto(id)) =>
          log := map i | i in log && id.index < i :: log[i];
          cache.PurgeUpto(id);
        case _ =>
      }
      assert log == LogStep(old(log), rec, chunk, segment);
      assert cache.Value() == CacheStep(old(cache.Value()), rec);
      r := cell.Apply(rec);
      assert cache.Value() == CacheStep(old(cache.Value()), rec);
    }
  }
}
