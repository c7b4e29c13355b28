/** The store object. Each method is the source's step-by-step code, proved to do what the
    corresponding operation on values does. */
module RaftLogs {
  import opened RaftTypes
  import opened StateMachines
  import opened Histories
  import opened Stores
  import opened ChunkFiles
  import opened Invariants
  import opened Recovery
  import opened Guarantees

  lemma {:induction false} RejectionSticks(cfg: Config, d: History, n: nat, base: nat)
    requires n <= |d| && Replay(cfg, d[..n], base).Err?
    ensures Replay(cfg, d, base) == Replay(cfg, d[..n], base)
  {
    if n == |d| {
      assert d[..n] == d;
    } else {
      assert Init(d)[..n] == d[..n];
      RejectionSticks(cfg, Init(d), n, base);
    }
  }

  /** File `k` starts where the files before it end, and together they begin the stream. */
  lemma FileRead(files: seq<File>, k: nat)
    requires k < |files| && Adjacent(files, files[0].id)
    ensures var d := Flatten(files[..k]);
            && files[k].id == files[0].id + |d|
            && (d != [] <==> k > 0)
            && Flatten(files[..k + 1]) == d + Place(files[k])
            && d + Place(files[k]) <= Flatten(files)
  {
    FilesBefore(files, files[0].id, k);
    assert files[..k + 1] == files[..k] + [files[k]];
    FlattenConcat(files[..k], [files[k]]);
    FlattenOne(files[k]);
    assert files == files[..k + 1] + files[k + 1..];
    FlattenConcat(files[..k + 1], files[k + 1..]);
    if k > 0 {
      assert Flatten(files[..k]) == Place(files[0]) + Flatten(files[..k][1..]);
    }
  }

  /** Replays the first `r` records of a file; `rebound` says that a chunk came before it. */
  function ReplayHead(sm: SM, f: File, rebound: bool, r: nat): Result<SM, Error>
    requires r <= |f.recs|
  {
    if r == 0 then Ok(sm)
    else
      match ReplayHead(sm, f, rebound, r - 1)
      case Err(e) => Err(e)
      case Ok(t) => ReplayOne(t, rebound && r == 1, Placed(f.recs[r - 1], f.id), f.id + r - 1)
  }

  lemma {:induction false} HeadRejected(sm: SM, f: File, rebound: bool, r: nat, n: nat)
    requires r <= n <= |f.recs| && ReplayHead(sm, f, rebound, r).Err?
    ensures ReplayHead(sm, f, rebound, n) == ReplayHead(sm, f, rebound, r)
  {
    if r < n {
      HeadRejected(sm, f, rebound, r, n - 1);
    }
  }

  /** Replaying file by file is replaying the stream. */
  lemma {:induction false} HeadReplays(cfg: Config, d: History, base: nat, f: File, r: nat, sm: SM)
    requires r <= |f.recs| && f.id == base + |d| && Replay(cfg, d, base) == Ok(sm)
    ensures Replay(cfg, d + Place(f)[..r], base) == ReplayHead(sm, f, d != [], r)
  {
    if r == 0 {
      assert d + Place(f)[..0] == d;
    } else {
      HeadReplays(cfg, d, base, f, r - 1, sm);
      var g, x := d + Place(f)[..r - 1], Placed(f.recs[r - 1], f.id);
      assert d + Place(f)[..r] == g + [x];
      match ReplayHead(sm, f, d != [], r - 1)
      case Ok(t) => ReplaySnoc(cfg, g, x, base, t);
      case Err(_) => Snoc(g, x);
    }
  }

  lemma StreamReplays(cfg: Config, files: seq<File>, k: nat, sm: SM)
    requires k < |files| && Adjacent(files, files[0].id)
    requires Replay(cfg, Flatten(files[..k]), files[0].id) == Ok(sm)
    ensures var r := ReplayHead(sm, files[k], k > 0, |files[k].recs|);
            if r.Ok? then Replay(cfg, Flatten(files[..k + 1]), files[0].id) == r
            else Replay(cfg, Flatten(files), files[0].id) == r
  {
    var d, f, base := Flatten(files[..k]), files[k], files[0].id;
    FileRead(files, k);
    HeadReplays(cfg, d, base, f, |f.recs|, sm);
    assert Place(f)[..|f.recs|] == Place(f);
    if ReplayHead(sm, f, k > 0, |f.recs|).Err? {
      assert Flatten(files)[..|d + Place(f)|] == d + Place(f);
      RejectionSticks(cfg, Flatten(files), |d + Place(f)|, base);
    }
  }

  lemma ClosedGrows(files: seq<File>, k: nat)
    requires k < |files|
    ensures ClosedOf(files)[..k + 1] == ClosedOf(files)[..k] + [ClosedChunk(files[k].id, StateThrough(files, k + 1))]
  {
  }

  lemma FileReplays(cfg: Config, files: seq<File>, k: nat, sm: SM)
    requires k < |files| && Adjacent(files, files[0].id)
    requires Replay(cfg, Flatten(files[..k]), files[0].id) == Ok(sm)
    ensures match ReplayHead(sm, files[k], k > 0, |files[k].recs|)
            case Ok(t) =>
              && Replay(cfg, Flatten(files[..k + 1]), files[0].id) == Ok(t)
              && ClosedOf(files)[..k + 1] == ClosedOf(files)[..k] + [ClosedChunk(files[k].id, t.state)]
            case Err(e) => Replay(cfg, Flatten(files), files[0].id) == Err(e)
  {
    StreamReplays(cfg, files, k, sm);
    ClosedGrows(files, k);
    if ReplayHead(sm, files[k], k > 0, |files[k].recs|).Ok? {
      ReplayState(cfg, Flatten(files[..k + 1]), files[0].id);
    }
  }

  lemma ReadMore(s: Store, i: nat, to: nat, out: seq<Option<Entry>>)
    requires i < to
    ensures out + Stores.Read(s, i, to) ==
              (if i in s.sm.log then out + [ReadOne(s, s.sm.log[i])] else out) + Stores.Read(s, i + 1, to)
  {
  }

  lemma ReadFits(s: Store, from: nat, to: nat)
    ensures forall y :: Inv(y) && y.store == s ==>
              (Stores.Read(s, from, to) == Found(Slice(EntriesOf(Hist(y)), from, to)) <==> AllInReach(s, from, to))
  {
    forall y | Inv(y) && y.store == s
      ensures Stores.Read(s, from, to) == Found(Slice(EntriesOf(Hist(y)), from, to)) <==> AllInReach(s, from, to)
    {
      ReadSlices(y, from, to);
    }
  }

  class RaftLog {
    const cfg: Config
    var wal: Wal
    const sm: RaftLogStateMachine
    var removedChunks: seq<nat>

    ghost predicate Valid()
      reads this, sm, sm.cache
    {
      sm.Valid()
    }

    function Value(): Store
      reads this, sm, sm.cache, sm.cell
    {
      Store(cfg, wal, sm.Value(), removedChunks)
    }

    constructor (cfg: Config, wal: Wal, sm: RaftLogStateMachine)
      requires sm.Valid()
      ensures Valid() && Value() == Store(cfg, wal, sm.Value(), []) && this.sm == sm
    {
      this.cfg, this.wal, this.sm, removedChunks := cfg, wal, sm, [];
    }

    /** Replays one record. At the start of a chunk after the first one, everything replayed
        so far is on disk, and the eviction boundary moves up to it. */
    static method ReplayRecord(sm: RaftLogStateMachine, rebound: bool, rec: Record, chunk: nat, segment: nat)
      returns (r: Result<(), Error>)
      requires sm.Valid()
      modifies sm`log, sm.cache, sm.cell
      ensures sm.Valid()
      ensures ReplayOne(old(sm.Value()), rebound, Placed(rec, chunk), segment) ==
                if r.Ok? then Ok(sm.Value()) else Err(r.error)
    {
      if rebound {
        var last := sm.cell.last;
        sm.cache.SetLastEvictable(last);
      }
      r := sm.Apply(rec, chunk, segment);
    }

    static method ReplayFile(sm: RaftLogStateMachine, f: File, rebound: bool) returns (r: Result<(), Error>)
      requires sm.Valid()
      modifies sm`log, sm.cache, sm.cell
      ensures sm.Valid()
      ensures ReplayHead(old(sm.Value()), f, rebound, |f.recs|) == if r.Ok? then Ok(sm.Value()) else Err(r.error)
    {
      for j := 0 to |f.recs|
        invariant sm.Valid() && ReplayHead(old(sm.Value()), f, rebound, j) == Ok(sm.Value())
      {
        r := ReplayRecord(sm, rebound && j == 0, f.recs[j], f.id, f.id + j);
        if r.Err? {
          HeadRejected(old(sm.Value()), f, rebound, j + 1, |f.recs|);
          return;
        }
      }
      r := Ok(());
    }

    /** Replays the files in order; the first rejected record ends the attempt. */
    static method Replay(cfg: Config, files: seq<File>, sm: RaftLogStateMachine)
      returns (r: Result<seq<ClosedChunk>, Error>)
      requires sm.Valid() && sm.Value() == Fresh(cfg.maxItems, cfg.capacity)
      requires files != [] && Adjacent(files, files[0].id)
      modifies sm`log, sm.cache, sm.cell
      ensures sm.Valid()
      ensures r.Err? ==> Stores.Replay(cfg, Flatten(files), files[0].id) == Err(r.error)
      ensures r.Ok? ==> Stores.Replay(cfg, Flatten(files), files[0].id) == Ok(sm.Value()) && r.value == ClosedOf(files)
    {
      var closed := [];
      assert files[..0] == [];
      for k := 0 to |files|
        invariant sm.Valid() && Stores.Replay(cfg, Flatten(files[..k]), files[0].id) == Ok(sm.Value())
        invariant closed == ClosedOf(files)[..k]
      {
        FileReplays(cfg, files, k, sm.Value());
        var replayed := ReplayFile(sm, files[k], k > 0);
        if replayed.Err? {
          return Err(replayed.error);
        }
        closed := closed + [ClosedChunk(files[k].id, sm.cell.Value())];
      }
      assert files[..|files|] == files;
      r := Ok(closed);
    }

    /** Opens what is on disk, or starts an empty store. */
    static method Open(cfg: Config, files: seq<File>, synced: nat, reuse: bool) returns (r: Result<RaftLog, Error>)
      ensures r.Ok? ==>
                fresh(r.value) && r.value.Valid() && Stores.Open(cfg, files, synced, reuse) == Ok(r.value.Value())
      ensures r.Err? ==> Stores.Open(cfg, files, synced, reuse) == Err(r.error)
    {
      var sm := new RaftLogStateMachine(cfg.maxItems, cfg.capacity);
      if files == [] {
        var first := new RaftLog(cfg, FirstWal(), sm);
        return Ok(first);
      }
      if !Adjacent(files, files[0].id) {
        return Err(ChunkGap);
      }
      var replayed := Replay(cfg, files, sm);
      if replayed.Err? {
        return Err(replayed.error);
      }
      var n := |files| - 1;
      var w := Wal(files[..n], files[n], replayed.value[..n], [], files[n].id + |files[n].recs|, synced);
      if !reuse {
        w := Rotate(w, sm.cell.Value()).(queue := []);
      }
      var log := new RaftLog(cfg, w, sm);
      log.BufferRemovableChunks();
      r := Ok(log);
    }

    method BufferRemovableChunks()
      requires Valid()
      modifies this
      ensures Valid() && Value() == Buffer(old(Value()))
    {
      var purged := sm.cell.purged;
      if purged.None? {
        return;
      }
      var n := 0;
      while n < |wal.closed| && OptLeq(wal.closed[n].state.last, purged)
        invariant n <= |wal.closed| && n + DrainCount(wal.closed[n..], purged) == DrainCount(wal.closed, purged)
      {
        assert wal.closed[n..][1..] == wal.closed[n + 1..];
        n := n + 1;
      }
      var drained := wal.closed[..n];
      wal := wal.(closed := wal.closed[n..]);
      ghost var before := removedChunks;
      for k := 0 to n
        invariant removedChunks == before + ChunkIds(drained[..k])
        invariant wal == old(wal).(closed := old(wal).closed[n..])
      {
        assert ChunkIds(drained[..k + 1]) == ChunkIds(drained[..k]) + [drained[k].id];
        removedChunks := removedChunks + [drained[k].id];
      }
      assert drained[..n] == drained;
    }

    method AppendAndApply(rec: Record) returns (r: Result<int, Error>)
      requires Valid()
      modifies this, sm`log, sm.cache, sm.cell
      ensures Valid() && (Value(), r) == Stores.AppendAndApply(old(Value()), rec)
    {
      var check := sm.Check(rec);
      assert Applied(sm.Value(), rec, 0, 0).1 == check;
      if check.Err? {
        return Err(check.error);
      }
      wal := AppendRecord(wal, rec);
      var applied := sm.Apply(rec, wal.open.id, EndOffset(wal) - 1);
      if applied.Err? {
        // A record that passed the check is never rejected here.
        assert false;
      }
      if cfg.isFull(wal.open.recs) {
        wal := Rotate(wal, sm.cell.Value());
        BufferRemovableChunks();
      }
      r := Ok(LastSegment(wal));
    }

    method SaveUserData(data: Option<Bytes>) returns (r: Result<int, Error>)
      requires Valid()
      modifies this, sm`log, sm.cache, sm.cell
      ensures Valid() && (Value(), r) == Stores.SaveUserData(old(Value()), data)
    {
      var state := sm.cell.Value().(userData := data);
      r := AppendAndApply(Checkpoint(state));
    }

    method SaveVote(vote: Vote) returns (r: Result<int, Error>)
      requires Valid()
      modifies this, sm`log, sm.cache, sm.cell
      ensures Valid() && (Value(), r) == Stores.AppendAndApply(old(Value()), Act(Action.SaveVote(vote)))
    {
      r := AppendAndApply(Act(Action.SaveVote(vote)));
    }

    method Commit(id: LogId) returns (r: Result<int, Error>)
      requires Valid()
      modifies this, sm`log, sm.cache, sm.cell
      ensures Valid() && (Value(), r) == Stores.AppendAndApply(old(Value()), Act(Action.Commit(id)))
    {
      r := AppendAndApply(Act(Action.Commit(id)));
    }

    /** Entries before the first rejected one stay. */
    method Append(entries: seq<Entry>) returns (r: Result<int, Error>)
      requires Valid()
      modifies this, sm`log, sm.cache, sm.cell
      ensures Valid() && (Value(), r) == AppendAll(old(Value()), entries)
    {
      for n := 0 to |entries|
        invariant Valid() && AppendAll(Value(), entries[n..]) == AppendAll(old(Value()), entries)
      {
        assert entries[n..][1..] == entries[n + 1..];
        r := AppendAndApply(Act(Action.Append(entries[n].id, entries[n].payload)));
        if r.Err? {
          return;
        }
      }
      r := Ok(LastSegment(wal));
    }

    /** Keeps the entries below `index`. */
    method Truncate(index: U64) returns (r: Result<int, Error>)
      requires Valid()
      modifies this, sm`log, sm.cache, sm.cell
      ensures Valid() && (Value(), r) == Stores.Truncate(old(Value()), index)
    {
      var keep := sm.cell.purged;
      if index != NextIndex(keep) {
        if index == 0 {
          return Err(LogIndexNotFound(index));
        }
        if index - 1 !in sm.log {
          return Err(LogIndexNotFound(index - 1));
        }
        keep := Some(sm.log[index - 1].id);
      }
      r := AppendAndApply(Act(TruncateAfter(keep)));
    }

    method Purge(upto: LogId) returns (r: Result<int, Error>)
      requires Valid()
      modifies this, sm`log, sm.cache, sm.cell
      ensures Valid() && (Value(), r) == Stores.Purge(old(Value()), upto)
    {
      if upto.index < NextIndex(sm.cell.purged) {
        return Ok(LastSegment(wal));
      }
      r := AppendAndApply(Act(PurgeUpto(upto)));
      if r.Ok? {
        BufferRemovableChunks();
      }
    }

    method UpdateState(state: RaftLogState) returns (r: Result<int, Error>)
      requires Valid()
      modifies this, sm`log, sm.cache, sm.cell
      ensures Valid() && (Value(), r) == Stores.UpdateState(old(Value()), state)
    {
      var check := sm.CheckCheckpoint(state);
      if check.Err? {
        return Err(check.error);
      }
      r := AppendAndApply(Checkpoint(state));
    }

    method Flush(sync: bool)
      requires Valid()
      modifies this
      ensures Valid() && Value() == Stores.Flush(old(Value()), sync)
    {
      wal := SendPending(wal, sync);
      if sync && removedChunks != [] {
        var ids := removedChunks;
        removedChunks := [];
        wal := SendRemoveChunks(wal, ids);
      }
    }

    /** From the cache if it is there, otherwise from its record. */
    method ReadEntry(d: LogData) returns (entry: Option<Entry>)
      requires Valid()
      ensures entry == ReadOne(Value(), d)
    {
      var cached := sm.cache.Get(d.id);
      if cached.Some? {
        return Some(Entry(d.id, cached.value));
      }
      var loaded := Load(OnFile(wal), d.chunk, d.segment);
      if loaded.Some? && loaded.value.Act? && loaded.value.action.Append? {
        return Some(Entry(d.id, loaded.value.action.payload));
      }
      entry := None;
    }

    /** Besides following the read on values, on every store that satisfies the invariant it
        returns exactly the entries of the simple log if and only if each of them is cached or
        written. */
    method Read(from: nat, to: nat) returns (out: seq<Option<Entry>>)
      requires Valid()
      ensures out == Stores.Read(Value(), from, to)
      ensures forall y :: Inv(y) && y.store == Value() ==>
                (out == Found(Slice(EntriesOf(Hist(y)), from, to)) <==> AllInReach(Value(), from, to))
    {
      out := [];
      var i := from;
      ghost var s := Value();
      while i < to
        invariant out + Stores.Read(s, i, to) == Stores.Read(s, from, to)
      {
        ReadMore(s, i, to, out);
        if i in sm.log {
          var entry := ReadEntry(sm.log[i]);
          out := out + [entry];
        }
        i := i + 1;
      }
      ReadFits(s, from, to);
    }

    method DrainCacheEvictable()
      requires Valid()
      modifies sm.cache
      ensures Valid() && Value() == DrainCache(old(Value()))
    {
      sm.cache.DrainEvictable();
    }

    /** The flush worker reports that the chunk before a checkpoint is on disk. */
    method OnChunkPersisted(checkpoint: RaftLogState)
      requires Valid()
      modifies sm.cache
      ensures Valid()
      ensures Value() == var s := old(Value()); s.(sm := s.sm.(cache := s.sm.cache.(lastEvictable := checkpoint.last)))
    {
      sm.cache.SetLastEvictable(checkpoint.last);
    }
  }
}
