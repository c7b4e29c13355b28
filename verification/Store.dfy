/** The store on values: chunk files, the requests queued for the flush worker, the state
    machine and the chunks waiting for removal, and every operation on them.
    The log files are used through their contract only: an open file that grows, closed
    files that are read-only, a first-in first-out worker, and files that are unlinked whole. */
module Stores {
  import opened RaftTypes
  import opened LogState
  import opened PayloadCaches
  import opened StateMachines
  import opened Histories

  /** A chunk file. Its id is the offset of its first record in the record stream. */
  datatype File = File(id: nat, recs: seq<Record>)

  /** What memory keeps of a closed chunk: its id and the state reached at its end. */
  datatype ClosedChunk = ClosedChunk(id: nat, state: RaftLogState)

  datatype Request = Write(upto: nat, sync: bool) | RemoveChunks(ids: seq<nat>)

  datatype Wal = Wal(
    older: seq<File>,
    open: File,
    closed: seq<ClosedChunk>,
    queue: seq<Request>,
    written: nat,
    synced: nat)

  /** `isFull` is the chunk rotation policy, whatever it is. */
  datatype Config = Config(maxItems: nat, capacity: nat, isFull: seq<Record> -> bool)

  datatype Store = Store(cfg: Config, wal: Wal, sm: SM, removed: seq<nat>)

  // ---- the log files ----

  function Files(w: Wal): seq<File> {
    w.older + [w.open]
  }

  function EndOffset(w: Wal): nat {
    w.open.id + |w.open.recs|
  }

  function LastSegment(w: Wal): int {
    EndOffset(w) - 1
  }

  function AppendRecord(w: Wal, rec: Record): Wal {
    w.(open := w.open.(recs := w.open.recs + [rec]))
  }

  /** The open chunk becomes read-only and its file is queued for a sync; the next chunk
      starts with a checkpoint of the state reached. */
  function Rotate(w: Wal, state: RaftLogState): Wal {
    w.(older := w.older + [w.open],
       open := File(EndOffset(w), [Checkpoint(state)]),
       closed := w.closed + [ClosedChunk(w.open.id, state)],
       queue := w.queue + [Write(EndOffset(w), true)])
  }

  function SendPending(w: Wal, sync: bool): Wal {
    w.(queue := w.queue + [Write(EndOffset(w), sync)])
  }

  function SendRemoveChunks(w: Wal, ids: seq<nat>): Wal {
    w.(queue := w.queue + [RemoveChunks(ids)])
  }

  /** How many of the oldest closed chunks end with `last` at or below the boundary. */
  function DrainCount(closed: seq<ClosedChunk>, boundary: Option<LogId>): (n: nat)
    ensures n <= |closed|
  {
    if closed != [] && OptLeq(closed[0].state.last, boundary) then 1 + DrainCount(closed[1..], boundary) else 0
  }

  function ChunkIds(closed: seq<ClosedChunk>): seq<nat> {
    seq(|closed|, k requires 0 <= k < |closed| => closed[k].id)
  }

  function FileIds(files: seq<File>): seq<nat> {
    seq(|files|, k requires 0 <= k < |files| => files[k].id)
  }

  function Load(files: seq<File>, chunk: nat, segment: nat): Option<Record> {
    if files == [] then None
    else if files[0].id == chunk then
      if chunk <= segment < chunk + |files[0].recs| then Some(files[0].recs[segment - chunk]) else None
    else Load(files[1..], chunk, segment)
  }

  function Unlink(files: seq<File>, id: nat): seq<File> {
    if files == [] then []
    else if files[0].id == id then files[1..]
    else [files[0]] + Unlink(files[1..], id)
  }

  // ---- the writer interface ----

  /** Moves the closed chunks that hold only purged entries to `removed`. */
  function Buffer(s: Store): Store {
    if s.sm.state.purged.None? then s
    else
      var n := DrainCount(s.wal.closed, s.sm.state.purged);
      s.(removed := s.removed + ChunkIds(s.wal.closed[..n]), wal := s.wal.(closed := s.wal.closed[n..]))
  }

  function CloseIfFull(s: Store): Store {
    if s.cfg.isFull(s.wal.open.recs) then Buffer(s.(wal := Rotate(s.wal, s.sm.state))) else s
  }

  function Push(s: Store, rec: Record): (Store, Result<(), Error>) {
    var w := AppendRecord(s.wal, rec);
    var (sm, r) := Applied(s.sm, rec, w.open.id, EndOffset(w) - 1);
    (s.(wal := w, sm := sm), r)
  }

  function AppendAndApply(s: Store, rec: Record): (Store, Result<int, Error>) {
    match Check(s.sm.state, rec)
    case Err(e) => (s, Err(e))
    case Ok(_) =>
      var (t, r) := Push(s, rec);
      match r
      case Err(e) => (t, Err(e))
      case Ok(_) =>
        var u := CloseIfFull(t);
        (u, Ok(LastSegment(u.wal)))
  }

  function SaveUserData(s: Store, data: Option<Bytes>): (Store, Result<int, Error>) {
    AppendAndApply(s, Checkpoint(s.sm.state.(userData := data)))
  }

  /** Entries go in one by one; the first rejection ends the batch. */
  function AppendAll(s: Store, entries: seq<Entry>): (Store, Result<int, Error>)
    decreases |entries|
  {
    if entries == [] then (s, Ok(LastSegment(s.wal)))
    else
      var (t, r) := AppendAndApply(s, Act(Append(entries[0].id, entries[0].payload)));
      if r.Err? then (t, r) else AppendAll(t, entries[1..])
  }

  /** The id that a truncation at `index` keeps: `purged` right above it, otherwise the entry below. */
  function KeptBy(s: Store, index: U64): Result<Option<LogId>, Error> {
    if index == NextIndex(s.sm.state.purged) then Ok(s.sm.state.purged)
    else if index == 0 then Err(LogIndexNotFound(index))
    else if index - 1 in s.sm.log then Ok(Some(s.sm.log[index - 1].id))
    else Err(LogIndexNotFound(index - 1))
  }

  function Truncate(s: Store, index: U64): (Store, Result<int, Error>) {
    match KeptBy(s, index)
    case Err(e) => (s, Err(e))
    case Ok(keep) => AppendAndApply(s, Act(TruncateAfter(keep)))
  }

  function Purge(s: Store, upto: LogId): (Store, Result<int, Error>) {
    if upto.index < NextIndex(s.sm.state.purged) then (s, Ok(LastSegment(s.wal)))
    else
      var (t, r) := AppendAndApply(s, Act(PurgeUpto(upto)));
      if r.Err? then (t, r) else (Buffer(t), r)
  }

  ghost function UpdateState(s: Store, state: RaftLogState): (Store, Result<int, Error>) {
    match CheckpointCheck(s.sm.log, state)
    case Err(e) => (s, Err(e))
    case Ok(_) => AppendAndApply(s, Checkpoint(state))
  }

  function Flush(s: Store, sync: bool): Store {
    var w := SendPending(s.wal, sync);
    if sync && s.removed != [] then s.(wal := SendRemoveChunks(w, s.removed), removed := [])
    else s.(wal := w)
  }

  // ---- reading ----

  /** The files up to offset `cut`: later records are gone, and so is a file without a
      complete first record. */
  function CutFiles(files: seq<File>, cut: nat): seq<File> {
    if files == [] || cut <= files[0].id then []
    else
      var f := files[0];
      [if cut < f.id + |f.recs| then f.(recs := f.recs[..cut - f.id]) else f] + CutFiles(files[1..], cut)
  }

  /** What the worker has written to the files so far. */
  function OnFile(w: Wal): seq<File> {
    CutFiles(Files(w), w.written)
  }

  /** A miss reads the file, where records that wait for the worker are not yet. `None` stands
      for a record that cannot be loaded, or that is not an `Append`. */
  function ReadOne(s: Store, d: LogData): Option<Entry> {
    match Lookup(s.sm.cache.items, d.id)
    case Some(payload) => Some(Entry(d.id, payload))
    case None =>
      match Load(OnFile(s.wal), d.chunk, d.segment)
      case Some(Act(Append(_, payload))) => Some(Entry(d.id, payload))
      case _ => None
  }

  function Read(s: Store, from: nat, to: nat): seq<Option<Entry>>
    decreases to - from
  {
    if to <= from then []
    else (if from in s.sm.log then [ReadOne(s, s.sm.log[from])] else []) + Read(s, from + 1, to)
  }

  /** The entries of the simple log with index in `[from, to)`, ascending. */
  function Slice(entries: map<nat, Entry>, from: nat, to: nat): seq<Entry>
    decreases to - from
  {
    if to <= from then []
    else (if from in entries then [entries[from]] else []) + Slice(entries, from + 1, to)
  }

  // ---- the flush worker ----

  /** One step: a write, an unlink of the first chunk of a removal, or the end of a removal. */
  function WorkerStep(s: Store): Store {
    if s.wal.queue == [] then s
    else
      var w, rest := s.wal, s.wal.queue[1..];
      match w.queue[0]
      case Write(upto, sync) =>
        s.(wal := w.(queue := rest,
                     written := Max(w.written, upto),
                     synced := if sync then Max(w.synced, upto) else w.synced))
      case RemoveChunks(ids) =>
        if ids == [] then s.(wal := w.(queue := rest))
        else s.(wal := w.(queue := [RemoveChunks(ids[1..])] + rest, older := Unlink(w.older, ids[0])))
  }

  function Max(a: nat, b: nat): nat {
    if a < b then b else a
  }

  // ---- crash and open ----

  function Place(f: File): History {
    seq(|f.recs|, k requires 0 <= k < |f.recs| => Placed(f.recs[k], f.id))
  }

  function Flatten(files: seq<File>): History {
    if files == [] then [] else Place(files[0]) + Flatten(files[1..])
  }

  /** Non-empty files, each starting where the one before it ends. */
  predicate Adjacent(files: seq<File>, at: nat) {
    files == []
    || (files[0].id == at && files[0].recs != [] && Adjacent(files[1..], at + |files[0].recs|))
  }

  /** Replay applies each record where it was stored. Before a chunk after the first one is
      replayed, everything before it is on disk, so the eviction boundary moves up to it. */
  function Replay(cfg: Config, d: History, base: nat): Result<SM, Error> {
    if d == [] then Ok(Fresh(cfg.maxItems, cfg.capacity))
    else
      match Replay(cfg, Init(d), base)
      case Err(e) => Err(e)
      case Ok(sm) =>
        var at, x := base + |d| - 1, Final(d);
        var (next, r) := Applied(if x.chunk == at && base < at then Rebound(sm) else sm, x.rec, x.chunk, at);
        if r.Err? then Err(r.error) else Ok(next)
  }

  function Rebound(sm: SM): SM {
    sm.(cache := sm.cache.(lastEvictable := sm.state.last))
  }

  function ClosedOf(files: seq<File>): seq<ClosedChunk> {
    seq(|files|, k requires 0 <= k < |files| => ClosedChunk(files[k].id, StateThrough(files, k + 1)))
  }

  /** The state that replaying the first `n` files reaches. */
  function StateThrough(files: seq<File>, n: nat): RaftLogState
    requires n <= |files|
  {
    StateOf(Flatten(files[..n]))
  }

  function FirstWal(): Wal {
    Wal([], File(0, [Checkpoint(DEFAULT_STATE)]), [], [], 0, 0)
  }

  /** Opens what is on disk. The last file goes on as the open chunk (`reuse`), or is closed
      and a new chunk starts behind it. */
  function Open(cfg: Config, files: seq<File>, synced: nat, reuse: bool): Result<Store, Error> {
    if files == [] then Ok(Store(cfg, FirstWal(), Fresh(cfg.maxItems, cfg.capacity), []))
    else if !Adjacent(files, files[0].id) then Err(ChunkGap)
    else
      match Replay(cfg, Flatten(files), files[0].id)
      case Err(e) => Err(e)
      case Ok(sm) =>
        var w := OpenedWal(files, synced);
        Ok(Buffer(Store(cfg, if reuse then w else Rotate(w, sm.state).(queue := []), sm, [])))
  }

  function OpenedWal(files: seq<File>, synced: nat): Wal
    requires files != []
  {
    var n, last := |files| - 1, Final(files);
    Wal(files[..n], last, ClosedOf(files)[..n], [], last.id + |last.recs|, synced)
  }
}
