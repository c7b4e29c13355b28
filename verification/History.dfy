/** The record stream of a store: every record it ever accepted, in order, each with the
    chunk it was written to. A chunk is named by the offset of its first record.
    Everything a store knows is a fold over this stream, so "at time n" is `h[..n]`. */
module Histories {
  import opened RaftTypes
  import opened LogState
  import opened StateMachines

  datatype Placed = Placed(rec: Record, chunk: nat)

  type History = seq<Placed>

  function Init<T>(h: seq<T>): seq<T>
    requires h != []
  {
    h[..|h| - 1]
  }

  function Final<T>(h: seq<T>): T
    requires h != []
  {
    h[|h| - 1]
  }

  function StateOf(h: History): RaftLogState {
    if h == [] then DEFAULT_STATE else Next(StateOf(Init(h)), Final(h).rec)
  }

  /** The log map built from records that start at offset `base`. */
  function LogFrom(h: History, base: nat): LogMap {
    if h == [] then map[] else LogStep(LogFrom(Init(h), base), Final(h).rec, Final(h).chunk, base + |h| - 1)
  }

  function LogOf(h: History): LogMap {
    LogFrom(h, 0)
  }

  function MachineOf(h: History): Machine {
    Machine(LogOf(h), StateOf(h))
  }

  /** `x` may follow `h`: it opens a chunk with a checkpoint of the state reached, or it is
      an admissible record in the open chunk. */
  ghost predicate Follows(h: History, x: Placed) {
    || (x.chunk == |h| && x.rec == Checkpoint(StateOf(h)))
    || (h != [] && x.chunk == Final(h).chunk && Admissible(MachineOf(h), x.rec))
  }

  ghost predicate Legit(h: History) {
    h == [] || (Legit(Init(h)) && Follows(Init(h), Final(h)))
  }

  predicate Starts(h: History, p: nat) {
    p == |h| || (p < |h| && h[p].chunk == p)
  }

  // ---- prefixes ----

  lemma Snoc(h: History, x: Placed)
    ensures Init(h + [x]) == h && Final(h + [x]) == x
  {
  }

  lemma {:induction false} LegitPrefix(h: History, n: nat)
    requires Legit(h) && n <= |h|
    ensures Legit(h[..n])
  {
    if n == |h| {
      assert h[..n] == h;
    } else {
      LegitPrefix(Init(h), n);
      assert Init(h)[..n] == h[..n];
    }
  }

  lemma FollowsAt(h: History, n: nat)
    requires Legit(h) && n < |h|
    ensures Follows(h[..n], h[n])
  {
    LegitPrefix(h, n + 1);
    assert Init(h[..n + 1]) == h[..n];
  }

  lemma {:induction false} ChunkOrder(h: History, i: nat, j: nat)
    requires Legit(h) && i <= j < |h|
    ensures h[i].chunk <= h[j].chunk <= j
    ensures Starts(h, h[j].chunk)
  {
    var g, x := Init(h), Final(h);
    if j < |g| {
      ChunkOrder(g, i, j);
    } else if x.chunk == |g| {
      if i < j {
        ChunkOrder(g, i, i);
      }
    } else {
      ChunkOrder(g, if i < j then i else j - 1, j - 1);
    }
  }

  lemma ChunksAscend(h: History)
    requires Legit(h)
    ensures forall i, j :: 0 <= i <= j < |h| ==> h[i].chunk <= h[j].chunk <= j
    ensures forall i :: 0 <= i < |h| ==> Starts(h, h[i].chunk)
  {
    forall i, j | 0 <= i <= j < |h| ensures h[i].chunk <= h[j].chunk <= j && Starts(h, h[j].chunk) {
      ChunkOrder(h, i, j);
    }
    forall i | 0 <= i < |h| ensures Starts(h, h[i].chunk) {
      ChunkOrder(h, i, i);
    }
  }

  lemma {:induction false} WindowHolds(h: History)
    requires Legit(h)
    ensures Window(MachineOf(h))
  {
    if h != [] {
      var g, x := Init(h), Final(h);
      WindowHolds(g);
      if !Admissible(MachineOf(g), x.rec) {
        assert KeepsOrder(StateOf(g), x.rec);
      }
      WindowStep(MachineOf(g), x.rec, x.chunk, |g|);
    }
  }

  /** The payload of the record that a log entry points to. */
  function PayloadAt(h: History, segment: nat): Bytes {
    if segment < |h| && h[segment].rec.Act? && h[segment].rec.action.Append?
    then h[segment].rec.action.payload
    else []
  }

  /** Each location holds the `Append` of that same id, in that chunk. */
  ghost predicate Sourced(h: History, d: LogData) {
    && d.segment < |h|
    && h[d.segment] == Placed(Act(Append(d.id, PayloadAt(h, d.segment))), d.chunk)
  }

  lemma {:induction false} EntriesSourced(h: History)
    ensures forall i <- LogOf(h) :: Sourced(h, LogOf(h)[i])
  {
    if h != [] {
      var g := Init(h);
      EntriesSourced(g);
      forall i <- LogOf(h) ensures Sourced(h, LogOf(h)[i]) {
        if i in LogOf(g) && LogOf(h)[i] == LogOf(g)[i] {
          assert Sourced(g, LogOf(g)[i]);
          assert h[LogOf(g)[i].segment] == g[LogOf(g)[i].segment];
        }
      }
    }
  }

  // ---- replaying from a later chunk ----

  function Since(log: LogMap, p: nat): LogMap {
    map i | i in log && p <= log[i].chunk :: log[i]
  }

  lemma SinceStep(log: LogMap, rec: Record, chunk: nat, segment: nat, p: nat)
    requires p <= chunk
    ensures LogStep(Since(log, p), rec, chunk, segment) == Since(LogStep(log, rec, chunk, segment), p)
  {
  }

  lemma NothingSince(h: History, p: nat)
    requires Legit(h) && |h| <= p
    ensures Since(LogOf(h), p) == map[]
  {
    EntriesSourced(h);
    ChunksAscend(h);
    forall i <- LogOf(h) ensures LogOf(h)[i].chunk < p {
      assert Sourced(h, LogOf(h)[i]);
    }
  }

  /** Replaying from chunk `p` gives the live log restricted to entries of chunk `p` and
      later, after every record: the two runs never disagree on anything else. */
  lemma {:induction false} SuffixLog(h: History, p: nat)
    requires Legit(h) && p <= |h| && Starts(h, p)
    ensures LogFrom(h[p..], p) == Since(LogOf(h), p)
  {
    if |h| == p {
      NothingSince(h, p);
    } else {
      var g, x := Init(h), Final(h);
      ChunksAscend(h);
      assert h[p].chunk <= x.chunk;
      SuffixLog(g, p);
      assert Init(h[p..]) == g[p..] && Final(h[p..]) == x;
      SinceStep(LogOf(g), x.rec, x.chunk, |g|, p);
    }
  }

  lemma {:induction false} SuffixState(h: History, p: nat)
    requires Legit(h) && p < |h| && h[p].chunk == p
    ensures StateOf(h[p..]) == StateOf(h)
  {
    FollowsAt(h, p);
    var g := Init(h);
    assert Init(h[p..]) == g[p..] && Final(h[p..]) == Final(h);
    if |h| == p + 1 {
      assert g[p..] == [];
      if p > 0 {
        ChunksAscend(h);
        assert h[p - 1].chunk <= p - 1;
      }
      assert h[..p] == g;
      assert h[p].rec == Checkpoint(StateOf(g));
    } else {
      SuffixState(g, p);
    }
  }

  /** One record adds at most one entry, in its own chunk. */
  lemma LogGrowth(h: History)
    requires h != []
    ensures forall i <- LogOf(h) ::
              LogOf(h)[i].chunk == Final(h).chunk || (i in LogOf(Init(h)) && LogOf(h)[i] == LogOf(Init(h))[i])
  {
  }

  // ---- chunks that hold nothing live ----

  /** No live entry points into chunk `q` or an earlier one, and `q` is closed. */
  ghost predicate Dead(h: History, q: nat) {
    h != [] && q < Final(h).chunk && forall i <- LogOf(h) :: q < LogOf(h)[i].chunk
  }

  /** An entry of a chunk closed at `e` is at or below the `last` of the closing checkpoint. */
  lemma {:induction false} TrailBound(h: History, e: nat)
    requires Legit(h) && e <= |h| && Starts(h, e)
    ensures forall i <- LogOf(h) :: LogOf(h)[i].chunk < e ==>
              OptLeq(Some(LogOf(h)[i].id), StateOf(h[..e]).last)
  {
    if |h| == e {
      assert h[..e] == h;
      WindowHolds(h);
      var m := MachineOf(h);
      forall i <- m.log ensures OptLeq(Some(m.log[i].id), m.state.last) {
        assert i == m.state.last.value.index || Less(m.log[i].id, m.state.last.value);
      }
    } else {
      var g := Init(h);
      ChunksAscend(h);
      assert Starts(g, e);
      TrailBound(g, e);
      assert g[..e] == h[..e];
      LogGrowth(h);
      assert h[e].chunk <= Final(h).chunk;
    }
  }

  /** A closed chunk whose closing checkpoint has `last <= purged` holds nothing live. */
  lemma ObsoleteIsDead(h: History, q: nat, e: nat)
    requires Legit(h) && q < e < |h| && h[e].chunk == e
    requires OptLeq(StateOf(h[..e]).last, StateOf(h).purged)
    ensures Dead(h, q)
  {
    TrailBound(h, e);
    WindowHolds(h);
    ChunksAscend(h);
    var m := MachineOf(h);
    forall i <- m.log ensures e <= m.log[i].chunk {
      assert OptLess(m.state.purged, Some(m.log[i].id));
    }
  }

  lemma DeadStep(h: History, x: Placed, q: nat)
    requires Legit(h + [x]) && Dead(h, q)
    ensures Dead(h + [x], q)
  {
    Snoc(h, x);
    LogGrowth(h + [x]);
    ChunksAscend(h + [x]);
    assert (h + [x])[|h| - 1] == Final(h);
  }

  /** Once nothing live is left in a closed chunk, nothing ever is. */
  lemma {:induction false} DeadForever(h: History, n: nat, q: nat)
    requires Legit(h) && n <= |h| && Dead(h[..n], q)
    ensures Dead(h, q)
  {
    if n == |h| {
      assert h[..n] == h;
    } else {
      var g := Init(h);
      assert g[..n] == h[..n];
      DeadForever(g, n, q);
      assert h == g + [Final(h)];
      DeadStep(g, Final(h), q);
    }
  }

  // ---- the store as one simple log ----

  /** What the store means: its state, and an index map of `(id, payload)`. No chunks, no
      cache, no locations. */
  datatype View = View(state: RaftLogState, entries: map<nat, Entry>)

  function EntryStep(entries: map<nat, Entry>, rec: Record): map<nat, Entry> {
    match rec
    case Act(Append(id, payload)) => entries[id.index := Entry(id, payload)]
    case Act(TruncateAfter(keep)) => map i | i in entries && i < NextIndex(keep) :: entries[i]
    case Act(PurgeUpto(id)) => map i | i in entries && id.index < i :: entries[i]
    case _ => entries
  }

  function EntriesOf(h: History): map<nat, Entry> {
    if h == [] then map[] else EntryStep(EntriesOf(Init(h)), Final(h).rec)
  }

  function ViewOf(h: History): View {
    View(StateOf(h), EntriesOf(h))
  }

  /** The entries that an index map and the records behind it stand for. */
  function Resolve(log: LogMap, h: History): map<nat, Entry> {
    map i | i in log :: Entry(log[i].id, PayloadAt(h, log[i].segment))
  }

  lemma ResolveExtends(log: LogMap, g: History, h: History)
    requires g <= h && forall i <- log :: log[i].segment < |g|
    ensures Resolve(log, g) == Resolve(log, h)
  {
  }

  lemma ResolveStep(log: LogMap, h: History, x: Placed, segment: nat)
    requires segment < |h| && h[segment] == x
    ensures Resolve(LogStep(log, x.rec, x.chunk, segment), h) == EntryStep(Resolve(log, h), x.rec)
  {
  }

  lemma SegmentsBelow(h: History)
    ensures forall i <- LogOf(h) :: LogOf(h)[i].segment < |h|
  {
    EntriesSourced(h);
    forall i <- LogOf(h) ensures LogOf(h)[i].segment < |h| {
      assert Sourced(h, LogOf(h)[i]);
    }
  }

  /** The map of locations, read through the records, is the simple log. */
  lemma {:induction false} LogResolves(h: History)
    ensures Resolve(LogOf(h), h) == EntriesOf(h)
  {
    if h != [] {
      var g := Init(h);
      LogResolves(g);
      SegmentsBelow(g);
      ResolveExtends(LogOf(g), g, h);
      ResolveStep(LogOf(g), h, Final(h), |g|);
    }
  }
}
