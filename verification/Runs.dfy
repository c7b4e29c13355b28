/** Runs of the store: writer calls, worker steps, boundary moves, and crashes followed by an
    open, in any order; and what holds in every state they reach. */
module Runs {
  import opened RaftTypes
  import opened LogState
  import opened StateMachines
  import opened Histories
  import opened Stores
  import opened Invariants
  import opened Recovery

  datatype Step =
    | DoSaveUserData(data: Option<Bytes>)
    | DoSaveVote(vote: Vote)
    | DoAppend(entries: seq<Entry>)
    | DoTruncate(index: U64)
    | DoPurge(upto: LogId)
    | DoCommit(id: LogId)
    | DoUpdateState(state: RaftLogState)
    | DoFlush(sync: bool)
    | DoWorker
    | DoBoundary(chunk: nat)
    | DoDrain
    | DoCrash(cfg: Config, cut: nat, reuse: bool)

  function MachineIn(s: Store): Machine {
    Machine(s.sm.log, s.sm.state)
  }

  /** What the environment owes: coherent purges and updates, boundary moves to synced chunk
      ends, and crashes that lose nothing synced. */
  ghost predicate Enabled(y: System, step: Step) {
    match step
    case DoPurge(upto) => NextIndex(y.store.sm.state.purged) <= upto.index ==> CoherentPurge(MachineIn(y.store), upto)
    case DoUpdateState(s) => CoherentUpdate(MachineIn(y.store), s)
    case DoBoundary(e) => y.reported < e < |Hist(y)| && Hist(y)[e].chunk == e && e <= y.store.wal.synced
    case DoCrash(_, cut, _) => y.store.wal.synced <= cut <= |Hist(y)|
    case _ => true
  }

  /** The writer call of a step, on the store. */
  ghost function Call(s: Store, step: Step): (Store, Result<int, Error>) {
    match step
    case DoSaveUserData(data) => SaveUserData(s, data)
    case DoSaveVote(vote) => AppendAndApply(s, Act(SaveVote(vote)))
    case DoAppend(entries) => AppendAll(s, entries)
    case DoTruncate(index) => Truncate(s, index)
    case DoPurge(upto) => Purge(s, upto)
    case DoCommit(id) => AppendAndApply(s, Act(Commit(id)))
    case DoUpdateState(state) => UpdateState(s, state)
    case DoFlush(sync) => (Flush(s, sync), Ok(0))
    case _ => (s, Ok(0))
  }

  ghost function Take(y: System, step: Step): System {
    match step
    case DoWorker => WorkerMoves(y)
    case DoBoundary(e) => if e <= |Hist(y)| then MoveBoundary(y, e) else y
    case DoDrain => y.(store := DrainCache(y.store))
    case DoCrash(cfg, cut, reuse) => Reopened(y, cfg, cut, reuse)
    case _ => y.(store := Call(y.store, step).0)
  }

  function Start(cfg: Config): System {
    System(Store(cfg, FirstWal(), Fresh(cfg.maxItems, cfg.capacity), []), [], 0, 0)
  }

  ghost predicate Legal(y: System, steps: seq<Step>)
    decreases |steps|
  {
    steps == [] || (Enabled(y, steps[0]) && Legal(Take(y, steps[0]), steps[1..]))
  }

  ghost function After(y: System, steps: seq<Step>): System
    decreases |steps|
  {
    if steps == [] then y else After(Take(y, steps[0]), steps[1..])
  }

  lemma RunCons(y: System, step: Step, rest: seq<Step>)
    ensures Legal(y, [step] + rest) <==> Enabled(y, step) && Legal(Take(y, step), rest)
    ensures After(y, [step] + rest) == After(Take(y, step), rest)
  {
    assert ([step] + rest)[1..] == rest;
  }

  ghost predicate Reachable(y: System) {
    exists cfg, steps :: Legal(Start(cfg), steps) && y == After(Start(cfg), steps)
  }

  // ---- every step keeps the invariant ----

  lemma MemoryMachine(y: System)
    requires Inv(y)
    ensures MachineIn(y.store) == MachineOf(Hist(y)) && Window(MachineIn(y.store))
  {
    WindowHolds(Hist(y));
  }

  /** `g` extends `h` by what a crash-free step may write. */
  ghost predicate Grows(h: History, g: History) {
    |h| <= |g| && g[..|h|] == h
  }

  lemma AppendedGrows(h: History, g: History, rec: Record)
    requires Appended(h, g, rec)
    ensures Grows(h, g)
  {
  }

  lemma GrowsTrans(f: History, g: History, h: History)
    requires Grows(f, g) && Grows(g, h)
    ensures Grows(f, h)
  {
    assert h[..|f|] == h[..|g|][..|f|];
  }

  lemma RecordKeeps(y: System, rec: Record)
    requires Inv(y) && (Accepts(y.store.sm.state, rec) ==> Admissible(MachineOf(Hist(y)), rec))
    ensures var z := y.(store := AppendAndApply(y.store, rec).0); Inv(z) && Grows(Hist(y), Hist(z))
  {
    AppendAndApplyKeeps(y, rec);
    var (t, r) := AppendAndApply(y.store, rec);
    if r.Ok? {
      AppendedGrows(Hist(y), Hist(y.(store := t)), rec);
    }
  }

  lemma {:induction false} AppendAllKeeps(y: System, entries: seq<Entry>)
    requires Inv(y)
    ensures var z := y.(store := AppendAll(y.store, entries).0); Inv(z) && Grows(Hist(y), Hist(z))
    decreases |entries|
  {
    if entries != [] {
      var rec := Act(Append(entries[0].id, entries[0].payload));
      MemoryMachine(y);
      RecordKeeps(y, rec);
      var (t, r) := AppendAndApply(y.store, rec);
      if r.Ok? {
        var z := y.(store := t);
        AppendAllKeeps(z, entries[1..]);
        GrowsTrans(Hist(y), Hist(z), Hist(y.(store := AppendAll(y.store, entries).0)));
      }
    }
  }

  lemma TruncateKeeps(y: System, index: U64)
    requires Inv(y)
    ensures var z := y.(store := Truncate(y.store, index).0); Inv(z) && Grows(Hist(y), Hist(z))
  {
    MemoryMachine(y);
    var kept := KeptBy(y.store, index);
    if kept.Ok? {
      RecordKeeps(y, Act(TruncateAfter(kept.value)));
    }
  }

  lemma PurgeKeeps(y: System, upto: LogId)
    requires Inv(y) && Enabled(y, DoPurge(upto))
    ensures var z := y.(store := Purge(y.store, upto).0); Inv(z) && Grows(Hist(y), Hist(z))
  {
    MemoryMachine(y);
    if NextIndex(y.store.sm.state.purged) <= upto.index {
      RecordKeeps(y, Act(PurgeUpto(upto)));
      BufferKeeps(y.(store := AppendAndApply(y.store, Act(PurgeUpto(upto))).0));
    }
  }

  lemma UpdateKeeps(y: System, state: RaftLogState)
    requires Inv(y) && Enabled(y, DoUpdateState(state))
    ensures var z := y.(store := UpdateState(y.store, state).0); Inv(z) && Grows(Hist(y), Hist(z))
  {
    MemoryMachine(y);
    CheckpointCheckFits(MachineIn(y.store), state);
    if CheckpointCheck(y.store.sm.log, state).Ok? {
      RecordKeeps(y, Checkpoint(state));
    }
  }

  lemma CallKeeps(y: System, step: Step)
    requires Inv(y) && Enabled(y, step)
    requires !step.DoWorker? && !step.DoBoundary? && !step.DoDrain? && !step.DoCrash?
    ensures Inv(Take(y, step)) && Grows(Hist(y), Hist(Take(y, step)))
  {
    match step
    case DoSaveUserData(data) => MemoryMachine(y); RecordKeeps(y, Checkpoint(y.store.sm.state.(userData := data)));
    case DoSaveVote(vote) => RecordKeeps(y, Act(SaveVote(vote)));
    case DoAppend(entries) => AppendAllKeeps(y, entries);
    case DoTruncate(index) => TruncateKeeps(y, index);
    case DoPurge(upto) => PurgeKeeps(y, upto);
    case DoCommit(id) => RecordKeeps(y, Act(Commit(id)));
    case DoUpdateState(state) => UpdateKeeps(y, state);
    case DoFlush(sync) => FlushKeeps(y, sync);
  }

  predicate IsBackground(step: Step) {
    step.DoWorker? || step.DoBoundary? || step.DoDrain?
  }

  /** What the other threads do leaves the stream as it is. */
  lemma BackgroundKeeps(y: System, step: Step)
    requires Inv(y) && Enabled(y, step) && IsBackground(step)
    ensures Inv(Take(y, step)) && Hist(Take(y, step)) == Hist(y)
  {
    match step
    case DoWorker => WorkerKeeps(y);
    case DoBoundary(e) => BoundaryKeeps(y, e);
    case DoDrain => DrainKeeps(y);
  }

  lemma StepKeeps(y: System, step: Step)
    requires Inv(y) && Enabled(y, step)
    ensures Inv(Take(y, step))
    ensures !step.DoCrash? ==> Grows(Hist(y), Hist(Take(y, step)))
    ensures step.DoCrash? ==> CutBack(Hist(y), Hist(Take(y, step)), step.cut)
  {
    if step.DoCrash? {
      OpenKeeps(y, step.cfg, step.cut, step.reuse);
    } else if IsBackground(step) {
      BackgroundKeeps(y, step);
    } else {
      CallKeeps(y, step);
    }
  }

  lemma {:induction false} RunKeeps(y: System, steps: seq<Step>)
    requires Inv(y) && Legal(y, steps)
    ensures Inv(After(y, steps))
    decreases |steps|
  {
    if steps != [] {
      StepKeeps(y, steps[0]);
      RunKeeps(Take(y, steps[0]), steps[1..]);
    }
  }

  lemma {:induction false} BackgroundRunKeeps(y: System, steps: seq<Step>)
    requires Inv(y) && Legal(y, steps) && forall step <- steps :: IsBackground(step)
    ensures Inv(After(y, steps)) && Hist(After(y, steps)) == Hist(y)
    decreases |steps|
  {
    if steps != [] {
      BackgroundKeeps(y, steps[0]);
      BackgroundRunKeeps(Take(y, steps[0]), steps[1..]);
    }
  }

  lemma ReachableInv(y: System)
    requires Reachable(y)
    ensures Inv(y)
  {
    var cfg, steps :| Legal(Start(cfg), steps) && y == After(Start(cfg), steps);
    FirstOpen(cfg, Start(cfg));
    RunKeeps(Start(cfg), steps);
  }

  lemma {:induction false} RunConcat(y: System, a: seq<Step>, b: seq<Step>)
    ensures Legal(y, a + b) <==> Legal(y, a) && Legal(After(y, a), b)
    ensures After(y, a + b) == After(After(y, a), b)
    decreases |a|
  {
    if a == [] {
      assert a + b == b;
    } else {
      var x, rest := a[0], a[1..];
      assert a == [x] + rest && a + b == [x] + (rest + b);
      RunConcat(Take(y, x), rest, b);
      RunCons(y, x, rest);
      RunCons(y, x, rest + b);
    }
  }

  lemma RunSnoc(y: System, steps: seq<Step>, step: Step)
    requires Legal(y, steps) && Enabled(After(y, steps), step)
    ensures Legal(y, steps + [step]) && After(y, steps + [step]) == Take(After(y, steps), step)
  {
    RunConcat(y, steps, [step]);
    assert [step] + [] == [step];
    RunCons(After(y, steps), step, []);
  }

  lemma ReachesStart(cfg: Config)
    ensures Reachable(Start(cfg))
  {
    assert Legal(Start(cfg), []) && After(Start(cfg), []) == Start(cfg);
  }

  lemma ReachesNext(y: System, step: Step)
    requires Reachable(y) && Enabled(y, step)
    ensures Reachable(Take(y, step))
  {
    var cfg, steps :| Legal(Start(cfg), steps) && y == After(Start(cfg), steps);
    RunSnoc(Start(cfg), steps, step);
    assert Legal(Start(cfg), steps + [step]);
  }

  /** Some reachable system has this store, and chunks reported up to this offset. */
  ghost predicate Reaches(s: Store, reported: nat) {
    exists y :: Reachable(y) && y.store == s && y.reported == reported
  }

  predicate IsCall(step: Step) {
    !IsBackground(step) && !step.DoCrash?
  }

  lemma CallReaches(s: Store, reported: nat, step: Step, t: Store)
    requires Reaches(s, reported) && IsCall(step) && t == Call(s, step).0
    requires step.DoPurge? ==> CoherentPurge(MachineIn(s), step.upto)
    requires step.DoUpdateState? ==> CoherentUpdate(MachineIn(s), step.state)
    ensures Reaches(t, reported)
  {
    var y :| Reachable(y) && y.store == s && y.reported == reported;
    ReachesNext(y, step);
  }

  lemma WorkerReaches(s: Store, reported: nat)
    requires Reaches(s, reported)
    ensures Reaches(WorkerStep(s), reported)
  {
    var y :| Reachable(y) && y.store == s && y.reported == reported;
    ReachesNext(y, DoWorker);
  }
}
