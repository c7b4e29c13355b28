/** What the writer interface means on a simple log: a state, and one map from index to
    `(id, payload)`. No chunks, no locations, no cache, no worker. The store refines it. */
module SimpleLogs {
  import opened RaftTypes
  import opened LogState
  import opened StateMachines
  import opened Histories
  import opened CacheHistories
  import opened Stores
  import opened Invariants
  import opened Runs
  import opened Guarantees

  const EMPTY_LOG: View := View(RaftLogState(None, None, None, None, None), map[])

  function Below(entries: map<nat, Entry>, n: nat): map<nat, Entry> {
    map i | i in entries && i < n :: entries[i]
  }

  function From(entries: map<nat, Entry>, n: nat): map<nat, Entry> {
    map i | i in entries && n <= i :: entries[i]
  }

  type Outcome = Result<(), Error>

  /** What a call means: the log it leaves, and whether it is accepted or with which error not. */
  datatype Meaning = Meaning(view: View, outcome: Outcome)

  function Rejected(v: View, e: Error): Meaning {
    Meaning(v, Err(e))
  }

  function Accepted(v: View): Meaning {
    Meaning(v, Ok(()))
  }

  /** Why an id cannot be appended behind `last`. */
  function CannotFollow(last: LogId, id: LogId): Error {
    if Less(last, id) then LogIdNonConsecutive(Some(last), id) else LogIdReversal(last, id)
  }

  /** Entries go in while each one follows the one before it. */
  function AppendMeans(v: View, es: seq<Entry>): Meaning
    decreases |es|
  {
    if es == [] then Accepted(v)
    else if CanFollow(v.state.last, es[0].id) then
      AppendMeans(View(v.state.(last := Some(es[0].id)), v.entries[es[0].id.index := es[0]]), es[1..])
    else Rejected(v, CannotFollow(v.state.last.value, es[0].id))
  }

  /** The log must hold the entry below `index`, or have been purged right up to it; and
      nothing committed may go. */
  function TruncateMeans(v: View, index: U64): Meaning {
    if index == NextIndex(v.state.purged) then TruncatedTo(v, v.state.purged)
    else if index == 0 then Rejected(v, LogIndexNotFound(0))
    else if index - 1 in v.entries then TruncatedTo(v, Some(v.entries[index - 1].id))
    else Rejected(v, LogIndexNotFound(index - 1))
  }

  function TruncatedTo(v: View, keep: Option<LogId>): Meaning {
    if OptLeq(v.state.committed, keep) then Accepted(View(v.state.(last := keep), Below(v.entries, NextIndex(keep))))
    else Rejected(v, TruncateCommitted(v.state.committed.value, keep))
  }

  /** Purging past the end moves the end along. */
  function PurgeMeans(v: View, upto: LogId): Meaning {
    if upto.index < NextIndex(v.state.purged) then Accepted(v)
    else
      Accepted(View(v.state.(purged := OptMax(v.state.purged, Some(upto)),
                             last := OptMax(v.state.last, Some(upto))),
                    From(v.entries, upto.index + 1)))
  }

  /** The commit point does not go back, nor past the end of the log. */
  function CommitMeans(v: View, id: LogId): Meaning {
    if !OptLeq(v.state.committed, Some(id)) then Rejected(v, LogIdReversal(v.state.committed.value, id))
    else if !OptLeq(Some(id), v.state.last) then Rejected(v, CommitBeyondLast(v.state.last, id))
    else Accepted(v.(state := v.state.(committed := Some(id))))
  }

  /** The entries are those that the state calls present. */
  ghost predicate Present(entries: map<nat, Entry>, s: RaftLogState) {
    && s.last.Some?
    && LiveEntry(entries, s.last.value)
    && (forall i :: i in entries <==> NextIndex(s.purged) <= i <= s.last.value.index)
    && (forall i <- entries :: OptLess(s.purged, Some(entries[i].id)))
  }

  /** A state replaces the one there is if it describes the entries; no entries fit any state. */
  ghost function UpdateMeans(v: View, s: RaftLogState): Meaning {
    if v.entries == map[] || Present(v.entries, s) then Accepted(v.(state := s))
    else
      KeysHaveEnds(v.entries.Keys);
      var lo, hi :| IsEnds(v.entries.Keys, lo, hi);
      Rejected(v, CheckpointLogMismatch(v.entries[lo].id, v.entries[hi].id, s.purged, s.last))
  }

  ghost function Means(v: View, step: Step): Meaning {
    match step
    case DoSaveUserData(data) => Accepted(v.(state := v.state.(userData := data)))
    case DoSaveVote(vote) =>
      if VoteLeq(v.state.vote, Some(vote)) then Accepted(v.(state := v.state.(vote := Some(vote))))
      else Rejected(v, VoteReversal(v.state.vote.value, vote))
    case DoAppend(es) => AppendMeans(v, es)
    case DoTruncate(index) => TruncateMeans(v, index)
    case DoPurge(upto) => PurgeMeans(v, upto)
    case DoCommit(id) => CommitMeans(v, id)
    case DoUpdateState(s) => UpdateMeans(v, s)
    case _ => Accepted(v)
  }

  ghost function MeansAll(v: View, steps: seq<Step>): View
    decreases |steps|
  {
    if steps == [] then v else MeansAll(Means(v, steps[0]).view, steps[1..])
  }

  // ---- one record ----

  lemma AppendedView(h: History, g: History, rec: Record)
    requires Appended(h, g, rec)
    ensures ViewOf(g) == View(Next(StateOf(h), rec), EntryStep(EntriesOf(h), rec))
  {
    var x := Placed(rec, Final(h).chunk);
    Snoc(h, x);
    if g != h + [x] {
      Snoc(h + [x], Placed(Checkpoint(StateOf(h + [x])), |h| + 1));
    }
  }

  /** The outcome of a call, without the offset that an accepted one answers. */
  function OutcomeOf<T>(r: Result<T, Error>): Outcome {
    if r.Ok? then Ok(()) else Err(r.error)
  }

  function ViewStep(v: View, rec: Record): Meaning {
    Meaning(if Accepts(v.state, rec) then View(Next(v.state, rec), EntryStep(v.entries, rec)) else v,
            Check(v.state, rec))
  }

  /** A record goes in exactly when the state accepts it, and has its effect on the simple log. */
  lemma RecordRefines(y: System, rec: Record)
    requires Inv(y) && (Accepts(y.store.sm.state, rec) ==> Admissible(MachineOf(Hist(y)), rec))
    ensures var (t, r) := AppendAndApply(y.store, rec);
            Inv(y.(store := t)) && Meaning(ViewOf(Hist(y.(store := t))), OutcomeOf(r)) == ViewStep(ViewOf(Hist(y)), rec)
  {
    AppendAndApplyKeeps(y, rec);
    var (t, r) := AppendAndApply(y.store, rec);
    if r.Ok? {
      AppendedView(Hist(y), Hist(y.(store := t)), rec);
    }
  }

  // ---- each call ----

  lemma AppendStep(v: View, es: seq<Entry>)
    requires es != []
    ensures var m := ViewStep(v, Act(Append(es[0].id, es[0].payload)));
            AppendMeans(v, es) == if m.outcome.Ok? then AppendMeans(m.view, es[1..]) else m
  {
  }

  lemma {:induction false} AppendRefines(y: System, es: seq<Entry>)
    requires Inv(y)
    ensures var (t, r) := AppendAll(y.store, es);
            Meaning(ViewOf(Hist(y.(store := t))), OutcomeOf(r)) == AppendMeans(ViewOf(Hist(y)), es)
    decreases |es|
  {
    if es != [] {
      var rec := Act(Append(es[0].id, es[0].payload));
      RecordRefines(y, rec);
      AppendStep(ViewOf(Hist(y)), es);
      var z := y.(store := AppendAndApply(y.store, rec).0);
      if AppendAndApply(y.store, rec).1.Ok? {
        AppendRefines(z, es[1..]);
      }
    }
  }

  lemma TruncateStep(m: Machine, v: View, keep: Option<LogId>)
    requires Window(m) && Mirrors(m.log, v.entries) && m.state == v.state
    requires keep == m.state.purged || (keep.Some? && Live(m.log, keep.value))
    ensures ViewStep(v, Act(TruncateAfter(keep))) == TruncatedTo(v, keep)
  {
    if keep.Some? && Live(m.log, keep.value) {
      assert keep == m.state.last || Less(keep.value, m.log[m.state.last.value.index].id);
    }
  }

  lemma TruncateRefines(y: System, index: U64)
    requires Inv(y)
    ensures var (t, r) := Truncate(y.store, index);
            Meaning(ViewOf(Hist(y.(store := t))), OutcomeOf(r)) == TruncateMeans(ViewOf(Hist(y)), index)
  {
    MemoryMachine(y);
    LogMirrors(Hist(y));
    var kept := KeptBy(y.store, index);
    if kept.Ok? {
      TruncateStep(MachineIn(y.store), ViewOf(Hist(y)), kept.value);
      RecordRefines(y, Act(TruncateAfter(kept.value)));
      assert Truncate(y.store, index) == AppendAndApply(y.store, Act(TruncateAfter(kept.value)));
    }
  }

  lemma PurgeStep(v: View, upto: LogId)
    requires NextIndex(v.state.purged) <= upto.index
    ensures ViewStep(v, Act(PurgeUpto(upto))) == PurgeMeans(v, upto)
  {
    assert EntryStep(v.entries, Act(PurgeUpto(upto))) == From(v.entries, upto.index + 1);
  }

  lemma PurgeRefines(y: System, upto: LogId)
    requires Inv(y) && Enabled(y, DoPurge(upto))
    ensures var (t, r) := Purge(y.store, upto);
            Meaning(ViewOf(Hist(y.(store := t))), OutcomeOf(r)) == PurgeMeans(ViewOf(Hist(y)), upto)
  {
    MemoryMachine(y);
    LogMirrors(Hist(y));
    if NextIndex(y.store.sm.state.purged) <= upto.index {
      PurgeStep(ViewOf(Hist(y)), upto);
      RecordRefines(y, Act(PurgeUpto(upto)));
      BufferKeeps(y.(store := AppendAndApply(y.store, Act(PurgeUpto(upto))).0));
    }
  }

  /** The check of the two ends decides whether the entries are those the state calls present. */
  lemma UpdateChecks(m: Machine, entries: map<nat, Entry>, s: RaftLogState)
    requires Window(m) && Mirrors(m.log, entries)
    ensures CheckpointCheck(m.log, s).Ok? <==> CheckpointFits(m, s)
    ensures CheckpointFits(m, s) <==> entries == map[] || Present(entries, s)
  {
    CheckpointCheckFits(m, s);
    if m.log == map[] {
      assert entries == map[];
    } else {
      TwoEndpoints(m, s);
      assert entries != map[];
      assert Describes(m.log, s) <==> Present(entries, s);
    }
  }

  lemma EndsAreUnique(keys: set<nat>, lo: nat, hi: nat, l: nat, h: nat)
    requires IsEnds(keys, lo, hi) && IsEnds(keys, l, h)
    ensures lo == l && hi == h
  {
  }

  /** Both checks name the first and the last id there is. */
  lemma UpdateNames(log: LogMap, v: View, s: RaftLogState)
    requires Mirrors(log, v.entries) && CheckpointCheck(log, s).Err? && UpdateMeans(v, s).outcome.Err?
    ensures UpdateMeans(v, s) == Rejected(v, CheckpointCheck(log, s).error)
  {
    var lo, hi :| IsEnds(log.Keys, lo, hi) &&
      CheckpointCheck(log, s) == Err(CheckpointLogMismatch(log[lo].id, log[hi].id, s.purged, s.last));
    var l, h :| IsEnds(v.entries.Keys, l, h) &&
      UpdateMeans(v, s) == Rejected(v, CheckpointLogMismatch(v.entries[l].id, v.entries[h].id, s.purged, s.last));
    EndsAreUnique(log.Keys, lo, hi, l, h);
  }

  lemma UpdateRefines(y: System, s: RaftLogState)
    requires Inv(y) && Enabled(y, DoUpdateState(s))
    ensures var (t, r) := UpdateState(y.store, s);
            Meaning(ViewOf(Hist(y.(store := t))), OutcomeOf(r)) == UpdateMeans(ViewOf(Hist(y)), s)
  {
    MemoryMachine(y);
    LogMirrors(Hist(y));
    UpdateChecks(MachineIn(y.store), EntriesOf(Hist(y)), s);
    if CheckpointCheck(y.store.sm.log, s).Ok? {
      RecordRefines(y, Checkpoint(s));
    } else {
      UpdateNames(y.store.sm.log, ViewOf(Hist(y)), s);
    }
  }

  /** The record of a call that writes one record whatever the log holds. */
  function RecordOf(s: RaftLogState, step: Step): Record
    requires step.DoSaveUserData? || step.DoSaveVote? || step.DoCommit?
  {
    match step
    case DoSaveUserData(data) => Checkpoint(s.(userData := data))
    case DoSaveVote(vote) => Act(SaveVote(vote))
    case DoCommit(id) => Act(Commit(id))
  }

  lemma RecordMeans(v: View, step: Step)
    requires step.DoSaveUserData? || step.DoSaveVote? || step.DoCommit?
    ensures ViewStep(v, RecordOf(v.state, step)) == Means(v, step)
  {
  }

  lemma RecordCallRefines(y: System, step: Step)
    requires Inv(y) && (step.DoSaveUserData? || step.DoSaveVote? || step.DoCommit?)
    ensures var (t, r) := Call(y.store, step);
            Meaning(ViewOf(Hist(y.(store := t))), OutcomeOf(r)) == Means(ViewOf(Hist(y)), step)
  {
    var rec := RecordOf(y.store.sm.state, step);
    MemoryMachine(y);
    RecordMeans(ViewOf(Hist(y)), step);
    RecordRefines(y, rec);
    assert Call(y.store, step) == AppendAndApply(y.store, rec);
  }

  /** A call, a worker step, a boundary move or a cache drain has exactly the effect on the
      simple log that its meaning says, and is accepted exactly when its meaning says so. */
  lemma CallRefines(y: System, step: Step)
    requires Inv(y) && Enabled(y, step) && !step.DoCrash?
    ensures Meaning(ViewOf(Hist(Take(y, step))), OutcomeOf(Call(y.store, step).1)) == Means(ViewOf(Hist(y)), step)
  {
    match step
    case DoAppend(es) => AppendRefines(y, es);
    case DoTruncate(index) => TruncateRefines(y, index);
    case DoPurge(upto) => PurgeRefines(y, upto);
    case DoUpdateState(s) => UpdateRefines(y, s);
    case DoFlush(sync) => FlushKeeps(y, sync);
    case DoWorker => WorkerKeeps(y);
    case DoBoundary(e) => BoundaryKeeps(y, e);
    case DoDrain => DrainKeeps(y);
    case _ => RecordCallRefines(y, step);
  }

  lemma {:induction false} RunRefines(y: System, steps: seq<Step>)
    requires Inv(y) && Legal(y, steps) && CrashFree(steps)
    ensures ViewOf(Hist(After(y, steps))) == MeansAll(ViewOf(Hist(y)), steps)
    decreases |steps|
  {
    if steps != [] {
      CallRefines(y, steps[0]);
      StepKeeps(y, steps[0]);
      RunRefines(Take(y, steps[0]), steps[1..]);
    }
  }

  lemma StartHist(cfg: Config)
    ensures Hist(Start(cfg)) == [Placed(Checkpoint(DEFAULT_STATE), 0)]
  {
    Recovery.FirstStream(Start(cfg));
  }

  lemma StartInv(cfg: Config)
    ensures Inv(Start(cfg))
  {
    Recovery.FirstOpen(cfg, Start(cfg));
  }

  lemma StartView(cfg: Config)
    ensures ViewOf(Hist(Start(cfg))) == EMPTY_LOG
  {
    StartHist(cfg);
    FirstView(Placed(Checkpoint(DEFAULT_STATE), 0));
  }

  lemma FirstView(x: Placed)
    requires x.rec == Checkpoint(DEFAULT_STATE)
    ensures ViewOf([x]) == EMPTY_LOG
  {
    assert Init([x]) == [] && StateOf(Init([x])) == DEFAULT_STATE && EntriesOf(Init([x])) == map[];
  }

  lemma ViewReads(y: System, from: nat, to: nat)
    requires Inv(y)
    ensures var v := ViewOf(Hist(y));
            && y.store.sm.state == v.state
            && (Read(y.store, from, to) == Found(Slice(v.entries, from, to)) <==> AllInReach(y.store, from, to))
            && (Rising(Hist(y)) ==> AllInReach(y.store, from, to))
  {
    ReadSlices(y, from, to);
    if Rising(Hist(y)) {
      RisingInReach(y, from, to);
    }
  }

  /** From an empty store, whatever the cache limits, the rotation policy, the worker and the
      eviction boundary do in between: the state is that of the simple log, and so is every
      read of entries that are each cached or written, and no other; on a stream whose appends
      stay above the end of every closed chunk, every read. */
  lemma StoreIsASimpleLog(cfg: Config, steps: seq<Step>, from: nat, to: nat)
    requires Legal(Start(cfg), steps) && CrashFree(steps)
    ensures var y, v := After(Start(cfg), steps), MeansAll(EMPTY_LOG, steps);
            && y.store.sm.state == v.state
            && (Read(y.store, from, to) == Found(Slice(v.entries, from, to)) <==> AllInReach(y.store, from, to))
            && (Rising(Hist(y)) ==> Read(y.store, from, to) == Found(Slice(v.entries, from, to)))
  {
    StartInv(cfg);
    StartView(cfg);
    RunReads(Start(cfg), EMPTY_LOG, steps, from, to);
  }

  lemma RunReads(y: System, v: View, steps: seq<Step>, from: nat, to: nat)
    requires Inv(y) && Legal(y, steps) && CrashFree(steps) && v == ViewOf(Hist(y))
    ensures var z, u := After(y, steps), MeansAll(v, steps);
            && z.store.sm.state == u.state
            && (Read(z.store, from, to) == Found(Slice(u.entries, from, to)) <==> AllInReach(z.store, from, to))
            && (Rising(Hist(z)) ==> Read(z.store, from, to) == Found(Slice(u.entries, from, to)))
  {
    RunRefines(y, steps);
    RunKeeps(y, steps);
    ViewReads(After(y, steps), from, to);
  }

  lemma {:induction false} SameReads(s: Store, t: Store, from: nat, to: nat)
    requires t.sm.log == s.sm.log && t.sm.cache == s.sm.cache && OnFile(t.wal) == OnFile(s.wal)
    ensures Read(t, from, to) == Read(s, from, to)
    decreases if from < to then to - from else 0
  {
    if from < to {
      SameReads(s, t, from + 1, to);
    }
  }

  lemma {:induction false} CutBehind(files: seq<File>, tail: seq<File>, cut: nat)
    requires tail == [] || cut <= tail[0].id
    ensures CutFiles(files + tail, cut) == CutFiles(files, cut)
  {
    if files == [] {
      assert files + tail == tail;
    } else {
      assert (files + tail)[1..] == files[1..] + tail;
      CutBehind(files[1..], tail, cut);
    }
  }

  lemma {:induction false} CutBelow(files: seq<File>, open: File, recs: seq<Record>, cut: nat)
    requires cut <= open.id + |open.recs|
    ensures CutFiles(files + [open.(recs := open.recs + recs)], cut) == CutFiles(files + [open], cut)
  {
    var grown := open.(recs := open.recs + recs);
    if files == [] {
      assert files + [grown] == [grown] && files + [open] == [open];
      assert [grown][1..] == [] && [open][1..] == [];
      if open.id < cut {
        var n := cut - open.id;
        assert grown.recs[..n] == open.recs[..n];
        assert recs == [] ==> grown == open;
        assert n == |open.recs| ==> open.recs[..n] == open.recs;
        assert CutFiles([grown], cut) == [open.(recs := open.recs[..n])];
        assert CutFiles([open], cut) == [open.(recs := open.recs[..n])];
      }
    } else {
      assert (files + [grown])[1..] == files[1..] + [grown] && (files + [open])[1..] == files[1..] + [open];
      CutBelow(files[1..], open, recs, cut);
    }
  }

  /** A call leaves what has reached the files as it is. */
  lemma RecordOnFile(s: Store, rec: Record)
    requires s.wal.written <= EndOffset(s.wal)
    ensures OnFile(AppendAndApply(s, rec).0.wal) == OnFile(s.wal)
  {
    if Accepts(s.sm.state, rec) {
      var w, t := s.wal, Push(s, rec).0;
      CutBelow(w.older, w.open, [rec], w.written);
      var next := File(EndOffset(t.wal), [Checkpoint(t.sm.state)]);
      assert Files(Rotate(t.wal, t.sm.state)) == Files(t.wal) + [next];
      CutBehind(Files(t.wal), [next], w.written);
    }
  }

  /** An `update_state`, whatever state it is given, leaves every read as it was. */
  lemma UpdateLeavesReads(y: System, s: RaftLogState, from: nat, to: nat)
    requires Reachable(y)
    ensures Read(UpdateState(y.store, s).0, from, to) == Read(y.store, from, to)
  {
    ReachableInv(y);
    AtEnd(y);
    UpdateReads(y.store, s, from, to);
  }

  lemma UpdateReads(s: Store, state: RaftLogState, from: nat, to: nat)
    requires s.wal.written <= EndOffset(s.wal)
    ensures Read(UpdateState(s, state).0, from, to) == Read(s, from, to)
  {
    if CheckpointCheck(s.sm.log, state).Ok? {
      RecordOnFile(s, Checkpoint(state));
      SameReads(s, AppendAndApply(s, Checkpoint(state)).0, from, to);
    }
  }

  // ---- order and stability over runs of the writer interface ----

  ghost predicate NoStepBack(s: RaftLogState, t: RaftLogState) {
    && VoteLeq(s.vote, t.vote) && OptLeq(s.committed, t.committed) && OptLeq(s.purged, t.purged)
    && OptLeq(s.committed, t.last) && OptLeq(s.purged, t.last)
  }

  lemma NoStepBackTrans(s: RaftLogState, t: RaftLogState, u: RaftLogState)
    requires NoStepBack(s, t) && NoStepBack(t, u)
    ensures NoStepBack(s, u)
  {
  }

  /** A batch only adds entries, at indices that were free. */
  lemma {:induction false} AppendAdds(v: View, es: seq<Entry>)
    requires Bounded(v.state) && (forall i <- v.entries :: i < NextIndex(v.state.last))
    ensures var u := AppendMeans(v, es).view;
            && Bounded(u.state) && NoStepBack(v.state, u.state) && OptLeq(v.state.last, u.state.last)
            && (forall i <- v.entries :: i in u.entries && u.entries[i] == v.entries[i])
    decreases |es|
  {
    if es != [] && CanFollow(v.state.last, es[0].id) {
      var w := View(v.state.(last := Some(es[0].id)), v.entries[es[0].id.index := es[0]]);
      if v.state.last.None? {
        assert v.entries == map[];
      }
      AppendAdds(w, es[1..]);
      NoStepBackTrans(v.state, w.state, AppendMeans(v, es).view.state);
    }
  }

  predicate IsWriterStep(step: Step) {
    !step.DoUpdateState? && !step.DoCrash?
  }

  lemma TruncateOrder(m: Machine, v: View, index: U64)
    requires Window(m) && Mirrors(m.log, v.entries) && m.state == v.state
    ensures NoStepBack(v.state, TruncateMeans(v, index).view.state)
  {
    if 0 < index && index - 1 in v.entries {
      assert index - 1 in m.log;
    }
  }

  lemma PurgeOrder(m: Machine, v: View, upto: LogId)
    requires Window(m) && m.state == v.state
    requires NextIndex(m.state.purged) <= upto.index ==> CoherentPurge(m, upto)
    ensures var t := PurgeMeans(v, upto).view.state; NoStepBack(v.state, t) && OptLeq(v.state.last, t.last)
  {
    if NextIndex(m.state.purged) <= upto.index && Live(m.log, upto) {
      assert Some(upto) == m.state.last || Less(upto, m.log[m.state.last.value.index].id);
    }
  }

  lemma MeansOrder(m: Machine, v: View, step: Step)
    requires Window(m) && Mirrors(m.log, v.entries) && m.state == v.state && IsWriterStep(step)
    requires step.DoPurge? && NextIndex(m.state.purged) <= step.upto.index ==> CoherentPurge(m, step.upto)
    ensures var t := Means(v, step).view.state;
            NoStepBack(v.state, t) && (OptLess(t.last, v.state.last) ==> step.DoTruncate?)
  {
    match step
    case DoAppend(es) => AppendAdds(v, es);
    case DoTruncate(index) => TruncateOrder(m, v, index);
    case DoPurge(upto) => PurgeOrder(m, v, upto);
    case _ =>
  }

  lemma StepOrder(y: System, step: Step)
    requires Inv(y) && Enabled(y, step) && IsWriterStep(step)
    ensures Inv(Take(y, step))
    ensures var s, t := StateOf(Hist(y)), StateOf(Hist(Take(y, step)));
            NoStepBack(s, t) && (OptLess(t.last, s.last) ==> step.DoTruncate?)
  {
    MemoryMachine(y);
    StepKeeps(y, step);
    CallRefines(y, step);
    LogMirrors(Hist(y));
    MeansOrder(MachineIn(y.store), ViewOf(Hist(y)), step);
  }

  ghost predicate IsCommitted(v: View, i: nat) {
    i in v.entries && OptLeq(Some(v.entries[i].id), v.state.committed)
  }

  ghost predicate Keeps(v: View, u: View, i: nat) {
    i in v.entries && i in u.entries && u.entries[i] == v.entries[i]
  }

  lemma MeansStable(m: Machine, v: View, step: Step, i: nat)
    requires Window(m) && Mirrors(m.log, v.entries) && m.state == v.state && IsWriterStep(step)
    requires IsCommitted(v, i)
    ensures Keeps(v, Means(v, step).view, i) || (step.DoPurge? && i <= step.upto.index)
  {
    match step
    case DoAppend(es) => AppendAdds(v, es);
    case DoTruncate(index) => TruncateStable(m, v, index, i);
    case _ =>
  }

  lemma StepStable(y: System, step: Step, i: nat)
    requires Inv(y) && Enabled(y, step) && IsWriterStep(step)
    requires IsCommitted(ViewOf(Hist(y)), i)
    ensures Keeps(ViewOf(Hist(y)), ViewOf(Hist(Take(y, step))), i) || (step.DoPurge? && i <= step.upto.index)
  {
    MemoryMachine(y);
    CallRefines(y, step);
    LogMirrors(Hist(y));
    MeansStable(MachineIn(y.store), ViewOf(Hist(y)), step, i);
  }

  lemma TruncateStable(m: Machine, v: View, index: U64, i: nat)
    requires Window(m) && Mirrors(m.log, v.entries) && m.state == v.state
    requires IsCommitted(v, i)
    ensures Keeps(v, TruncateMeans(v, index).view, i)
  {
    assert i in m.log;
    if 0 < index && index - 1 in v.entries {
      assert index - 1 in m.log;
    }
  }

  predicate WriterRun(steps: seq<Step>) {
    forall k :: 0 <= k < |steps| ==> IsWriterStep(steps[k])
  }

  ghost predicate Truncates(steps: seq<Step>) {
    exists k :: 0 <= k < |steps| && steps[k].DoTruncate?
  }

  lemma TruncatesCons(steps: seq<Step>)
    requires steps != []
    ensures Truncates(steps[1..]) || steps[0].DoTruncate? ==> Truncates(steps)
  {
    if Truncates(steps[1..]) {
      var k :| 0 <= k < |steps[1..]| && steps[1..][k].DoTruncate?;
      assert steps[k + 1].DoTruncate?;
    }
  }

  lemma {:induction false} RunOrder(y: System, steps: seq<Step>)
    requires Inv(y) && Legal(y, steps) && WriterRun(steps)
    ensures Inv(After(y, steps))
    ensures var s, t := StateOf(Hist(y)), StateOf(Hist(After(y, steps)));
            && NoStepBack(s, t)
            && (OptLess(t.last, s.last) ==> Truncates(steps))
    decreases |steps|
  {
    if steps == [] {
      MemoryMachine(y);
    } else {
      var z, rest := Take(y, steps[0]), steps[1..];
      StepOrder(y, steps[0]);
      RunOrder(z, rest);
      NoStepBackTrans(StateOf(Hist(y)), StateOf(Hist(z)), StateOf(Hist(After(z, rest))));
      TruncatesCons(steps);
    }
  }

  /** Under the writer interface `vote`, `committed` and `purged` never go back; `last` goes
      back only through a truncation, and never below what was committed or purged. */
  lemma StateOrder(y: System, steps: seq<Step>)
    requires Reachable(y) && Legal(y, steps) && WriterRun(steps)
    ensures var s, t := y.store.sm.state, After(y, steps).store.sm.state;
            && OptLeq(t.purged, t.last) && OptLeq(t.committed, t.last)
            && VoteLeq(s.vote, t.vote) && OptLeq(s.committed, t.committed) && OptLeq(s.purged, t.purged)
            && OptLeq(s.committed, t.last) && OptLeq(s.purged, t.last)
            && (OptLess(t.last, s.last) ==> exists k :: 0 <= k < |steps| && steps[k].DoTruncate?)
  {
    ReachableInv(y);
    RunOrder(y, steps);
    MemoryMachine(y);
    MemoryMachine(After(y, steps));
  }

  ghost predicate Covered(steps: seq<Step>, i: nat) {
    exists k :: 0 <= k < |steps| && steps[k].DoPurge? && i <= steps[k].upto.index
  }

  lemma CoveredCons(steps: seq<Step>, i: nat)
    requires steps != []
    ensures Covered(steps[1..], i) || (steps[0].DoPurge? && i <= steps[0].upto.index) ==> Covered(steps, i)
  {
    if Covered(steps[1..], i) {
      var k :| 0 <= k < |steps[1..]| && steps[1..][k].DoPurge? && i <= steps[1..][k].upto.index;
      assert steps[k + 1].DoPurge? && i <= steps[k + 1].upto.index;
    }
  }

  lemma StillCommitted(v: View, u: View, i: nat)
    requires IsCommitted(v, i) && Keeps(v, u, i) && NoStepBack(v.state, u.state)
    ensures IsCommitted(u, i)
  {
  }

  lemma KeepsTrans(v: View, u: View, w: View, i: nat)
    requires Keeps(v, u, i) && Keeps(u, w, i)
    ensures Keeps(v, w, i)
  {
  }

  lemma {:induction false} RunStable(y: System, steps: seq<Step>, i: nat)
    requires Inv(y) && Legal(y, steps) && WriterRun(steps) && IsCommitted(ViewOf(Hist(y)), i)
    ensures Keeps(ViewOf(Hist(y)), ViewOf(Hist(After(y, steps))), i) || Covered(steps, i)
    decreases |steps|
  {
    if steps != [] {
      var z, v := Take(y, steps[0]), ViewOf(Hist(y));
      StepOrder(y, steps[0]);
      StepStable(y, steps[0], i);
      if Keeps(v, ViewOf(Hist(z)), i) {
        StillCommitted(v, ViewOf(Hist(z)), i);
        RunStable(z, steps[1..], i);
        if !Covered(steps[1..], i) {
          KeepsTrans(v, ViewOf(Hist(z)), ViewOf(Hist(After(z, steps[1..]))), i);
        }
      }
      CoveredCons(steps, i);
    }
  }

  /** A committed entry keeps its index, id and payload until a purge covers it. */
  lemma CommittedStable(y: System, steps: seq<Step>, i: nat)
    requires Reachable(y) && Legal(y, steps) && WriterRun(steps)
    requires i in EntriesOf(Hist(y)) && OptLeq(Some(EntriesOf(Hist(y))[i].id), y.store.sm.state.committed)
    ensures var es, fs := EntriesOf(Hist(y)), EntriesOf(Hist(After(y, steps)));
            (i in fs && fs[i] == es[i]) || exists k :: 0 <= k < |steps| && steps[k].DoPurge? && i <= steps[k].upto.index
  {
    ReachableInv(y);
    MemoryMachine(y);
    RunStable(y, steps, i);
  }

  // ---- what a rejection leaves behind ----

  /** A rejected call changes nothing at all; a batch is the one call that may stop halfway. */
  lemma RejectedChangesNothing(s: Store, step: Step)
    requires Call(s, step).1.Err? && !step.DoAppend?
    ensures Call(s, step).0 == s
  {
  }

  /** A batch leaves the store as its longest accepted prefix does. */
  lemma {:induction false} BatchIsItsLongestPrefix(s: Store, es: seq<Entry>) returns (n: nat)
    ensures n <= |es| && AppendAll(s, es[..n]).1.Ok?
    ensures forall m :: n < m <= |es| ==> AppendAll(s, es[..m]).1.Err?
    ensures AppendAll(s, es).0 == AppendAll(s, es[..n]).0
    ensures AppendAll(s, es).1.Ok? <==> n == |es|
    decreases |es|
  {
    n := 0;
    if es == [] {
      assert es[..0] == es;
    } else {
      var (t, r) := AppendAndApply(s, Act(Append(es[0].id, es[0].payload)));
      if r.Ok? {
        n := BatchIsItsLongestPrefix(t, es[1..]);
        forall m | 0 < m <= |es| ensures AppendAll(s, es[..m]) == AppendAll(t, es[1..][..m - 1]) {
          assert es[..m][1..] == es[1..][..m - 1];
        }
        n := n + 1;
      } else {
        forall m | 0 < m <= |es| ensures AppendAll(s, es[..m]).1.Err? && AppendAll(s, es[..m]).0 == s {
          assert es[..m][0] == es[0];
        }
      }
    }
  }
}
