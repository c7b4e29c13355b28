/** What an accepted call answers: where the last record it wrote went. */
module Answers {
  import opened RaftTypes
  import opened LogState
  import opened StateMachines
  import opened Histories
  import opened Stores
  import opened Invariants
  import opened Runs

  /** The id that a truncation at `index` keeps: what was purged, or the entry below. */
  function LastKept(v: View, index: U64): Option<LogId> {
    if index != NextIndex(v.state.purged) && 0 < index && index - 1 in v.entries then Some(v.entries[index - 1].id)
    else v.state.purged
  }

  /** The record that an accepted call writes last, if it writes any. */
  function LastWritten(v: View, step: Step): Option<Record> {
    match step
    case DoSaveUserData(data) => Some(Checkpoint(v.state.(userData := data)))
    case DoSaveVote(vote) => Some(Act(SaveVote(vote)))
    case DoAppend(es) => if es == [] then None else Some(Act(Append(Final(es).id, Final(es).payload)))
    case DoTruncate(index) => Some(Act(TruncateAfter(LastKept(v, index))))
    case DoPurge(upto) => if upto.index < NextIndex(v.state.purged) then None else Some(Act(PurgeUpto(upto)))
    case DoCommit(id) => Some(Act(Commit(id)))
    case DoUpdateState(s) => Some(Checkpoint(s))
    case _ => None
  }

  /** The store when the last record of the call is about to be written. */
  function BeforeLast(s: Store, step: Step): Store {
    if step.DoAppend? && step.entries != [] then AppendAll(s, Init(step.entries)).0 else s
  }

  /** The record fills the open chunk. */
  predicate Fills(s: Store, rec: Record) {
    s.cfg.isFull(s.wal.open.recs + [rec])
  }

  /** The stream ends with the record; or, if that filled its chunk, with the checkpoint that
      opens the next chunk right behind it. */
  ghost predicate EndsWith(h: History, rec: Record, full: bool) {
    var n := |h| - 1;
    if full then 0 < n && h[n - 1].rec == rec && h[n] == Placed(Checkpoint(StateOf(h[..n])), n)
    else 0 <= n && h[n].rec == rec && h[n].chunk < n
  }

  lemma AppendedEnds(h: History, g: History, rec: Record, full: bool)
    requires Legit(h) && Appended(h, g, rec) && (full <==> |g| == |h| + 2)
    ensures EndsWith(g, rec, full)
  {
    var t := h + [Placed(rec, Final(h).chunk)];
    ChunkOrder(h, |h| - 1, |h| - 1);
    if full {
      assert g[..|t|] == t;
    }
  }

  lemma EndIsAnswered(s: Store, rec: Record)
    requires Accepts(s.sm.state, rec)
    ensures AppendAndApply(s, rec).1 == Ok(EndOffset(AppendAndApply(s, rec).0.wal) - 1)
  {
  }

  /** The answer is the last offset of the stream, which ends with the record. */
  ghost predicate Told(h: History, r: Result<int, Error>, rec: Record, full: bool) {
    r == Ok(|h| - 1) && EndsWith(h, rec, full)
  }

  lemma EndIsLast(z: System)
    requires Inv(z)
    ensures EndOffset(z.store.wal) == |Hist(z)|
  {
    AtEnd(z);
  }

  /** One record: it is answered by its own offset, or by that of the checkpoint behind it. */
  lemma RecordAnswers(y: System, rec: Record)
    requires Inv(y) && Admissible(MachineOf(Hist(y)), rec) && Accepts(y.store.sm.state, rec)
    ensures var (t, r) := AppendAndApply(y.store, rec); Told(Hist(y.(store := t)), r, rec, Fills(y.store, rec))
  {
    AppendAndApplyKeeps(y, rec);
    EndIsAnswered(y.store, rec);
    EndIsLast(y.(store := AppendAndApply(y.store, rec).0));
    AppendedEnds(Hist(y), Hist(y.(store := AppendAndApply(y.store, rec).0)), rec, Fills(y.store, rec));
  }

  /** A batch is its entries one by one. */
  lemma {:induction false} AppendAllSnoc(s: Store, all: seq<Entry>, es: seq<Entry>, e: Entry)
    requires all == es + [e]
    ensures AppendAll(s, all) ==
              var (t, r) := AppendAll(s, es);
              if r.Err? then (t, r) else AppendAndApply(t, Act(Append(e.id, e.payload)))
    decreases |es|
  {
    if es == [] {
      assert all[1..] == [];
    } else {
      assert all[1..] == es[1..] + [e];
      AppendAllSnoc(AppendAndApply(s, Act(Append(es[0].id, es[0].payload))).0, all[1..], es[1..], e);
    }
  }

  lemma AppendAllLast(s: Store, es: seq<Entry>)
    requires es != []
    ensures AppendAll(s, es) ==
              var (t, r) := AppendAll(s, Init(es));
              if r.Err? then (t, r) else AppendAndApply(t, Act(Append(Final(es).id, Final(es).payload)))
  {
    AppendAllSnoc(s, es, Init(es), Final(es));
  }

  lemma BatchAnswers(y: System, es: seq<Entry>)
    requires Inv(y) && es != [] && AppendAll(y.store, es).1.Ok?
    ensures var (t, r) := AppendAll(y.store, es);
            var rec := Act(Append(Final(es).id, Final(es).payload));
            Told(Hist(y.(store := t)), r, rec, Fills(AppendAll(y.store, Init(es)).0, rec))
  {
    AppendAllLast(y.store, es);
    AppendAllKeeps(y, Init(es));
    LastAnswers(y.(store := AppendAll(y.store, Init(es)).0), Final(es));
  }

  lemma LastAnswers(y: System, e: Entry)
    requires Inv(y) && AppendAndApply(y.store, Act(Append(e.id, e.payload))).1.Ok?
    ensures var rec := Act(Append(e.id, e.payload));
            var (t, r) := AppendAndApply(y.store, rec);
            Told(Hist(y.(store := t)), r, rec, Fills(y.store, rec))
  {
    MemoryMachine(y);
    RecordAnswers(y, Act(Append(e.id, e.payload)));
  }

  lemma TruncateAnswers(y: System, index: U64)
    requires Inv(y) && Truncate(y.store, index).1.Ok?
    ensures var (t, r) := Truncate(y.store, index);
            var rec := Act(TruncateAfter(LastKept(ViewOf(Hist(y)), index)));
            Told(Hist(y.(store := t)), r, rec, Fills(y.store, rec))
  {
    MemoryMachine(y);
    LogMirrors(Hist(y));
    assert KeptBy(y.store, index) == Ok(LastKept(ViewOf(Hist(y)), index));
    RecordAnswers(y, Act(TruncateAfter(LastKept(ViewOf(Hist(y)), index))));
  }

  /** Scanning for removable chunks adds nothing to the stream. */
  lemma PurgeStream(y: System, upto: LogId)
    requires Inv(y) && Enabled(y, DoPurge(upto)) && NextIndex(y.store.sm.state.purged) <= upto.index
    ensures var z := y.(store := AppendAndApply(y.store, Act(PurgeUpto(upto))).0);
            Hist(y.(store := Buffer(z.store))) == Hist(z)
  {
    MemoryMachine(y);
    RecordKeeps(y, Act(PurgeUpto(upto)));
    BufferKeeps(y.(store := AppendAndApply(y.store, Act(PurgeUpto(upto))).0));
  }

  lemma PurgeAnswers(y: System, upto: LogId)
    requires Inv(y) && Enabled(y, DoPurge(upto)) && NextIndex(y.store.sm.state.purged) <= upto.index
    ensures var (t, r) := Purge(y.store, upto);
            var rec := Act(PurgeUpto(upto));
            Told(Hist(y.(store := t)), r, rec, Fills(y.store, rec))
  {
    MemoryMachine(y);
    PurgeStream(y, upto);
    RecordAnswers(y, Act(PurgeUpto(upto)));
  }

  lemma UpdateAnswers(y: System, s: RaftLogState)
    requires Inv(y) && Enabled(y, DoUpdateState(s)) && UpdateState(y.store, s).1.Ok?
    ensures var (t, r) := UpdateState(y.store, s);
            Told(Hist(y.(store := t)), r, Checkpoint(s), Fills(y.store, Checkpoint(s)))
  {
    MemoryMachine(y);
    CheckpointCheckFits(MachineIn(y.store), s);
    RecordAnswers(y, Checkpoint(s));
  }

  lemma SingleAnswers(y: System, step: Step)
    requires Inv(y) && (step.DoSaveUserData? || step.DoSaveVote? || step.DoCommit?) && Call(y.store, step).1.Ok?
    ensures var (t, r) := Call(y.store, step);
            var rec := LastWritten(ViewOf(Hist(y)), step).value;
            Told(Hist(y.(store := t)), r, rec, Fills(y.store, rec))
  {
    MemoryMachine(y);
    RecordAnswers(y, LastWritten(ViewOf(Hist(y)), step).value);
  }

  /** A call that writes nothing answers the last offset there was. */
  lemma NothingAnswers(s: Store, step: Step)
    requires match step
             case DoAppend(es) => es == []
             case DoPurge(upto) => upto.index < NextIndex(s.sm.state.purged)
             case _ => false
    ensures Call(s, step) == (s, Ok(EndOffset(s.wal) - 1))
  {
  }

  lemma SomethingAnswers(y: System, step: Step)
    requires Inv(y) && Enabled(y, step) && IsCall(step) && Call(y.store, step).1.Ok?
    requires LastWritten(ViewOf(Hist(y)), step).Some?
    ensures var rec := LastWritten(ViewOf(Hist(y)), step).value;
            Told(Hist(Take(y, step)), Call(y.store, step).1, rec, Fills(BeforeLast(y.store, step), rec))
  {
    match step
    case DoAppend(es) => BatchAnswers(y, es);
    case DoTruncate(index) => TruncateAnswers(y, index);
    case DoPurge(upto) =>
      MemoryMachine(y);
      PurgeAnswers(y, upto);
    case DoUpdateState(s) => UpdateAnswers(y, s);
    case _ => SingleAnswers(y, step);
  }

  /** An accepted call answers the offset of the last record there is after it. That is the
      last record of the call itself; or, exactly if that filled its chunk, the checkpoint that
      opens the next one. A batch without entries and a purge that changes nothing write no
      record, and answer the offset of the one that was last before. */
  lemma AnswerIsLastRecord(y: System, step: Step)
    requires Reachable(y) && Enabled(y, step) && IsCall(step) && !step.DoFlush? && Call(y.store, step).1.Ok?
    ensures var z, last := Take(y, step), LastWritten(ViewOf(Hist(y)), step);
            && Call(y.store, step).1.value == |Hist(z)| - 1
            && if last.None? then z == y
               else EndsWith(Hist(z), last.value, Fills(BeforeLast(y.store, step), last.value))
  {
    ReachableInv(y);
    if LastWritten(ViewOf(Hist(y)), step).None? {
      MemoryMachine(y);
      EndIsLast(y);
      NothingAnswers(y.store, step);
    } else {
      SomethingAnswers(y, step);
    }
  }
}
