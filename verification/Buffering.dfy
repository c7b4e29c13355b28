/** When obsolete chunks are handed over for removal: always at once, except after an
    `update_state` that raises the purge point. */
module Buffering {
  import opened RaftTypes
  import opened LogState
  import opened Stores
  import opened Invariants
  import opened Recovery
  import opened Runs

  /** Nothing is left to buffer: the oldest closed chunk ends above the purge point. */
  predicate Eager(s: Store) {
    s.sm.state.purged.None? || s.wal.closed == [] || !OptLeq(s.wal.closed[0].state.last, s.sm.state.purged)
  }

  /** A scan takes the longest prefix of removable chunks, and hands them over in order. */
  lemma ScanTakesAll(s: Store)
    requires s.sm.state.purged.Some?
    ensures var t, n := Buffer(s), |s.wal.closed| - |Buffer(s).wal.closed|;
            && Eager(t)
            && 0 <= n && t.wal.closed == s.wal.closed[n..] && t.removed == s.removed + ChunkIds(s.wal.closed[..n])
            && (forall k :: 0 <= k < n ==> OptLeq(s.wal.closed[k].state.last, s.sm.state.purged))
  {
    DrainSpec(s.wal.closed, s.sm.state.purged);
  }

  lemma BufferEager(s: Store)
    ensures Eager(Buffer(s))
  {
    if s.sm.state.purged.Some? {
      ScanTakesAll(s);
    }
  }

  lemma RecordEager(s: Store, rec: Record)
    requires Eager(s) && Next(s.sm.state, rec).purged == s.sm.state.purged
    ensures Eager(AppendAndApply(s, rec).0)
  {
    if Accepts(s.sm.state, rec) {
      var t := Push(s, rec).0;
      BufferEager(t.(wal := Rotate(t.wal, t.sm.state)));
    }
  }

  lemma {:induction false} AppendAllEager(s: Store, entries: seq<Entry>)
    requires Eager(s)
    ensures Eager(AppendAll(s, entries).0)
    decreases |entries|
  {
    if entries != [] {
      var rec := Act(Append(entries[0].id, entries[0].payload));
      RecordEager(s, rec);
      var (t, r) := AppendAndApply(s, rec);
      if r.Ok? {
        AppendAllEager(t, entries[1..]);
      }
    }
  }

  lemma CallEager(s: Store, step: Step)
    requires Eager(s) && !step.DoUpdateState?
    ensures Eager(Call(s, step).0)
  {
    match step
    case DoSaveUserData(data) => RecordEager(s, Checkpoint(s.sm.state.(userData := data)));
    case DoSaveVote(vote) => RecordEager(s, Act(SaveVote(vote)));
    case DoAppend(entries) => AppendAllEager(s, entries);
    case DoTruncate(index) =>
      match KeptBy(s, index) {
        case Ok(keep) => RecordEager(s, Act(TruncateAfter(keep)));
        case Err(_) =>
      }
    case DoPurge(upto) =>
      if NextIndex(s.sm.state.purged) <= upto.index {
        BufferEager(AppendAndApply(s, Act(PurgeUpto(upto))).0);
      }
    case DoCommit(id) => RecordEager(s, Act(Commit(id)));
    case _ =>
  }

  /** Open finds again what a restart threw away. */
  lemma OpenEager(cfg: Config, files: seq<File>, synced: nat, reuse: bool)
    requires Open(cfg, files, synced, reuse).Ok?
    ensures Eager(Open(cfg, files, synced, reuse).value)
  {
    if files != [] {
      var sm := Replay(cfg, Flatten(files), files[0].id).value;
      var w := OpenedWal(files, synced);
      BufferEager(Store(cfg, if reuse then w else Rotate(w, sm.state).(queue := []), sm, []));
    }
  }

  lemma StepEager(y: System, step: Step)
    requires Eager(y.store) && !step.DoUpdateState?
    ensures Eager(Take(y, step).store)
  {
    match step
    case DoWorker =>
    case DoBoundary(_) =>
    case DoDrain =>
    case DoCrash(cfg, cut, reuse) =>
      if Open(cfg, Survivors(y, cut), y.store.wal.synced, reuse).Ok? {
        OpenEager(cfg, Survivors(y, cut), y.store.wal.synced, reuse);
      }
    case _ => CallEager(y.store, step);
  }

  /** Through any run of writer calls, worker steps, crashes and opens, nothing that could be
      removed is left unbuffered. */
  lemma {:induction false} AlwaysEager(y: System, steps: seq<Step>)
    requires Eager(y.store) && forall k :: 0 <= k < |steps| ==> !steps[k].DoUpdateState?
    ensures Eager(After(y, steps).store)
    decreases |steps|
  {
    if steps != [] {
      StepEager(y, steps[0]);
      AlwaysEager(Take(y, steps[0]), steps[1..]);
    }
  }

  /** The same from an empty store. */
  lemma NothingLeftUnbuffered(cfg: Config, steps: seq<Step>)
    requires forall k :: 0 <= k < |steps| ==> !steps[k].DoUpdateState?
    ensures Eager(After(Start(cfg), steps).store)
  {
    AlwaysEager(Start(cfg), steps);
  }

  /** An accepted `update_state` leaves nothing unbuffered exactly when it closes the open
      chunk, or the oldest closed chunk ends above the new purge point anyway. */
  lemma UpdateEager(s: Store, state: RaftLogState)
    requires UpdateState(s, state).1.Ok?
    ensures Eager(UpdateState(s, state).0) <==>
              || s.cfg.isFull(s.wal.open.recs + [Checkpoint(state)])
              || state.purged.None?
              || s.wal.closed == []
              || !OptLeq(s.wal.closed[0].state.last, state.purged)
  {
    var t := Push(s, Checkpoint(state)).0;
    BufferEager(t.(wal := Rotate(t.wal, t.sm.state)));
  }

  /** A store that closes a chunk at its third record, and has restored a snapshot purged up
      to `(3, 9)`: its first chunk is obsolete, and waits for a later purge or chunk close. */
  lemma UpdateLeavesObsoleteChunk()
    ensures exists cfg, steps :: Legal(Start(cfg), steps) && !Eager(After(Start(cfg), steps).store)
  {
    var cfg := Config(8, 1024, (recs: seq<Record>) => |recs| >= 3);
    var p := Some(LogId(3, 9));
    var restored := RaftLogState(Some(Vote(2, 1)), p, p, p, None);
    var a, b, c := DoSaveVote(Vote(1, 1)), DoSaveVote(Vote(2, 1)), DoUpdateState(restored);
    var y0 := Start(cfg);
    var y1 := Take(y0, a);
    assert y1.store.wal.open.recs == [Checkpoint(DEFAULT_STATE), Act(SaveVote(Vote(1, 1)))];
    var y2 := Take(y1, b);
    assert y2.store.wal.closed == [ClosedChunk(0, y2.store.sm.state)] && y2.store.sm.state.last == None;
    assert y2.store.wal.open.recs == [Checkpoint(y2.store.sm.state)];
    var y3 := Take(y2, c);
    assert y3.store.wal.closed == y2.store.wal.closed && y3.store.sm.state == restored;
    RunCons(y2, c, []);
    RunCons(y1, b, [c] + []);
    RunCons(y0, a, [b] + ([c] + []));
    assert Legal(Start(cfg), [a] + ([b] + ([c] + []))) && After(Start(cfg), [a] + ([b] + ([c] + []))) == y3;
  }
}
