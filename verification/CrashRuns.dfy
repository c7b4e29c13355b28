/** Runs with crashes, on the simple log: the log remembers what it was after every record,
    and a crash takes it back to one of those moments, never behind what is synced. */
module CrashRuns {
  import opened RaftTypes
  import opened LogState
  import opened StateMachines
  import opened Histories
  import opened CacheHistories
  import opened Stores
  import opened Invariants
  import opened Recovery
  import opened Runs
  import opened Guarantees
  import opened SimpleLogs

  /** What the log was after every record. */
  function Past(h: History): (p: seq<View>)
    ensures |p| == |h| + 1
  {
    seq(|h| + 1, n requires 0 <= n <= |h| => ViewOf(h[..n]))
  }

  /** A call that was interrupted: the whole of it, or a batch that stops early. */
  ghost predicate PartOf(part: Step, step: Step) {
    part == step || (step.DoAppend? && part.DoAppend? && part.entries <= step.entries)
  }

  ghost predicate PartAt(v: View, u: View, step: Step) {
    exists part :: PartOf(part, step) && u == Means(v, part).view
  }

  /** A call adds moments at which a part of it is done, the last of them the whole. A crash
      goes back to a moment that is not behind the first `synced` records. */
  ghost predicate Moves(p: seq<View>, step: Step, q: seq<View>, synced: nat) {
    && p != [] && q != []
    && if step.DoCrash? then
         && synced <= step.cut < |p|
         && (q == p[..step.cut + 1] || q == p[..step.cut + 1] + [p[step.cut]])
       else
         && p <= q && Final(q) == Means(Final(p), step).view
         && forall k :: |p| <= k < |q| ==> PartAt(Final(p), q[k], step)
  }

  lemma PastEnds(h: History)
    ensures Final(Past(h)) == ViewOf(h)
  {
    assert h[..|h|] == h;
  }

  lemma PastGrows(h: History, g: History)
    requires Grows(h, g)
    ensures Past(h) <= Past(g)
  {
    forall n | 0 <= n <= |h| ensures Past(g)[n] == Past(h)[n] {
      assert g[..n] == h[..n];
    }
  }

  // ---- within a call ----

  /** After each record that `h` gains on the way to `g`, a part of the step is done. */
  ghost predicate InParts(h: History, g: History, step: Step) {
    forall k :: |h| < k <= |g| ==> PartAt(ViewOf(h), ViewOf(g[..k]), step)
  }

  lemma OneRecord(y: System, rec: Record)
    requires Inv(y) && (Accepts(y.store.sm.state, rec) ==> Admissible(MachineOf(Hist(y)), rec))
    ensures var h, g := Hist(y), Hist(y.(store := AppendAndApply(y.store, rec).0));
            Grows(h, g) && forall k :: |h| < k <= |g| ==> ViewOf(g[..k]) == ViewOf(g)
  {
    RecordKeeps(y, rec);
    AppendAndApplyKeeps(y, rec);
    var h, g := Hist(y), Hist(y.(store := AppendAndApply(y.store, rec).0));
    if AppendAndApply(y.store, rec).1.Ok? {
      AppendedParts(h, g, rec);
    }
  }

  lemma AppendedParts(h: History, g: History, rec: Record)
    requires Appended(h, g, rec)
    ensures forall k :: |h| < k <= |g| ==> ViewOf(g[..k]) == ViewOf(g)
  {
    var t := h + [Placed(rec, Final(h).chunk)];
    AppendedView(h, t, rec);
    AppendedView(h, g, rec);
    assert g[..|h| + 1] == t && g[..|g|] == g;
  }

  lemma BatchHead(v: View, es: seq<Entry>, m: nat)
    requires es != [] && CanFollow(v.state.last, es[0].id) && m < |es|
    ensures var w := View(v.state.(last := Some(es[0].id)), v.entries[es[0].id.index := es[0]]);
            AppendMeans(v, es[..m + 1]) == AppendMeans(w, es[1..][..m])
  {
    assert es[..m + 1][1..] == es[1..][..m];
  }

  function AfterEntry(y: System, e: Entry): System {
    y.(store := AppendAndApply(y.store, Act(Append(e.id, e.payload))).0)
  }

  function AfterBatch(y: System, es: seq<Entry>): System {
    y.(store := AppendAll(y.store, es).0)
  }

  lemma EntryRefines(y: System, e: Entry)
    requires Inv(y)
    ensures var z, v := AfterEntry(y, e), ViewOf(Hist(y));
            && Inv(z)
            && AppendAndApply(y.store, Act(Append(e.id, e.payload))).1.Ok? == CanFollow(v.state.last, e.id)
            && (CanFollow(v.state.last, e.id) ==>
                ViewOf(Hist(z)) == View(v.state.(last := Some(e.id)), v.entries[e.id.index := e]))
  {
    MemoryMachine(y);
    RecordRefines(y, Act(Append(e.id, e.payload)));
    EntryMeans(ViewOf(Hist(y)), e);
  }

  lemma EntryMeans(v: View, e: Entry)
    ensures ViewStep(v, Act(Append(e.id, e.payload))) ==
              if CanFollow(v.state.last, e.id) then
                Accepted(View(v.state.(last := Some(e.id)), v.entries[e.id.index := e]))
              else Rejected(v, CannotFollow(v.state.last.value, e.id))
  {
  }

  lemma BatchUnfolds(y: System, es: seq<Entry>)
    requires es != []
    ensures var r := AppendAndApply(y.store, Act(Append(es[0].id, es[0].payload))).1;
            AfterBatch(y, es) == if r.Ok? then AfterBatch(AfterEntry(y, es[0]), es[1..]) else y
  {
  }

  /** One entry of a batch: if it is rejected the batch ends, otherwise it goes on from there. */
  lemma BatchStep(y: System, es: seq<Entry>)
    requires Inv(y) && es != []
    ensures var z, v := AfterEntry(y, es[0]), ViewOf(Hist(y));
            && Inv(z)
            && (if CanFollow(v.state.last, es[0].id) then
                  && AfterBatch(y, es) == AfterBatch(z, es[1..])
                  && ViewOf(Hist(z)) == View(v.state.(last := Some(es[0].id)), v.entries[es[0].id.index := es[0]])
                else AfterBatch(y, es) == y)
  {
    EntryRefines(y, es[0]);
    BatchUnfolds(y, es);
  }

  lemma OneEntry(v: View, es: seq<Entry>)
    requires es != [] && CanFollow(v.state.last, es[0].id)
    ensures AppendMeans(v, es[..1]).view == View(v.state.(last := Some(es[0].id)), v.entries[es[0].id.index := es[0]])
  {
    assert es[..1][1..] == [];
  }

  lemma BatchGrows(y: System, es: seq<Entry>)
    requires Inv(y) && es != [] && CanFollow(StateOf(Hist(y)).last, es[0].id)
    ensures Grows(Hist(AfterEntry(y, es[0])), Hist(AfterBatch(y, es)))
  {
    BatchStep(y, es);
    AppendAllKeeps(AfterEntry(y, es[0]), es[1..]);
  }

  lemma ViewWithin(h: History, g: History, k: nat)
    requires Grows(h, g) && k <= |h|
    ensures ViewOf(g[..k]) == ViewOf(h[..k])
  {
    assert g[..k] == g[..|h|][..k];
  }

  lemma FirstPart(y: System, es: seq<Entry>, k: nat)
    requires Inv(y) && es != [] && |Hist(y)| < k <= |Hist(AfterEntry(y, es[0]))|
    requires CanFollow(StateOf(Hist(y)).last, es[0].id)
    ensures k <= |Hist(AfterBatch(y, es))|
    ensures ViewOf(Hist(AfterBatch(y, es))[..k]) == AppendMeans(ViewOf(Hist(y)), es[..1]).view
  {
    var h := Hist(AfterEntry(y, es[0]));
    BatchGrows(y, es);
    ViewWithin(h, Hist(AfterBatch(y, es)), k);
    EntryViews(y, es[0], k);
    OneEntry(ViewOf(Hist(y)), es);
  }

  lemma EntryViews(y: System, e: Entry, k: nat)
    requires Inv(y) && |Hist(y)| < k <= |Hist(AfterEntry(y, e))| && CanFollow(StateOf(Hist(y)).last, e.id)
    ensures var v := ViewOf(Hist(y));
            ViewOf(Hist(AfterEntry(y, e))[..k]) == View(v.state.(last := Some(e.id)), v.entries[e.id.index := e])
  {
    MemoryMachine(y);
    OneRecord(y, Act(Append(e.id, e.payload)));
    EntryRefines(y, e);
  }

  lemma LaterPart(y: System, es: seq<Entry>, k: nat, m: nat)
    requires Inv(y) && es != [] && CanFollow(StateOf(Hist(y)).last, es[0].id) && m < |es|
    requires var g := Hist(AfterBatch(AfterEntry(y, es[0]), es[1..]));
             k <= |g| && ViewOf(g[..k]) == AppendMeans(ViewOf(Hist(AfterEntry(y, es[0]))), es[1..][..m]).view
    ensures var g := Hist(AfterBatch(y, es));
            k <= |g| && ViewOf(g[..k]) == AppendMeans(ViewOf(Hist(y)), es[..m + 1]).view
  {
    BatchStep(y, es);
    BatchHead(ViewOf(Hist(y)), es, m);
  }

  /** After each record of a batch the log is what a first part of the batch makes it. */
  lemma {:induction false} BatchParts(y: System, es: seq<Entry>, k: nat) returns (m: nat)
    requires Inv(y) && |Hist(y)| < k <= |Hist(AfterBatch(y, es))|
    ensures m <= |es| && ViewOf(Hist(AfterBatch(y, es))[..k]) == AppendMeans(ViewOf(Hist(y)), es[..m]).view
    decreases |es|
  {
    BatchStep(y, es);
    if k <= |Hist(AfterEntry(y, es[0]))| {
      FirstPart(y, es, k);
      m := 1;
    } else {
      m := BatchParts(AfterEntry(y, es[0]), es[1..], k);
      LaterPart(y, es, k, m);
      m := m + 1;
    }
  }

  lemma FirstEntries(v: View, es: seq<Entry>, m: nat)
    requires m <= |es|
    ensures PartAt(v, AppendMeans(v, es[..m]).view, DoAppend(es))
  {
    assert PartOf(DoAppend(es[..m]), DoAppend(es));
  }

  lemma BatchInParts(y: System, es: seq<Entry>)
    requires Inv(y)
    ensures InParts(Hist(y), Hist(AfterBatch(y, es)), DoAppend(es))
  {
    var h, g := Hist(y), Hist(AfterBatch(y, es));
    forall k | |h| < k <= |g| ensures PartAt(ViewOf(h), ViewOf(g[..k]), DoAppend(es)) {
      var m := BatchParts(y, es, k);
      FirstEntries(ViewOf(h), es, m);
    }
  }

  /** Every other call writes at most one record of its own. */
  lemma SingleInParts(y: System, step: Step, rec: Record)
    requires Inv(y) && Enabled(y, step) && IsCall(step)
    requires Accepts(y.store.sm.state, rec) ==> Admissible(MachineOf(Hist(y)), rec)
    requires Hist(Take(y, step)) == Hist(y.(store := AppendAndApply(y.store, rec).0))
    ensures InParts(Hist(y), Hist(Take(y, step)), step)
  {
    OneRecord(y, rec);
    CallRefines(y, step);
    assert PartOf(step, step);
  }

  lemma QuietInParts(h: History, step: Step)
    ensures InParts(h, h, step)
  {
  }

  lemma TruncateInParts(y: System, index: U64)
    requires Inv(y)
    ensures InParts(Hist(y), Hist(Take(y, DoTruncate(index))), DoTruncate(index))
  {
    MemoryMachine(y);
    var kept := KeptBy(y.store, index);
    if kept.Ok? {
      SingleInParts(y, DoTruncate(index), Act(TruncateAfter(kept.value)));
    }
  }

  lemma PurgeInParts(y: System, upto: LogId)
    requires Inv(y) && Enabled(y, DoPurge(upto))
    ensures InParts(Hist(y), Hist(Take(y, DoPurge(upto))), DoPurge(upto))
  {
    MemoryMachine(y);
    if NextIndex(y.store.sm.state.purged) <= upto.index {
      var rec := Act(PurgeUpto(upto));
      RecordKeeps(y, rec);
      BufferKeeps(y.(store := AppendAndApply(y.store, rec).0));
      SingleInParts(y, DoPurge(upto), rec);
    }
  }

  lemma UpdateInParts(y: System, s: RaftLogState)
    requires Inv(y) && Enabled(y, DoUpdateState(s))
    ensures InParts(Hist(y), Hist(Take(y, DoUpdateState(s))), DoUpdateState(s))
  {
    MemoryMachine(y);
    CheckpointCheckFits(MachineIn(y.store), s);
    if CheckpointCheck(y.store.sm.log, s).Ok? {
      SingleInParts(y, DoUpdateState(s), Checkpoint(s));
    }
  }

  lemma CallInParts(y: System, step: Step)
    requires Inv(y) && Enabled(y, step) && IsCall(step)
    ensures InParts(Hist(y), Hist(Take(y, step)), step)
  {
    if step.DoSaveUserData? || step.DoSaveVote? || step.DoCommit? {
      MemoryMachine(y);
      SingleInParts(y, step, RecordOf(y.store.sm.state, step));
    } else if step.DoAppend? {
      BatchInParts(y, step.entries);
    } else if step.DoTruncate? {
      TruncateInParts(y, step.index);
    } else if step.DoPurge? {
      PurgeInParts(y, step.upto);
    } else if step.DoUpdateState? {
      UpdateInParts(y, step.state);
    } else {
      FlushKeeps(y, step.sync);
    }
  }

  // ---- every step ----

  lemma MovesFromParts(h: History, step: Step, g: History, synced: nat)
    requires !step.DoCrash? && Grows(h, g) && InParts(h, g, step) && ViewOf(g) == Means(ViewOf(h), step).view
    ensures Moves(Past(h), step, Past(g), synced)
  {
    PastEnds(h);
    PastEnds(g);
    PastGrows(h, g);
  }

  lemma MovesFromCut(h: History, step: Step, g: History, synced: nat)
    requires step.DoCrash? && CutBack(h, g, step.cut) && synced <= step.cut
    ensures Moves(Past(h), step, Past(g), synced)
  {
    var cut := step.cut;
    assert g[..cut] == h[..cut];
    forall n | 0 <= n <= cut ensures Past(g)[n] == Past(h)[n] {
      assert g[..n] == g[..cut][..n] && h[..n] == h[..cut][..n];
    }
    if g != h[..cut] {
      OpenedView(h, g, cut);
      PastEnds(g);
      assert Past(g) == Past(h)[..cut + 1] + [Past(h)[cut]];
    } else {
      assert Past(g) == Past(h)[..cut + 1];
    }
  }

  lemma StepMoves(y: System, step: Step)
    requires Inv(y) && Enabled(y, step)
    ensures Moves(Past(Hist(y)), step, Past(Hist(Take(y, step))), y.store.wal.synced)
  {
    StepKeeps(y, step);
    if step.DoCrash? {
      MovesFromCut(Hist(y), step, Hist(Take(y, step)), y.store.wal.synced);
    } else {
      CallRefines(y, step);
      if IsCall(step) {
        CallInParts(y, step);
      } else {
        BackgroundKeeps(y, step);
        QuietInParts(Hist(y), step);
      }
      MovesFromParts(Hist(y), step, Hist(Take(y, step)), y.store.wal.synced);
    }
  }

  /** Runs step by step. */
  lemma StepAt(y: System, steps: seq<Step>, k: nat)
    requires Legal(y, steps) && k < |steps|
    ensures Legal(y, steps[..k]) && Enabled(After(y, steps[..k]), steps[k])
    ensures After(y, steps[..k + 1]) == Take(After(y, steps[..k]), steps[k])
  {
    var before, step, rest := steps[..k], steps[k], steps[k + 1..];
    assert steps == before + ([step] + rest) && steps[..k + 1] == before + [step];
    RunConcat(y, before, [step] + rest);
    RunCons(After(y, before), step, rest);
    RunSnoc(y, before, step);
  }

  lemma StepOutcome(y: System, step: Step, from: nat, to: nat)
    requires Inv(y) && Enabled(y, step)
    ensures var z := Take(y, step);
            var v := Final(Past(Hist(z)));
            && Moves(Past(Hist(y)), step, Past(Hist(z)), y.store.wal.synced)
            && z.store.sm.state == v.state
            && (Read(z.store, from, to) == Found(Slice(v.entries, from, to)) <==> AllInReach(z.store, from, to))
            && (Rising(Hist(z)) ==> AllInReach(z.store, from, to))
  {
    StepMoves(y, step);
    StepKeeps(y, step);
    ViewReads(Take(y, step), from, to);
    PastEnds(Hist(Take(y, step)));
  }

  lemma RunOutcome(y: System, steps: seq<Step>, k: nat, from: nat, to: nat)
    requires Inv(y) && Legal(y, steps) && k < |steps|
    ensures var x, z := After(y, steps[..k]), After(y, steps[..k + 1]);
            var v := Final(Past(Hist(z)));
            && Moves(Past(Hist(x)), steps[k], Past(Hist(z)), x.store.wal.synced)
            && z.store.sm.state == v.state
            && (Read(z.store, from, to) == Found(Slice(v.entries, from, to)) <==> AllInReach(z.store, from, to))
            && (Rising(Hist(z)) ==> AllInReach(z.store, from, to))
  {
    StepAt(y, steps, k);
    RunKeeps(y, steps[..k]);
    StepOutcome(After(y, steps[..k]), steps[k], from, to);
  }

  lemma PastOfOne(x: Placed)
    requires x.rec == Checkpoint(DEFAULT_STATE)
    ensures Past([x]) == [EMPTY_LOG, EMPTY_LOG]
  {
    FirstView(x);
    assert [x][..0] == [] && [x][..1] == [x] && ViewOf([]) == EMPTY_LOG;
  }

  lemma StartPast(cfg: Config)
    ensures Past(Hist(Start(cfg))) == [EMPTY_LOG, EMPTY_LOG]
  {
    StartHist(cfg);
    PastOfOne(Placed(Checkpoint(DEFAULT_STATE), 0));
  }

  /** From an empty store, with any number of crashes: every step moves the simple log as it
      should, a crash never behind what was synced; and after every step the state is that of
      the simple log, and so is every read of entries that are each cached or written, and no
      other. */
  lemma StoreIsASimpleLogWithCrashes(cfg: Config, steps: seq<Step>, k: nat, from: nat, to: nat)
    requires Legal(Start(cfg), steps) && k < |steps|
    ensures Past(Hist(Start(cfg))) == [EMPTY_LOG, EMPTY_LOG]
    ensures var y, z := After(Start(cfg), steps[..k]), After(Start(cfg), steps[..k + 1]);
            var v := Final(Past(Hist(z)));
            && Moves(Past(Hist(y)), steps[k], Past(Hist(z)), y.store.wal.synced)
            && z.store.sm.state == v.state
            && (Read(z.store, from, to) == Found(Slice(v.entries, from, to)) <==> AllInReach(z.store, from, to))
            && (Rising(Hist(z)) ==> AllInReach(z.store, from, to))
  {
    StartPast(cfg);
    StartInv(cfg);
    RunOutcome(Start(cfg), steps, k, from, to);
  }
}
