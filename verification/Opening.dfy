/** Opening any files at all: when it fails and with which error, and what it makes of them. */
module Opening {
  import opened RaftTypes
  import opened LogState
  import opened StateMachines
  import opened Histories
  import opened Stores
  import opened Recovery

  /** No file is empty, and each starts where the one before it ends. */
  predicate Joined(files: seq<File>) {
    && (forall k :: 0 <= k < |files| ==> files[k].recs != [])
    && (forall k :: 0 <= k < |files| - 1 ==> files[k + 1].id == files[k].id + |files[k].recs|)
  }

  lemma {:induction false} AdjacentIsJoined(files: seq<File>, at: nat)
    ensures Adjacent(files, at) <==> (files != [] ==> files[0].id == at) && Joined(files)
    decreases |files|
  {
    if files != [] {
      AdjacentIsJoined(files[1..], at + |files[0].recs|);
      JoinedCons(files);
    }
  }

  lemma JoinedCons(files: seq<File>)
    requires files != []
    ensures Joined(files) <==>
              && files[0].recs != [] && Joined(files[1..])
              && (|files| > 1 ==> files[1].id == files[0].id + |files[0].recs|)
  {
    var rest := files[1..];
    if Joined(files) {
      forall k | 0 <= k < |rest| - 1 ensures rest[k + 1].id == rest[k].id + |rest[k].recs| {
        assert rest[k + 1] == files[k + 1 + 1] && rest[k] == files[k + 1];
      }
    }
    if files[0].recs != [] && Joined(rest) && (|files| > 1 ==> files[1].id == files[0].id + |files[0].recs|) {
      forall k | 0 <= k < |files| ensures files[k].recs != [] {
        assert k > 0 ==> files[k] == rest[k - 1];
      }
      forall k | 0 <= k < |files| - 1 ensures files[k + 1].id == files[k].id + |files[k].recs| {
        assert k > 0 ==> files[k] == rest[k - 1] && files[k + 1] == rest[k - 1 + 1];
      }
    }
  }

  /** Every record is accepted by the state that the ones before it lead to. */
  ghost predicate AllAccepted(d: History) {
    forall k :: 0 <= k < |d| ==> Accepts(StateOf(d[..k]), d[k].rec)
  }

  /** Record `k` is the first that is not accepted. */
  ghost predicate RejectedAt(d: History, k: nat, e: Error) {
    k < |d| && AllAccepted(d[..k]) && Check(StateOf(d[..k]), d[k].rec) == Err(e)
  }

  lemma PrefixAccepted(d: History, n: nat)
    requires AllAccepted(d) && n <= |d|
    ensures AllAccepted(d[..n])
  {
    forall k | 0 <= k < n ensures Accepts(StateOf(d[..n][..k]), d[..n][k].rec) {
      assert d[..n][..k] == d[..k];
    }
  }

  lemma AcceptedSnoc(d: History)
    requires d != []
    ensures AllAccepted(d) <==> AllAccepted(Init(d)) && Accepts(StateOf(Init(d)), Final(d).rec)
  {
    if AllAccepted(d) {
      PrefixAccepted(d, |d| - 1);
    }
    if AllAccepted(Init(d)) && Accepts(StateOf(Init(d)), Final(d).rec) {
      forall k | 0 <= k < |d| ensures Accepts(StateOf(d[..k]), d[k].rec) {
        if k < |d| - 1 {
          assert d[..k] == Init(d)[..k] && d[k] == Init(d)[k];
        }
      }
    }
  }

  lemma ReplayLast(cfg: Config, d: History, base: nat)
    requires d != [] && Replay(cfg, Init(d), base).Ok?
    ensures match Check(StateOf(Init(d)), Final(d).rec)
            case Ok(_) => Replay(cfg, d, base).Ok?
            case Err(e) => Replay(cfg, d, base) == Err(e)
  {
    ReplayState(cfg, Init(d), base);
  }

  lemma AcceptedBefore(d: History, k: nat, j: nat)
    requires j < k <= |d| && AllAccepted(d[..k])
    ensures Accepts(StateOf(d[..j]), d[j].rec)
  {
    assert d[..k][..j] == d[..j] && d[..k][j] == d[j];
  }

  lemma FirstIsUnique(d: History, j: nat, k: nat, e: Error, f: Error)
    requires RejectedAt(d, j, e) && RejectedAt(d, k, f)
    ensures j == k && e == f
  {
    if j < k {
      AcceptedBefore(d, k, j);
      assert false;
    } else if k < j {
      AcceptedBefore(d, j, k);
      assert false;
    }
  }

  lemma RejectedLater(d: History, k: nat, e: Error)
    requires d != [] && RejectedAt(Init(d), k, e)
    ensures RejectedAt(d, k, e)
  {
    assert Init(d)[..k] == d[..k] && Init(d)[k] == d[k];
  }

  /** The records decide the result: all are accepted, or it is the error of the first that is not. */
  ghost predicate Decides(d: History, r: Result<SM, Error>) {
    if AllAccepted(d) then r.Ok? else r.Err? && exists k :: RejectedAt(d, k, r.error)
  }

  lemma DecidesLast(cfg: Config, d: History, base: nat)
    requires d != [] && AllAccepted(Init(d)) && Replay(cfg, Init(d), base).Ok?
    ensures Decides(d, Replay(cfg, d, base))
  {
    AcceptedSnoc(d);
    ReplayLast(cfg, d, base);
    if !AllAccepted(d) {
      assert RejectedAt(d, |d| - 1, Replay(cfg, d, base).error);
    }
  }

  /** Replay accepts a stream of which every record is accepted, and otherwise ends with the
      error of the first that is not. */
  lemma {:induction false} ReplayDecides(cfg: Config, d: History, base: nat)
    ensures Decides(d, Replay(cfg, d, base))
    decreases |d|
  {
    if d != [] {
      ReplayDecides(cfg, Init(d), base);
      if AllAccepted(Init(d)) {
        DecidesLast(cfg, d, base);
      } else {
        var r := Replay(cfg, Init(d), base);
        var k :| RejectedAt(Init(d), k, r.error);
        RejectedLater(d, k, r.error);
        AcceptedSnoc(d);
        assert Replay(cfg, d, base) == Err(r.error);
      }
    }
  }

  /** Opening succeeds if and only if the files join up and every record in them is accepted in
      turn. A gap is reported first; otherwise the error is that of the first record that is
      not accepted. */
  lemma OpenDecides(cfg: Config, files: seq<File>, synced: nat, reuse: bool)
    ensures var r := Open(cfg, files, synced, reuse);
            && (r.Ok? <==> Joined(files) && AllAccepted(Flatten(files)))
            && (!Joined(files) ==> r == Err(ChunkGap))
            && (forall k, e :: Joined(files) && RejectedAt(Flatten(files), k, e) ==> r == Err(e))
  {
    if files != [] {
      AdjacentIsJoined(files, files[0].id);
      ReplayDecides(cfg, Flatten(files), files[0].id);
      forall k, e | Joined(files) && RejectedAt(Flatten(files), k, e)
        ensures Open(cfg, files, synced, reuse) == Err(e)
      {
        var d := Flatten(files);
        assert !AllAccepted(d);
        var f := Replay(cfg, d, files[0].id).error;
        var j :| RejectedAt(d, j, f);
        FirstIsUnique(d, j, k, f, e);
      }
    }
  }

  /** The opened store has the state that the records lead to. It goes on in the last file, or
      in a new one behind it that starts with that state; an empty directory gets a first
      file. What was read counts as written, and nothing is queued. */
  lemma OpenGoesOn(cfg: Config, files: seq<File>, synced: nat, reuse: bool)
    requires Open(cfg, files, synced, reuse).Ok?
    ensures var t := Open(cfg, files, synced, reuse).value;
            && t.wal.queue == []
            && t.sm.state == StateOf(Flatten(files))
            && if files == [] then Files(t.wal) == [File(0, [Checkpoint(t.sm.state)])]
               else
                 var end := Final(files).id + |Final(files).recs|;
                 && Files(t.wal) == (if reuse then files else files + [File(end, [Checkpoint(t.sm.state)])])
                 && t.wal.written == end && t.wal.synced == synced
  {
    if files != [] {
      ReplayState(cfg, Flatten(files), files[0].id);
      assert files == files[..|files| - 1] + [Final(files)];
    }
  }
}
