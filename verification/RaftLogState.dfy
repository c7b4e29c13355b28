/** The log state: which records it accepts, and what each accepted record does to it. */
module LogState {
  import opened RaftTypes

  /** Every rejection names the first test that fails, in the order the source runs them. */
  function Check(s: RaftLogState, rec: Record): Result<(), Error> {
    match rec
    case Checkpoint(_) => Ok(())
    case Act(SaveVote(v)) =>
      if VoteLeq(s.vote, Some(v)) then Ok(()) else Err(VoteReversal(s.vote.value, v))
    case Act(Append(id, _)) =>
      if s.last.None? then Ok(())
      else if OptLeq(Some(id), s.last) then Err(LogIdReversal(s.last.value, id))
      else if NextIndex(s.last) != id.index then Err(LogIdNonConsecutive(s.last, id))
      else Ok(())
    case Act(Commit(id)) =>
      if OptLess(Some(id), s.committed) then Err(LogIdReversal(s.committed.value, id))
      else if OptLess(s.last, Some(id)) then Err(CommitBeyondLast(s.last, id))
      else Ok(())
    case Act(TruncateAfter(keep)) =>
      if OptLess(keep, s.committed) then Err(TruncateCommitted(s.committed.value, keep)) else Ok(())
    case Act(PurgeUpto(_)) => Ok(())
  }

  predicate Accepts(s: RaftLogState, rec: Record) {
    Check(s, rec).Ok?
  }

  /** The state after an accepted record. */
  function Next(s: RaftLogState, rec: Record): RaftLogState {
    match rec
    case Checkpoint(state) => state
    case Act(SaveVote(v)) => s.(vote := Some(v))
    case Act(Append(id, _)) => s.(last := Some(id))
    case Act(Commit(id)) => s.(committed := Some(id))
    case Act(TruncateAfter(keep)) => if OptLess(keep, s.last) then s.(last := keep) else s
    case Act(PurgeUpto(id)) =>
      s.(purged := OptMax(s.purged, Some(id)), last := OptMax(s.last, Some(id)))
  }

  /** A record that leaves the log boundaries of a checkpoint alone: everything the
      writer interface produces, as opposed to `update_state`. */
  predicate KeepsOrder(s: RaftLogState, rec: Record) {
    rec.Checkpoint? ==> rec.state.(userData := None) == s.(userData := None)
  }

  predicate Bounded(s: RaftLogState) {
    OptLeq(s.purged, s.last) && OptLeq(s.committed, s.last)
  }

  /** Vote and commit point have not gone back, and the commit point is not beyond the log. */
  predicate Forward(s: RaftLogState, t: RaftLogState) {
    VoteLeq(s.vote, t.vote) && OptLeq(s.committed, t.committed) && OptLeq(t.committed, t.last)
  }

  /** The id starts the log, or comes right after its last one and above it. */
  predicate CanFollow(last: Option<LogId>, id: LogId) {
    last.Some? ==> Less(last.value, id) && id.index == last.value.index + 1
  }

  /** The tests accept exactly the actions that move the state forward, where an append also
      extends the log. */
  lemma AcceptsExactly(s: RaftLogState, a: Action)
    requires Bounded(s)
    ensures Accepts(s, Act(a)) <==> Forward(s, Next(s, Act(a))) && (a.Append? ==> CanFollow(s.last, a.id))
  {
  }

  /** The mutable copy of the log state that the state machine owns. */
  class RaftLogStateCell {
    var vote: Option<Vote>
    var last: Option<LogId>
    var committed: Option<LogId>
    var purged: Option<LogId>
    var userData: Option<Bytes>

    function Value(): RaftLogState
      reads this
    {
      RaftLogState(vote, last, committed, purged, userData)
    }

    constructor ()
      ensures Value() == DEFAULT_STATE
    {
      vote, last, committed, purged, userData := None, None, None, None, None;
    }

    method TruncateAfter(keep: Option<LogId>)
      modifies this`last
      ensures Value() == Next(old(Value()), Act(Action.TruncateAfter(keep)))
    {
      if OptLess(keep, last) {
        last := keep;
      }
    }

    method Purge(id: LogId)
      modifies this`last, this`purged
      ensures Value() == Next(old(Value()), Act(PurgeUpto(id)))
    {
      if OptLess(purged, Some(id)) {
        purged := Some(id);
      }
      if OptLess(last, Some(id)) {
        last := Some(id);
      }
    }

    /** A rejected record leaves every field as it was. */
    method Apply(rec: Record) returns (r: Result<(), Error>)
      modifies this
      ensures r == Check(old(Value()), rec)
      ensures Value() == if r.Ok? then Next(old(Value()), rec) else old(Value())
    {
      r := Check(Value(), rec);
      if r.Err? {
        return;
      }
      match rec
      case Act(SaveVote(v)) => vote := Some(v);
      case Act(Append(id, _)) => last := Some(id);
      case Act(Commit(id)) => committed := Some(id);
      case Act(TruncateAfter(keep)) => TruncateAfter(keep);
      case Act(PurgeUpto(id)) => Purge(id);
      case Checkpoint(s) =>
        vote, last, committed, purged, userData := s.vote, s.last, s.committed, s.purged, s.userData;
    }
  }
}
