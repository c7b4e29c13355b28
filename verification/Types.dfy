/** The values every other module speaks about: log ids and their two orders,
    votes, payloads, the replicated-log state, WAL records and the errors.
    The generic `Types` parameters of the crate are fixed to the ones its tests and
    its documentation use: a log id is `(term, index)`, a vote is `(term, node)`,
    payloads and user data are byte strings. */
module RaftTypes {

  const U64_MAX: nat := 0xFFFF_FFFF_FFFF_FFFF

  type U64 = n: nat | n <= U64_MAX

  /** An index stays strictly below `u64::MAX`, so that `index + 1` is still a `u64`. */
  type Index = n: nat | n < U64_MAX

  type Byte = n: nat | n < 0x100

  /** Length prefixes are 32 bits wide. */
  type Bytes = s: seq<Byte> | |s| < 0x1_0000_0000

  datatype Option<+T> = None | Some(value: T)

  datatype Result<+T, +E> = Ok(value: T) | Err(error: E)

  /** Log ids are compared as a whole: first the term, then the index. */
  datatype LogId = LogId(term: U64, index: Index)

  predicate Less(a: LogId, b: LogId) {
    a.term < b.term || (a.term == b.term && a.index < b.index)
  }

  predicate Leq(a: LogId, b: LogId) {
    a == b || Less(a, b)
  }

  /** Rust's order on `Option`: `None` is below every `Some`. */
  predicate OptLess(a: Option<LogId>, b: Option<LogId>) {
    b.Some? && (a.None? || Less(a.value, b.value))
  }

  predicate OptLeq(a: Option<LogId>, b: Option<LogId>) {
    a == b || OptLess(a, b)
  }

  function OptMax(a: Option<LogId>, b: Option<LogId>): Option<LogId> {
    if OptLess(a, b) then b else a
  }

  /** The index that follows a log id; the log starts at 0 when there is none. */
  function NextIndex(id: Option<LogId>): U64 {
    if id.Some? then id.value.index + 1 else 0
  }

  datatype Vote = Vote(term: U64, node: U64)

  predicate VoteLeq(a: Option<Vote>, b: Option<Vote>) {
    a == b
    || (b.Some? && (a.None?
                    || a.value.term < b.value.term
                    || (a.value.term == b.value.term && a.value.node < b.value.node)))
  }

  datatype RaftLogState = RaftLogState(
    vote: Option<Vote>,
    last: Option<LogId>,
    committed: Option<LogId>,
    purged: Option<LogId>,
    userData: Option<Bytes>)

  const DEFAULT_STATE := RaftLogState(None, None, None, None, None)

  datatype Action =
    | SaveVote(vote: Vote)
    | Append(id: LogId, payload: Bytes)
    | Commit(id: LogId)
    | TruncateAfter(keep: Option<LogId>)
    | PurgeUpto(id: LogId)

  datatype Record =
    | Act(action: Action)
    | Checkpoint(state: RaftLogState)

  datatype Error =
    | VoteReversal(currentVote: Vote, attemptedVote: Vote)
    | LogIdReversal(current: LogId, attempted: LogId)
    | LogIdNonConsecutive(last: Option<LogId>, attempted: LogId)
    | CommitBeyondLast(last: Option<LogId>, attempted: LogId)
    | TruncateCommitted(committed: LogId, keepUpto: Option<LogId>)
    | CheckpointLogMismatch(first: LogId, lastHeld: LogId, purged: Option<LogId>, declaredLast: Option<LogId>)
    | LogIndexNotFound(index: nat)
    | ChunkGap

  datatype Entry = Entry(id: LogId, payload: Bytes)
}
