/** The flush worker left to itself: it gets through any queue. */
module Workers {
  import opened Histories
  import opened Stores
  import opened Invariants
  import opened Runs
  import opened Guarantees

  function Work(n: nat): seq<Step> {
    if n == 0 then [] else [DoWorker] + Work(n - 1)
  }

  /** How many worker steps the requests take. */
  function Size(queue: seq<Request>): nat {
    if queue == [] then 0
    else (if queue[0].RemoveChunks? then |queue[0].ids| + 1 else 1) + Size(queue[1..])
  }

  lemma {:induction false} WorkIsCrashFree(n: nat)
    ensures CrashFree(Work(n))
  {
    if n > 0 {
      WorkIsCrashFree(n - 1);
    }
  }

  /** The queue after one worker step. */
  function Worked(queue: seq<Request>): seq<Request>
    requires queue != []
  {
    if queue[0].RemoveChunks? && queue[0].ids != [] then [RemoveChunks(queue[0].ids[1..])] + queue[1..] else queue[1..]
  }

  lemma WorkedQueue(s: Store, front: seq<Request>, tail: seq<Request>)
    requires front != [] && s.wal.queue == front + tail
    ensures WorkerStep(s).wal.queue == Worked(front) + tail && Size(Worked(front)) == Size(front) - 1
    ensures Cover(Worked(front), WorkerStep(s).wal.synced) == Cover(front, s.wal.synced)
  {
    assert (front + tail)[1..] == front[1..] + tail;
    if front[0].RemoveChunks? && front[0].ids != [] {
      assert Worked(front)[1..] == front[1..];
    }
  }

  /** Enough worker steps empty any queue. */
  lemma {:induction false} WorkerCatchesUp(y: System, n: nat)
    requires Size(y.store.wal.queue) <= n
    ensures Legal(y, Work(n)) && After(y, Work(n)).store.wal.queue == []
    decreases n
  {
    if n > 0 {
      RunCons(y, DoWorker, Work(n - 1));
      var queue := y.store.wal.queue;
      if queue != [] {
        assert queue + [] == queue && Worked(queue) + [] == Worked(queue);
        WorkedQueue(y.store, queue, []);
      }
      WorkerCatchesUp(WorkerMoves(y), n - 1);
    }
  }

  predicate UpTo(queue: seq<Request>, n: nat) {
    forall r <- queue :: r.Write? ==> r.upto <= n
  }

  lemma {:induction false} QueueUpTo(h: History, queue: seq<Request>, synced: nat)
    requires QueueSafe(h, queue, synced)
    ensures UpTo(queue, |h|)
    decreases |queue|
  {
    if queue != [] {
      match queue[0]
      case Write(upto, sync) => QueueUpTo(h, queue[1..], if sync then Max(synced, upto) else synced);
      case RemoveChunks(_) => QueueUpTo(h, queue[1..], synced);
    }
  }

  /** The worker alone, on the store. */
  function Worker(s: Store, k: nat): Store
    decreases k
  {
    if k == 0 then s else Worker(WorkerStep(s), k - 1)
  }

  lemma {:induction false} WorkIsWorker(y: System, k: nat)
    ensures Legal(y, Work(k))
    ensures After(y, Work(k)).store == Worker(y.store, k) && After(y, Work(k)).reported == y.reported
    decreases k
  {
    if k > 0 {
      RunCons(y, DoWorker, Work(k - 1));
      WorkIsWorker(WorkerMoves(y), k - 1);
    }
  }

  lemma {:induction false} AllWorker(k: nat)
    ensures forall step <- Work(k) :: step.DoWorker?
  {
    if k > 0 {
      AllWorker(k - 1);
    }
  }

  lemma WorkKeepsStream(y: System, k: nat)
    requires Inv(y)
    ensures Inv(After(y, Work(k))) && Hist(After(y, Work(k))) == Hist(y)
  {
    AllWorker(k);
    WorkIsWorker(y, k);
    BackgroundRunKeeps(y, Work(k));
  }

  lemma WorkedUpTo(s: Store, front: seq<Request>, tail: seq<Request>, n: nat)
    requires s.wal.queue == front + tail && front != [] && UpTo(front, n) && s.wal.written <= n
    ensures UpTo(Worked(front), n) && WorkerStep(s).wal.written <= n
  {
    assert front[0] in front;
  }

  /** Working off a part of the queue does what that part asks for, and no more. */
  lemma {:induction false} WorkOff(s: Store, front: seq<Request>, tail: seq<Request>, n: nat)
    requires s.wal.queue == front + tail && UpTo(front, n) && s.wal.written <= n
    ensures var t := Worker(s, Size(front));
            && t.wal.queue == tail && t.sm == s.sm && t.wal.written <= n
            && t.wal.synced == Cover(front, s.wal.synced)
    decreases Size(front)
  {
    if front == [] {
      assert front + tail == tail;
    } else {
      WorkedQueue(s, front, tail);
      WorkedUpTo(s, front, tail, n);
      WorkOff(WorkerStep(s), Worked(front), tail, n);
    }
  }
}
