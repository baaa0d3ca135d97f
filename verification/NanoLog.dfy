/**
 * One version's log at one replica (log/impl/InMemoryNanoLog.cc), and the
 * completion path of log/impl/RocksNanoLog.cc without a commit index.
 */
module NanoLogs {
  import opened Options
  import opened CompletionQueue

  datatype NanoLog = NanoLog(start: int, sealed: bool, logs: map<int, string>, queue: Queue)

  /** `Present`: the entry was already there, which only a copying append accepts. */
  datatype AppendReply = SealedLog | Occupied | Present | Enqueued

  function FreshLog(start: int): NanoLog {
    NanoLog(start, false, map[], Queue(start, {}))
  }

  /** One atomic append.  `skipSeal` marks a copying append during reconfiguration. */
  function Append(n: NanoLog, commitIndex: Option<int>, id: int, payload: string, skipSeal: bool)
    : (r: (NanoLog, AppendReply))
    ensures r.1.SealedLog? <==> n.sealed && !skipSeal
    ensures r.1.Occupied? <==> !n.sealed && !skipSeal && id in n.logs
    ensures r.1.Present? <==> skipSeal && id in n.logs
    ensures !r.1.Enqueued? ==> r.0 == n
    ensures r.1.Enqueued? ==> id !in n.logs && r.0.logs == n.logs[id := payload] && r.0.sealed == n.sealed
  {
    if !skipSeal && n.sealed then
      (n, SealedLog)
    else if id in n.logs then
      (n, if skipSeal then Present else Occupied)
    else
      var added := AfterAdd(n.queue, id);
      var queue := if commitIndex.Some? then AfterBound(added, commitIndex.value) else added;
      (n.(logs := n.logs[id := payload], queue := queue), Enqueued)
  }

  /** The appends whose promises an append fulfils. */
  function Completed(before: NanoLog, after: NanoLog): set<int> {
    before.queue.pending + (after.logs.Keys - before.logs.Keys) - after.queue.pending
  }

  /** Completed ids lie below the index, and the index only skips what is below the bound. */
  lemma BoundCovers(q: Queue, bound: int)
    ensures var q' := AfterBound(q, bound);
            && q.index <= q'.index && q'.pending <= q.pending
            && (forall k | q.index <= k < q'.index :: k in q.pending || k < bound)
            && (forall k <- q.pending | k !in q'.pending :: k < q'.index)
  {
    var mid := Queue(if bound > q.index then bound else q.index, set k <- q.pending | k >= bound);
    var q' := AfterBound(q, bound);
    forall k | q.index <= k < q'.index
      ensures k in q.pending || k < bound
    {
      assert k >= mid.index ==> k in mid.pending;
    }
  }

  lemma AddCovers(q: Queue, id: int)
    ensures var q' := AfterAdd(q, id);
            && q.index <= q'.index && q'.pending <= q.pending + {id}
            && (forall k | q.index <= k < q'.index :: k in q.pending || k == id)
            && (forall k <- q.pending + {id} | k !in q'.pending :: k < q'.index)
  {
    var mid := Queue(q.index, q.pending + {id});
    var q' := AfterAdd(q, id);
    forall k | q.index <= k < q'.index
      ensures k in q.pending || k == id
    {
      assert k in mid.pending;
    }
  }

  /**
   * What an append can do to a nano log: entries are only added, the index
   * only rises, and it passes an id only if the log holds it or the sender's
   * commit index is above it; a completed id is stored and below the index.
   */
  lemma AppendCovers(n: NanoLog, commitIndex: Option<int>, id: int, payload: string, skipSeal: bool)
    requires n.queue.pending <= n.logs.Keys
    ensures var n' := Append(n, commitIndex, id, payload, skipSeal).0;
            && n'.start == n.start && n'.sealed == n.sealed && n.queue.index <= n'.queue.index
            && n.logs.Keys <= n'.logs.Keys && (forall k <- n.logs :: n'.logs[k] == n.logs[k])
            && (forall k <- n'.logs | k !in n.logs :: k == id && n'.logs[k] == payload)
            && n'.queue.pending <= n'.logs.Keys
            && (forall k | n.queue.index <= k < n'.queue.index ::
                  k in n'.logs || (commitIndex.Some? && k < commitIndex.value))
            && (forall k <- Completed(n, n') :: k in n'.logs && k < n'.queue.index)
  {
    var n' := Append(n, commitIndex, id, payload, skipSeal).0;
    if n' != n {
      var added := AfterAdd(n.queue, id);
      AddCovers(n.queue, id);
      if commitIndex.Some? {
        BoundCovers(added, commitIndex.value);
        forall k | n.queue.index <= k < n'.queue.index
          ensures k in n'.logs || k < commitIndex.value
        {
          assert k in n.queue.pending || k == id || k >= added.index;
        }
      }
    }
  }

  /** A stored append that brings a commit index completes everything below it, here or not. */
  lemma AppendHonoursCommit(n: NanoLog, commitIndex: int, id: int, payload: string, skipSeal: bool)
    requires Append(n, Some(commitIndex), id, payload, skipSeal).1.Enqueued?
    ensures var q := Append(n, Some(commitIndex), id, payload, skipSeal).0.queue;
            q.index >= commitIndex && forall k <- q.pending :: k >= commitIndex
  {
  }

  /**
   * Where a stored append leaves the index when nothing waits below it: at the least id, from the old index or the
   * commit index on, that is neither waiting nor the new one; and only what lies above goes on waiting.
   */
  lemma AppendIndex(n: NanoLog, commitIndex: Option<int>, id: int, payload: string, skipSeal: bool)
    requires Append(n, commitIndex, id, payload, skipSeal).1.Enqueued?
    requires id >= n.queue.index && n.queue.index !in n.queue.pending
    requires forall k <- n.queue.pending :: k >= n.queue.index
    ensures var q, waiting := Append(n, commitIndex, id, payload, skipSeal).0.queue, n.queue.pending + {id};
            var raised := commitIndex.Some? && commitIndex.value > n.queue.index;
            var floor := if raised then commitIndex.value else n.queue.index;
            LeastMissing(floor, waiting, q.index) && q.pending == set k <- waiting | k >= q.index
  {
    var waiting := n.queue.pending + {id};
    var added := AfterAdd(n.queue, id);
    assert !exists k :: k in waiting && k < n.queue.index;
    assert LeastMissing(n.queue.index, waiting, added.index);
    if commitIndex.Some? {
      BoundStep(added, n.queue.index, waiting, commitIndex.value);
    }
  }

  class InMemoryNanoLog {
    const startIndex: int
    var sealed: bool
    var logs: map<int, string>
    const completionQueue: OrderedCompletionQueue<int>

    ghost predicate Valid()
      reads this, completionQueue
    {
      completionQueue.Valid()
    }

    ghost function Value(): NanoLog
      reads this, completionQueue
    {
      NanoLog(startIndex, sealed, logs, completionQueue.Value())
    }

    constructor (startIndex: int)
      ensures Valid() && Value() == FreshLog(startIndex) && fresh(completionQueue)
    {
      this.startIndex := startIndex;
      sealed, logs := false, map[];
      completionQueue := new OrderedCompletionQueue<int>(startIndex);
    }

    method AppendEntry(globalCommitIndex: Option<int>, logId: int, payload: string, skipSeal: bool)
      returns (reply: AppendReply)
      requires Valid()
      modifies this, completionQueue
      ensures Valid()
      ensures (Value(), reply) == Append(old(Value()), globalCommitIndex, logId, payload, skipSeal)
    {
      if !skipSeal && sealed {
        return SealedLog;
      }
      if logId in logs {
        return if skipSeal then Present else Occupied;
      }
      logs := logs[logId := payload];
      completionQueue.Add(logId, logId, true);
      if globalCommitIndex.Some? {
        completionQueue.CompleteAllBelow(globalCommitIndex.value);
      }
      return Enqueued;
    }

    method GetLogEntry(logId: int) returns (entry: Option<string>)
      ensures entry == if logId in Value().logs then Some(Value().logs[logId]) else None
    {
      if logId in logs {
        return Some(logs[logId]);
      }
      return None;
    }

    method Seal() returns (endIndex: int)
      requires Valid()
      modifies this`sealed
      ensures Valid() && Value() == old(Value()).(sealed := true) && endIndex == Value().queue.index
    {
      sealed := true;
      endIndex := completionQueue.currentIndex;
    }
  }

  /**
   * The persistent nano log's append when the sender gave no commit index: it
   * persists the new end index before completing anything, and ends with the
   * queue of a plain add, whose index is the end index it persisted.
   */
  method CompleteDeferred(queue: OrderedCompletionQueue<int>, logId: int, endIndex: int) returns (newEndIndex: int)
    requires queue.Valid()
    modifies queue
    ensures queue.Valid() && queue.Value() == AfterAdd(old(queue.Value()), logId)
    ensures newEndIndex == if queue.currentIndex > old(queue.currentIndex) then queue.currentIndex else endIndex
  {
    DeferredIsAdd(queue.Value(), logId);
    newEndIndex := endIndex;
    queue.Add(logId, logId, false);
    var from, to := queue.GetRangeEligibleForCompletion();
    if to > from {
      newEndIndex := to;
      queue.CompleteAllBelow(to - 1);
    }
  }
}
