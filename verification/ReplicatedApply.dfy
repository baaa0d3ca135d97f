/**
 * Nodes that apply the replicated log: the ordered apply loop on top of the log protocol.  Every node makes its own
 * reads, at its own times; what they have in common is only one run of the log.
 */
module ReplicatedApply {
  import opened Options
  import opened Counter
  import opened OrderedApply
  import LogProtocol
  import LogSafety

  /** How a payload becomes a batch; `None` is a parse error, which breaks the fetch. */
  type Decoder = string -> Option<seq<Entry>>

  /** What a node fetched up to `k`: each id was looked up after it or a later id had been acknowledged. */
  ghost predicate FetchedFrom(run: seq<LogProtocol.State>, decode: Decoder, log: Log, k: int) {
    forall x <- log | 1 <= x <= k :: FetchedEntry(run, decode, x, log[x])
  }

  ghost predicate FetchedEntry(run: seq<LogProtocol.State>, decode: Decoder, x: LogId, batch: seq<Entry>) {
    exists p :: LogSafety.SafeRead(run, x, p) && decode(p) == Some(batch)
  }

  /** Different nodes' fetches of one id return one batch. */
  lemma FetchesAgree(run: seq<LogProtocol.State>, decode: Decoder, k: nat, log: Log, log': Log)
    requires LogProtocol.IsRun(run) && FetchedFrom(run, decode, log, k) && FetchedFrom(run, decode, log', k)
    ensures SameUpto(log, log', k)
  {
    hide LogProtocol.IsRun, LogSafety.SafeRead;
    forall x | 1 <= x <= k && x in log && x in log' ensures log[x] == log'[x] {
      assert FetchedEntry(run, decode, x, log[x]) && FetchedEntry(run, decode, x, log'[x]);
      var p :| LogSafety.SafeRead(run, x, p) && decode(p) == Some(log[x]);
      var p' :| LogSafety.SafeRead(run, x, p') && decode(p') == Some(log'[x]);
      LogSafety.SafeReadsAgree(run, x, p, p');
    }
  }

  /**
   * Two nodes that fetch from one run of the log, across any reconfigurations: as far as acknowledgements reached
   * before their lookups (up to `k`) they apply the same batches, and nodes that applied equally many ids of these
   * hold equal counters.  What either fetched beyond `k` does not matter.
   */
  lemma ReplicasAgree(run: seq<LogProtocol.State>, decode: Decoder, k: nat,
                      log: Log, start: LogId, a: Node, log': Log, start': LogId, b: Node)
    requires LogProtocol.IsRun(run) && FetchedFrom(run, decode, log, k) && FetchedFrom(run, decode, log', k)
    requires Reachable(log, start, a) && Reachable(log', start', b)
    ensures forall i: nat | i < k && i < |a.done| && i < |b.done| :: a.done[i] == b.done[i]
    ensures |a.done| == |b.done| <= k ==> a.app == b.app
  {
    hide LogProtocol.IsRun, FetchedFrom, Reachable;
    FetchesAgree(run, decode, k, log, log');
    InOrderApply(log, start, a);
    InOrderApply(log', start', b);
    forall i: nat | i < k && i < |a.done| && i < |b.done| ensures a.done[i] == b.done[i] {
      assert IsEntry(log, a.done[i], i + 1) && IsEntry(log', b.done[i], i + 1);
    }
    if |a.done| == |b.done| <= k {
      NodesAgree(log, start, a, log', start', b);
    }
  }

  /** Callers that wait for one acknowledged id get one answer, whichever node they asked. */
  lemma AnswersAgree(run: seq<LogProtocol.State>, decode: Decoder,
                     log: Log, start: LogId, a: Node, p: nat, log': Log, start': LogId, b: Node, p': nat)
    requires Reachable(log, start, a) && Reachable(log', start', b) && p in a.answers && p' in b.answers
    requires p < |a.asked| && p' < |b.asked| && a.asked[p] == b.asked[p']
    requires LogProtocol.IsRun(run)
    requires FetchedFrom(run, decode, log, a.asked[p]) && FetchedFrom(run, decode, log', a.asked[p])
    ensures a.answers[p].values == b.answers[p'].values
  {
    hide LogProtocol.IsRun, FetchedFrom, Reachable, Applied, Replay;
    var id := a.asked[p];
    PromisesGetTheirOwnResult(log, start, a, p);
    PromisesGetTheirOwnResult(log', start', b, p');
    InOrderApply(log, start, a);
    InOrderApply(log', start', b);
    FetchesAgree(run, decode, id, log, log');
    forall x | 1 <= x <= id ensures x in log && x in log' {
      assert IsEntry(log, a.done[x - 1], x) && IsEntry(log', b.done[x - 1], x);
    }
    SameReplay(log, log', id - 1);
  }
}
