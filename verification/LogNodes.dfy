/**
 * The objects that take part in the log protocol: the sequencer (log/impl/SequencerImpl.cc), the replica
 * (log/impl/ReplicaImpl.cc) and the sealing loop of a reconfiguration (log/impl/VirtualLogImpl.cc), each tied to
 * the protocol's own functions.
 */
module LogNodes {
  import opened Options
  import opened MetadataStore
  import opened CompletionQueue
  import opened NanoLogs
  import opened LogProtocol
  import LogSafety
  import QuorumWait

  type Positive = n: int | n >= 1 witness 1

  // ---- Sequencer ----

  class SequencerImpl {
    const quorumSize: Positive
    var versionId: int
    var sequenceNum: int
    var globalCommitIndex: int
    var isAlive: bool

    ghost function Value(): Sequencer
      reads this
    {
      Sequencer(sequenceNum, globalCommitIndex)
    }

    constructor (replicas: nat, seed: int, versionId: int, isAlive: bool)
      ensures Value() == Sequencer(seed, seed) && this.versionId == versionId && quorumSize == Quorum(replicas)
    {
      quorumSize := replicas / 2 + 1;
      this.versionId, sequenceNum, globalCommitIndex, this.isAlive := versionId, seed, seed, isAlive;
    }

    method LatestAppendPosition() returns (id: int)
      ensures id == Value().nextId - 1
    {
      return sequenceNum - 1;
    }

    method TakeId() returns (logId: int)
      modifies this`sequenceNum
      ensures logId == old(sequenceNum) && Value() == old(Value()).(nextId := logId + 1)
    {
      logId := sequenceNum;
      sequenceNum := sequenceNum + 1;
    }

    /**
     * An append, given in which order the replicas answer: its id is used up either way, and it succeeds, raising
     * the commit index to its id, exactly when a quorum of them succeed.  Without replicas it is never answered.
     */
    method AppendEntry(answers: seq<QuorumWait.Finished>) returns (logId: int, outcome: QuorumWait.Outcome)
      modifies this`sequenceNum, this`globalCommitIndex
      ensures logId == old(sequenceNum) && sequenceNum == logId + 1
      ensures outcome.Value? <==> QuorumWait.Successes(answers) >= quorumSize
      ensures outcome.Pending? <==> answers == []
      ensures outcome.Exception? ==> outcome.failed == QuorumWait.Failed(answers)
      ensures globalCommitIndex ==
              if outcome.Value? && old(globalCommitIndex) < logId then logId else old(globalCommitIndex)
    {
      logId := TakeId();
      outcome := QuorumWait.AnyNSuccessful(answers, quorumSize);
      if outcome.Value? && globalCommitIndex < logId {
        globalCommitIndex := logId;
      }
    }

    method Start(versionId: int, sequenceNum: int)
      modifies this
      ensures Value() == Sequencer(sequenceNum, sequenceNum) && this.versionId == versionId && isAlive
    {
      this.sequenceNum, globalCommitIndex, this.versionId, isAlive := sequenceNum, sequenceNum, versionId, true;
    }
  }

  /** The protocol's sequencer steps, field by field, are the sequencer's calls. */
  lemma ProtocolAssign(s: State, v: int, payload: string)
    requires Enabled(s, AssignId(v, payload))
    ensures var q, s' := s.sequencers[v], Apply(s, AssignId(v, payload));
            && s'.sequencers[v].nextId == q.nextId + 1 && s'.sequencers[v].commitIndex == q.commitIndex
            && Slot(v, q.nextId) in s'.entries && s'.entries[Slot(v, q.nextId)] == payload
  {
  }

  /** A quorum of answers raises the commit index to the id, and never lowers it. */
  lemma ProtocolAdvance(s: State, v: int, id: int, quorum: set<nat>)
    requires v in s.sequencers
    ensures Enabled(s, AdvanceCommit(v, id, quorum)) <==> Answered(s, quorum, v, id)
    ensures Enabled(s, AdvanceCommit(v, id, quorum)) ==>
            var q, q' := s.sequencers[v], Apply(s, AdvanceCommit(v, id, quorum)).sequencers[v];
            && q'.nextId == q.nextId && q.commitIndex <= q'.commitIndex && id <= q'.commitIndex
            && (q'.commitIndex == q.commitIndex || q'.commitIndex == id)
  {
  }

  // ---- Replica ----

  datatype ReplicaError = MetadataBlockNotFound

  type NanoLogsOf = map<int, NanoLog>

  /** The log of a version at a replica; a version that is new to it needs a config. */
  function Opened(meta: Store, logs: NanoLogsOf, version: int): Option<NanoLog> {
    if version in logs then Some(logs[version])
    else
      var config := GetConfig(meta, version);
      if config.Some? then Some(FreshLog(config.value.start)) else None
  }

  function ReplicaAppend(meta: Store, logs: NanoLogsOf, version: int,
                         commitIndex: Option<int>, id: int, payload: string, skipSeal: bool):
    (NanoLogsOf, Result<AppendReply, ReplicaError>)
  {
    var log := Opened(meta, logs, version);
    if log.None? then (logs, Err(MetadataBlockNotFound))
    else
      var (after, reply) := Append(log.value, commitIndex, id, payload, skipSeal);
      (logs[version := after], Ok(reply))
  }

  /** Sealing needs the config even when the log is there; it answers with the first id not known to be complete. */
  function ReplicaSeal(meta: Store, logs: NanoLogsOf, version: int): (NanoLogsOf, Result<int, ReplicaError>) {
    var log := Opened(meta, logs, version);
    if GetConfig(meta, version).None? || log.None? then (logs, Err(MetadataBlockNotFound))
    else (logs[version := log.value.(sealed := true)], Ok(log.value.queue.index))
  }

  /** When a replica refuses for want of a config; it then changes nothing. */
  lemma ReplicaErrors(meta: Store, logs: NanoLogsOf, version: int,
                      commitIndex: Option<int>, id: int, payload: string, skipSeal: bool)
    ensures var (after, reply) := ReplicaAppend(meta, logs, version, commitIndex, id, payload, skipSeal);
            && (reply.Err? <==> version !in logs && version != 0 && version !in meta.configs)
            && (reply.Err? ==> after == logs)
            && (reply.Ok? ==> version in after && forall v <- logs | v != version :: v in after && after[v] == logs[v])
    ensures var (after, end) := ReplicaSeal(meta, logs, version);
            && (end.Err? <==> version != 0 && version !in meta.configs)
            && (end.Err? ==> after == logs)
            && (end.Ok? ==> version in after && after[version].sealed && end.value == after[version].queue.index)
  {
  }

  class ReplicaImpl {
    const metadataStore: InMemoryMetadataStore
    var nanoLogs: map<int, InMemoryNanoLog>

    ghost function Logs(): set<InMemoryNanoLog>
      reads this
    {
      set v <- nanoLogs.Keys :: nanoLogs[v]
    }

    ghost function Queues(): set<OrderedCompletionQueue<int>>
      reads this
    {
      set v <- nanoLogs.Keys :: nanoLogs[v].completionQueue
    }

    ghost predicate Valid()
      reads this, Logs(), Queues()
    {
      && (forall v <- nanoLogs.Keys :: nanoLogs[v].Valid())
      && (forall v, w | v in nanoLogs && w in nanoLogs && v != w ::
            nanoLogs[v] != nanoLogs[w] && nanoLogs[v].completionQueue != nanoLogs[w].completionQueue)
    }

    ghost function Value(): NanoLogsOf
      reads this, Logs(), Queues()
    {
      map v <- nanoLogs.Keys :: nanoLogs[v].Value()
    }

    constructor (metadataStore: InMemoryMetadataStore)
      ensures Valid() && Value() == map[] && this.metadataStore == metadataStore
    {
      this.metadataStore, nanoLogs := metadataStore, map[];
    }

    /** Finds the log of a version or creates it with the start of the version's config. */
    method Open(versionId: int) returns (nanoLog: Option<InMemoryNanoLog>)
      requires Valid()
      modifies this
      ensures Valid()
      ensures fresh(Logs() - old(Logs())) && fresh(Queues() - old(Queues()))
      ensures match Opened(metadataStore.Value(), old(Value()), versionId)
              case None => nanoLog == None && Value() == old(Value())
              case Some(log) =>
                && nanoLog.Some? && versionId in nanoLogs && nanoLogs[versionId] == nanoLog.value
                && Value() == old(Value())[versionId := log]
    {
      hide InMemoryNanoLog.Valid, InMemoryNanoLog.Value;
      if versionId in nanoLogs {
        assert Value() == old(Value())[versionId := old(Value())[versionId]];
        return Some(nanoLogs[versionId]);
      }
      var config := metadataStore.GetConfigOf(versionId);
      assert Value() == old(Value());
      if config.None? {
        return None;
      }
      var created := new InMemoryNanoLog(config.value.start);
      assert Valid() && Value() == old(Value());
      Add(versionId, created);
      return Some(created);
    }

    method Add(versionId: int, nanoLog: InMemoryNanoLog)
      requires Valid() && versionId !in nanoLogs
      requires nanoLog.Valid() && nanoLog !in Logs() && nanoLog.completionQueue !in Queues()
      modifies this`nanoLogs
      ensures Valid() && nanoLogs == old(nanoLogs)[versionId := nanoLog]
      ensures Logs() == old(Logs()) + {nanoLog} && Queues() == old(Queues()) + {nanoLog.completionQueue}
      ensures Value() == old(Value())[versionId := nanoLog.Value()]
    {
      hide InMemoryNanoLog.Valid, InMemoryNanoLog.Value;
      assert forall v <- nanoLogs :: nanoLogs[v] in Logs() && nanoLogs[v].completionQueue in Queues();
      nanoLogs := nanoLogs[versionId := nanoLog];
      assert nanoLogs[versionId] == nanoLog;
      assert forall v <- old(nanoLogs) :: nanoLogs[v] == old(nanoLogs[v]);
    }

    method AppendEntry(globalCommitIndex: Option<int>, versionId: int, logId: int, payload: string, skipSeal: bool)
      returns (result: Result<AppendReply, ReplicaError>)
      requires Valid()
      modifies this, Logs(), Queues()
      ensures Valid()
      ensures (Value(), result) ==
              ReplicaAppend(metadataStore.Value(), old(Value()), versionId, globalCommitIndex, logId, payload, skipSeal)
    {
      hide Value, Valid, Append;
      var nanoLog := Open(versionId);
      if nanoLog.None? {
        return Err(MetadataBlockNotFound);
      }
      ghost var before := Value();
      assert nanoLogs[versionId] in Logs() && nanoLogs[versionId].completionQueue in Queues();
      var reply := AppendTo(versionId, globalCommitIndex, logId, payload, skipSeal);
      assert Value() == old(Value())[versionId :=
               Append(before[versionId], globalCommitIndex, logId, payload, skipSeal).0];
      return Ok(reply);
    }

    method AppendTo(versionId: int, globalCommitIndex: Option<int>, logId: int, payload: string, skipSeal: bool)
      returns (reply: AppendReply)
      requires Valid() && versionId in nanoLogs
      modifies nanoLogs[versionId], nanoLogs[versionId].completionQueue
      ensures Valid()
      ensures var (after, answer) := Append(old(Value()[versionId]), globalCommitIndex, logId, payload, skipSeal);
              Value() == old(Value())[versionId := after] && reply == answer
    {
      hide InMemoryNanoLog.Valid, InMemoryNanoLog.Value;
      reply := nanoLogs[versionId].AppendEntry(globalCommitIndex, logId, payload, skipSeal);
      forall v <- nanoLogs.Keys | v != versionId
        ensures nanoLogs[v].Valid() && nanoLogs[v].Value() == old(nanoLogs[v].Value()) {
      }
    }

    method GetLogEntry(versionId: int, logId: int) returns (entry: Option<string>)
      requires Valid()
      ensures entry == if versionId in Value() && logId in Value()[versionId].logs
                       then Some(Value()[versionId].logs[logId]) else None
    {
      if versionId !in nanoLogs {
        return None;
      }
      entry := nanoLogs[versionId].GetLogEntry(logId);
    }

    method Seal(versionId: int) returns (result: Result<int, ReplicaError>)
      requires Valid()
      modifies this, Logs()
      ensures Valid()
      ensures (Value(), result) == ReplicaSeal(metadataStore.Value(), old(Value()), versionId)
    {
      hide InMemoryNanoLog.Valid, InMemoryNanoLog.Value;
      var config := metadataStore.GetConfigOf(versionId);
      assert Value() == old(Value());
      if config.None? {
        return Err(MetadataBlockNotFound);
      }
      var nanoLog := Open(versionId);
      ghost var before := Value();
      var end := SealIn(versionId);
      assert Value() == old(Value())[versionId := before[versionId].(sealed := true)];
      return Ok(end);
    }

    method SealIn(versionId: int) returns (end: int)
      requires Valid() && versionId in nanoLogs
      modifies nanoLogs[versionId]
      ensures Valid()
      ensures Value() == old(Value())[versionId := old(Value()[versionId]).(sealed := true)]
      ensures end == old(Value()[versionId]).queue.index
    {
      end := nanoLogs[versionId].Seal();
      forall v <- nanoLogs.Keys | v != versionId
        ensures nanoLogs[v].Valid() && nanoLogs[v].Value() == old(nanoLogs[v].Value()) {
      }
    }
  }

  lemma OpenedInRun(run: seq<State>, i: nat, r: nat, v: int)
    requires IsRun(run) && i < |run| && r < |run[i].replicas| && v in run[i].meta.configs
    ensures Opened(run[i].meta, run[i].replicas[r], v) == Some(LogOf(run[i].meta, run[i].replicas[r], v))
    ensures GetConfig(run[i].meta, v).Some?
  {
    LogSafety.ChainShape(run, i);
  }

  /** In every run, delivering an append is the replica's append, which always finds the config it needs. */
  lemma ProtocolAppend(run: seq<State>, i: nat, m: AppendMsg)
    requires IsRun(run) && i < |run| && Enabled(run[i], DeliverAppend(m))
    ensures var s := run[i];
            var (logs, reply) :=
              ReplicaAppend(s.meta, s.replicas[m.replica], m.version, m.commitIndex, m.id, m.payload, m.copying);
            reply.Ok? && Apply(s, DeliverAppend(m)).replicas == s.replicas[m.replica := logs]
  {
    hide IsRun;
    OpenedInRun(run, i, m.replica, m.version);
  }

  /** In every run, sealing is the replica's seal, and it never reports less than the version's start. */
  lemma ProtocolSeal(run: seq<State>, i: nat, k: nat, r: nat)
    requires IsRun(run) && i < |run| && Enabled(run[i], SealReplica(k, r))
    ensures var s, v := run[i], run[i].reconfigurers[k].version;
            var (logs, end) := ReplicaSeal(s.meta, s.replicas[r], v);
            var s' := Apply(s, SealReplica(k, r));
            && end.Ok? && s'.replicas == s.replicas[r := logs]
            && s'.reconfigurers[k].ends == s.reconfigurers[k].ends[r := end.value]
            && s.meta.configs[v].start <= end.value
  {
    hide IsRun;
    var v := run[i].reconfigurers[k].version;
    OpenedInRun(run, i, r, v);
    LogSafety.RunInv(run, i);
    LogStarts(run[i], r, v);
  }

  lemma LogStarts(s: State, r: nat, v: int)
    requires LogSafety.Inv(s) && r < |s.replicas| && v in s.meta.configs
    ensures s.meta.configs[v].start <= LogOf(s.meta, s.replicas[r], v).queue.index
  {
    LogSafety.LogOfOk(s, r, v);
  }

  // ---- Sealing ----

  const LOWEST := -0x8000_0000_0000_0000

  /** The loop over the ends that the sealed replicas report: the range to copy. */
  method SealBounds(members: seq<nat>, ends: map<nat, int>) returns (min: int, max: int)
    requires members != [] && ends.Keys == (set r <- members)
    requires forall r <- ends :: LOWEST <= ends[r] <= MAX_INDEX
    ensures ends != map[] && min == MinEnd(ends) && max == MaxEnd(ends)
  {
    min, max := MAX_INDEX, LOWEST;
    assert members[0] in ends;
    for i := 0 to |members|
      invariant forall j | 0 <= j < i :: min <= ends[members[j]] <= max
      invariant i > 0 ==> min in ends.Values && max in ends.Values
      invariant i == 0 ==> min == MAX_INDEX && max == LOWEST
    {
      var end := ends[members[i]];
      assert end in ends.Values;
      min := if end < min then end else min;
      max := if max < end then end else max;
    }
    forall e | e in ends.Values ensures min <= e <= max {
      var r :| r in ends && ends[r] == e;
    }
  }
}
