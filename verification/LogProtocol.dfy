/**
 * The replicated log as a distributed protocol: one sequencer per version
 * hands out ids and sends entries to all replicas; any number of
 * reconfigurers may at any time seal a majority, copy what it holds and try to
 * install the next version (log/impl/VirtualLogImpl.cc, SequencerImpl.cc,
 * ReplicaImpl.cc).  A sent append may arrive at any later time, repeatedly, or
 * never; a reconfigurer may stop at any point.
 */
module LogProtocol {
  import opened Options
  import opened MetadataStore
  import opened NanoLogs

  /** A position of one version's log. */
  datatype Slot = Slot(version: int, id: int)

  datatype AppendMsg = AppendMsg(replica: nat, version: int, id: int, payload: string,
                                 commitIndex: Option<int>, copying: bool)

  /** How an append call at a replica ended well. */
  datatype Outcome =
    | Live    // completed in order while the replica was not sealed
    | Late    // completed after the replica was sealed
    | Already // a copying append found the entry in place

  datatype Ack = Ack(replica: nat, version: int, id: int, outcome: Outcome)

  /** The sequencer of one version. */
  datatype Sequencer = Sequencer(nextId: int, commitIndex: int)

  datatype Phase =
    | Sealing
    | Copying(next: int, max: int)
    | Pushing(next: int, max: int, payload: string)
    | Installed(next: int)
    | Finished

  /** One call of `reconfigure`: the version it read, the majority it chose, their end indexes. */
  datatype Reconfigurer = Reconfigurer(version: int, members: set<nat>, ends: map<nat, int>, phase: Phase)

  datatype State = State(meta: Store,
                         replicas: seq<map<int, NanoLog>>,
                         sequencers: map<int, Sequencer>,
                         entries: map<Slot, string>,
                         msgs: set<AppendMsg>,
                         acks: set<Ack>,
                         reconfigurers: seq<Reconfigurer>)

  datatype Step =
    | AssignId(version: int, payload: string)
    | SendAppend(version: int, id: int, replica: nat)
    | DeliverAppend(msg: AppendMsg)
    | AdvanceCommit(version: int, id: int, quorum: set<nat>)
    | StartReconfigure(members: set<nat>)
    | SealReplica(rec: nat, replica: nat)
    | StartCopying(rec: nat)
    | FetchEntry(rec: nat, source: nat)
    | FinishPush(rec: nat, quorum: set<nat>)
    | Install(rec: nat, sequencer: string, replicaIds: seq<string>)
    | StartSequencer(rec: nat)

  /** The smallest majority. */
  function Quorum(n: nat): (q: nat)
    ensures 2 * q > n && 2 * (q - 1) <= n
  {
    n / 2 + 1
  }

  /** A replica's log of a version, created on first use with the version's start. */
  function LogOf(meta: Store, replica: map<int, NanoLog>, version: int): NanoLog
    requires version in meta.configs
  {
    if version in replica then replica[version] else FreshLog(meta.configs[version].start)
  }

  predicate Stores(replicas: seq<map<int, NanoLog>>, r: nat, version: int, id: int) {
    r < |replicas| && version in replicas[r] && id in replicas[r][version].logs
  }

  function MinEnd(ends: map<nat, int>): int
    requires ends != map[]
  {
    MinKey(ends.Values)
  }

  function MaxEnd(ends: map<nat, int>): int
    requires ends != map[]
  {
    MaxKey(ends.Values)
  }

  /** The config a reconfiguration writes. */
  function NextConfig(version: int, start: int, sequencer: string, replicaIds: seq<string>): Config {
    Config(version + 1, version, start, MAX_INDEX, start, sequencer, replicaIds)
  }

  /** One bootstrap config, its sequencer running, nothing stored yet. */
  ghost predicate Init(s: State) {
    && |s.replicas| > 0
    && (exists c: Config :: c.version == 1 && c.previous == 0
          && CompareAndAppend(Store(map[], map[]), c) == Ok(s.meta)
          && s.sequencers == map[1 := Sequencer(c.start, c.start)])
    && (forall r | 0 <= r < |s.replicas| :: s.replicas[r] == map[])
    && s.entries == map[] && s.msgs == {} && s.acks == {} && s.reconfigurers == []
  }

  ghost predicate Running(s: State, k: nat) {
    k < |s.reconfigurers| && s.reconfigurers[k].version in s.meta.configs
  }

  ghost predicate Enabled(s: State, step: Step) {
    match step
    case AssignId(v, payload) => v in s.sequencers
    case SendAppend(v, id, r) => Slot(v, id) in s.entries && v in s.sequencers && r < |s.replicas|
    case DeliverAppend(m) => m in s.msgs && m.replica < |s.replicas| && m.version in s.meta.configs
    case AdvanceCommit(v, id, quorum) =>
      && v in s.sequencers && |quorum| >= Quorum(|s.replicas|)
      && forall r <- quorum :: Ack(r, v, id, Live) in s.acks || Ack(r, v, id, Late) in s.acks
    case StartReconfigure(members) =>
      |members| == Quorum(|s.replicas|) && forall r <- members :: r < |s.replicas|
    case SealReplica(k, r) =>
      && Running(s, k) && s.reconfigurers[k].phase.Sealing? && r < |s.replicas|
      && r in s.reconfigurers[k].members && r !in s.reconfigurers[k].ends
    case StartCopying(k) =>
      && Running(s, k) && s.reconfigurers[k].phase.Sealing?
      && s.reconfigurers[k].ends.Keys == s.reconfigurers[k].members && s.reconfigurers[k].ends != map[]
    case FetchEntry(k, source) =>
      && Running(s, k) && s.reconfigurers[k].phase.Copying?
      && s.reconfigurers[k].phase.next < s.reconfigurers[k].phase.max
      && source in s.reconfigurers[k].members
      && Stores(s.replicas, source, s.reconfigurers[k].version, s.reconfigurers[k].phase.next)
    case FinishPush(k, quorum) =>
      && Running(s, k) && s.reconfigurers[k].phase.Pushing? && |quorum| >= Quorum(|s.replicas|)
      && forall r <- quorum ::
           exists o :: Ack(r, s.reconfigurers[k].version, s.reconfigurers[k].phase.next, o) in s.acks
    case Install(k, _, _) =>
      && Running(s, k) && s.reconfigurers[k].phase.Copying?
      && s.reconfigurers[k].phase.next >= s.reconfigurers[k].phase.max
    case StartSequencer(k) => Running(s, k) && s.reconfigurers[k].phase.Installed?
  }

  ghost function SetPhase(s: State, k: nat, phase: Phase): seq<Reconfigurer>
    requires k < |s.reconfigurers|
  {
    s.reconfigurers[k := s.reconfigurers[k].(phase := phase)]
  }

  ghost function Apply(s: State, step: Step): State
    requires Enabled(s, step)
  {
    match step
    case AssignId(v, payload) =>
      var q := s.sequencers[v];
      s.(sequencers := s.sequencers[v := q.(nextId := q.nextId + 1)],
         entries := s.entries[Slot(v, q.nextId) := payload])
    case SendAppend(v, id, r) =>
      s.(msgs := s.msgs + {AppendMsg(r, v, id, s.entries[Slot(v, id)], Some(s.sequencers[v].commitIndex), false)})
    case DeliverAppend(m) =>
      var before := LogOf(s.meta, s.replicas[m.replica], m.version);
      var (after, reply) := Append(before, m.commitIndex, m.id, m.payload, m.copying);
      s.(replicas := s.replicas[m.replica := s.replicas[m.replica][m.version := after]],
         acks := s.acks
                 + (set id <- Completed(before, after) ::
                      Ack(m.replica, m.version, id, if before.sealed then Late else Live))
                 + (if reply.Present? then {Ack(m.replica, m.version, m.id, Already)} else {}))
    case AdvanceCommit(v, id, _) =>
      var q := s.sequencers[v];
      s.(sequencers := s.sequencers[v := q.(commitIndex := if q.commitIndex < id then id else q.commitIndex)])
    case StartReconfigure(members) =>
      s.(reconfigurers := s.reconfigurers + [Reconfigurer(CurrentVersion(s.meta), members, map[], Sealing)])
    case SealReplica(k, r) =>
      var rec := s.reconfigurers[k];
      var sealed := LogOf(s.meta, s.replicas[r], rec.version).(sealed := true);
      s.(replicas := s.replicas[r := s.replicas[r][rec.version := sealed]],
         reconfigurers := s.reconfigurers[k := rec.(ends := rec.ends[r := sealed.queue.index])])
    case StartCopying(k) =>
      var ends := s.reconfigurers[k].ends;
      s.(reconfigurers := SetPhase(s, k, Copying(MinEnd(ends), MaxEnd(ends))))
    case FetchEntry(k, source) =>
      var rec := s.reconfigurers[k];
      var payload := s.replicas[source][rec.version].logs[rec.phase.next];
      s.(msgs := s.msgs + (set r: nat | r < |s.replicas| ::
                   AppendMsg(r, rec.version, rec.phase.next, payload, None, true)),
         reconfigurers := SetPhase(s, k, Pushing(rec.phase.next, rec.phase.max, payload)))
    case FinishPush(k, _) =>
      var phase := s.reconfigurers[k].phase;
      s.(reconfigurers := SetPhase(s, k, Copying(phase.next + 1, phase.max)))
    case Install(k, sequencer, replicaIds) =>
      var rec := s.reconfigurers[k];
      var result := CompareAndAppend(s.meta, NextConfig(rec.version, rec.phase.max, sequencer, replicaIds));
      if result.Ok? then s.(meta := result.value, reconfigurers := SetPhase(s, k, Installed(rec.phase.max)))
      else s.(reconfigurers := SetPhase(s, k, Finished))
    case StartSequencer(k) =>
      var rec := s.reconfigurers[k];
      s.(sequencers := s.sequencers[rec.version + 1 := Sequencer(rec.phase.next, rec.phase.next)],
         reconfigurers := SetPhase(s, k, Finished))
  }

  ghost predicate Next(s: State, s': State) {
    exists step :: Enabled(s, step) && s' == Apply(s, step)
  }

  ghost predicate IsRun(run: seq<State>) {
    && |run| > 0 && Init(run[0])
    && forall i | 0 <= i < |run| - 1 :: Next(run[i], run[i + 1])
  }

  // ---- What the promises of the log are about ----

  ghost predicate HeldBy(replicas: seq<map<int, NanoLog>>, quorum: set<nat>, version: int, id: int) {
    |quorum| >= Quorum(|replicas|) && forall r <- quorum :: Stores(replicas, r, version, id)
  }

  /** A majority of the replicas store the entry. */
  ghost predicate OnMajority(replicas: seq<map<int, NanoLog>>, version: int, id: int) {
    exists quorum :: HeldBy(replicas, quorum, version, id)
  }

  /** A quorum of replicas completed the append, sealed or not: when `append` answers its caller. */
  ghost predicate Answered(s: State, quorum: set<nat>, version: int, id: int) {
    && |quorum| >= Quorum(|s.replicas|)
    && forall r <- quorum :: Ack(r, version, id, Live) in s.acks || Ack(r, version, id, Late) in s.acks
  }

  /** These replicas completed the append while they were not sealed. */
  ghost predicate AckedLive(s: State, live: set<nat>, version: int, id: int) {
    forall r <- live :: Ack(r, version, id, Live) in s.acks
  }

  /** `live` are all the replicas that did so. */
  ghost predicate LiveSet(s: State, live: set<nat>, version: int, id: int) {
    forall r: nat :: r in live <==> Ack(r, version, id, Live) in s.acks
  }

  /** The replicas that completed it unsealed meet every majority; for odd numbers of replicas they are one. */
  ghost predicate Acknowledged(s: State, live: set<nat>, version: int, id: int) {
    |live| + Quorum(|s.replicas|) > |s.replicas| && AckedLive(s, live, version, id)
  }

  /**
   * What a read of `id` may return: it looks the id up in the index in state
   * `s`, and asks some replica for the entry of that version in state `s'`.
   */
  ghost predicate MayRead(s: State, s': State, id: int, payload: string) {
    exists c: Config, r: nat ::
      IsIndexed(s.meta, id, Some(c)) && Stores(s'.replicas, r, c.version, id)
      && s'.replicas[r][c.version].logs[id] == payload
  }
}
