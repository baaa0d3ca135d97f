/** Invariants of the replicated log and what follows from them. */
module LogSafety {
  import opened Options
  import opened MetadataStore
  import opened NanoLogs
  import opened LogProtocol
  import opened Quorums

  type Replicas = seq<map<int, NanoLog>>
  type Entries = map<Slot, string>

  // ---- The invariant, in parts that each mention few fields ----

  /** The chain is in order, and all configs but the first are open ended in the index. */
  ghost predicate MetaOk(meta: Store) {
    ChainOk(meta) && IndexOk(meta) && NonDecreasing(meta) && Bootstrapped(meta)
  }

  ghost predicate Bootstrapped(meta: Store) {
    && 1 in meta.configs && (forall v <- meta.configs :: v >= 1)
    && (forall k <- meta.byLogId :: meta.byLogId[k].version == 1 || meta.byLogId[k].end == MAX_INDEX)
  }

  ghost predicate NanoLogOk(meta: Store, entries: Entries, v: int, n: NanoLog) {
    && v in meta.configs && n.start == meta.configs[v].start <= n.queue.index
    && n.queue.pending <= n.logs.Keys
    && (forall id <- n.logs :: Slot(v, id) in entries && entries[Slot(v, id)] == n.logs[id])
  }

  /** Every stored entry is the one its version's sequencer assigned. */
  ghost predicate LogsOk(meta: Store, entries: Entries, replicas: Replicas) {
    forall r, v | 0 <= r < |replicas| && v in replicas[r] :: NanoLogOk(meta, entries, v, replicas[r][v])
  }

  /** The log holds every id below its index, except ids that a majority holds. */
  ghost predicate CoveredLog(replicas: Replicas, v: int, n: NanoLog) {
    forall id | n.start <= id < n.queue.index :: id in n.logs || OnMajority(replicas, v, id)
  }

  ghost predicate Covered(replicas: Replicas) {
    forall r, v | 0 <= r < |replicas| && v in replicas[r] :: CoveredLog(replicas, v, replicas[r][v])
  }

  ghost predicate SequencersOk(meta: Store, sequencers: map<int, Sequencer>, entries: Entries) {
    && (forall v <- sequencers :: v in meta.configs && meta.configs[v].start <= sequencers[v].nextId
                                  && meta.configs[v].start <= sequencers[v].commitIndex)
    && (forall e <- entries :: e.version in sequencers
          && meta.configs[e.version].start <= e.id < sequencers[e.version].nextId)
  }

  /** All ids of the version from `start` up to `bound` are on a majority. */
  ghost predicate AllOnMajority(replicas: Replicas, v: int, start: int, bound: int) {
    forall id | start <= id < bound :: OnMajority(replicas, v, id)
  }

  ghost predicate CommitsOk(meta: Store, sequencers: map<int, Sequencer>, replicas: Replicas) {
    forall v <- sequencers :: v in meta.configs
                              && AllOnMajority(replicas, v, meta.configs[v].start, sequencers[v].commitIndex)
  }

  ghost predicate MsgsOk(msgs: set<AppendMsg>, sequencers: map<int, Sequencer>, entries: Entries) {
    forall m <- msgs ::
      && Slot(m.version, m.id) in entries && entries[Slot(m.version, m.id)] == m.payload
      && m.version in sequencers
      && (m.commitIndex.Some? ==> m.commitIndex.value <= sequencers[m.version].commitIndex)
  }

  ghost predicate AcksOk(replicas: Replicas, acks: set<Ack>) {
    forall a <- acks ::
      && Stores(replicas, a.replica, a.version, a.id)
      && (a.outcome != Already ==> a.id < replicas[a.replica][a.version].queue.index)
  }

  /** The replica is sealed in this version, and what it completed before lies below `bound`. */
  ghost predicate SealedBelow(replicas: Replicas, acks: set<Ack>, r: nat, v: int, bound: int) {
    && r < |replicas| && v in replicas[r] && replicas[r][v].sealed
    && (forall a <- acks | a.replica == r && a.version == v && a.outcome == Live :: a.id < bound)
  }

  ghost predicate EndsOk(replicas: Replicas, acks: set<Ack>, v: int, ends: map<nat, int>) {
    forall r <- ends ::
      SealedBelow(replicas, acks, r, v, ends[r]) && replicas[r][v].start <= ends[r] <= replicas[r][v].queue.index
  }

  /** Progress of the copying loop: everything below `next` is on a majority. */
  ghost predicate LoopOk(meta: Store, replicas: Replicas, rec: Reconfigurer, next: int, max: int)
    requires rec.version in meta.configs
  {
    && rec.ends.Keys == rec.members && rec.ends != map[]
    && max == MaxEnd(rec.ends) && meta.configs[rec.version].start <= next <= max
    && AllOnMajority(replicas, rec.version, meta.configs[rec.version].start, next)
  }

  ghost predicate ReconfigurerOk(meta: Store, entries: Entries, replicas: Replicas, acks: set<Ack>, rec: Reconfigurer) {
    && rec.version in meta.configs
    && |rec.members| == Quorum(|replicas|) && (forall r <- rec.members :: r < |replicas|)
    && rec.ends.Keys <= rec.members
    && EndsOk(replicas, acks, rec.version, rec.ends)
    && match rec.phase
       case Copying(next, max) => LoopOk(meta, replicas, rec, next, max)
       case Pushing(next, max, payload) =>
         && LoopOk(meta, replicas, rec, next, max) && next < max
         && Slot(rec.version, next) in entries && entries[Slot(rec.version, next)] == payload
       case _ => true
  }

  ghost predicate ReconfigurersOk(meta: Store, entries: Entries, replicas: Replicas, acks: set<Ack>,
                                  recs: seq<Reconfigurer>) {
    forall k | 0 <= k < |recs| :: ReconfigurerOk(meta, entries, replicas, acks, recs[k])
  }

  ghost predicate SealedMajority(replicas: Replicas, acks: set<Ack>, members: set<nat>, v: int, bound: int) {
    |members| >= Quorum(|replicas|) && forall r <- members :: SealedBelow(replicas, acks, r, v, bound)
  }

  /** A closed version has no gaps, and a sealed majority keeps acknowledgements below its end. */
  ghost predicate ClosedOk(meta: Store, replicas: Replicas, acks: set<Ack>) {
    forall v, w | v in meta.configs && w in meta.configs && w == v + 1 ::
      && AllOnMajority(replicas, v, meta.configs[v].start, meta.configs[w].start)
      && exists members :: SealedMajority(replicas, acks, members, v, meta.configs[w].start)
  }

  /** Whoever installed a version is the only one to start its sequencer, once. */
  ghost predicate StartsOk(meta: Store, sequencers: map<int, Sequencer>, recs: seq<Reconfigurer>) {
    && (forall k | 0 <= k < |recs| && recs[k].phase.Installed? ::
          && recs[k].version + 1 in meta.configs && recs[k].version + 1 !in sequencers
          && meta.configs[recs[k].version + 1].start == recs[k].phase.next)
    && (forall j, k | 0 <= j < |recs| && 0 <= k < |recs| && recs[j].phase.Installed? && recs[k].phase.Installed?
                      && recs[j].version == recs[k].version :: j == k)
  }

  ghost predicate Inv(s: State) {
    && |s.replicas| > 0
    && MetaOk(s.meta)
    && LogsOk(s.meta, s.entries, s.replicas)
    && Covered(s.replicas)
    && SequencersOk(s.meta, s.sequencers, s.entries)
    && CommitsOk(s.meta, s.sequencers, s.replicas)
    && MsgsOk(s.msgs, s.sequencers, s.entries)
    && AcksOk(s.replicas, s.acks)
    && ReconfigurersOk(s.meta, s.entries, s.replicas, s.acks, s.reconfigurers)
    && ClosedOk(s.meta, s.replicas, s.acks)
    && StartsOk(s.meta, s.sequencers, s.reconfigurers)
  }

  // ---- Replicas only grow ----

  /** No entry is lost, no index falls, no seal is broken. */
  ghost predicate Grows(replicas: Replicas, replicas': Replicas) {
    && |replicas| == |replicas'|
    && forall r, v | 0 <= r < |replicas| && v in replicas[r] ::
         && v in replicas'[r]
         && LogGrows(replicas[r][v], replicas'[r][v])
  }

  ghost predicate LogGrows(n: NanoLog, n': NanoLog) {
    && n.start == n'.start && n.queue.index <= n'.queue.index && (n.sealed ==> n'.sealed)
    && n.logs.Keys <= n'.logs.Keys && (forall id <- n.logs :: n'.logs[id] == n.logs[id])
  }

  lemma MajorityKept(replicas: Replicas, replicas': Replicas)
    requires Grows(replicas, replicas')
    ensures forall v, id | OnMajority(replicas, v, id) :: OnMajority(replicas', v, id)
  {
    forall v, id | OnMajority(replicas, v, id)
      ensures OnMajority(replicas', v, id)
    {
      var q :| HeldBy(replicas, q, v, id);
      assert HeldBy(replicas', q, v, id);
    }
  }

  lemma AllKept(replicas: Replicas, replicas': Replicas, v: int, start: int, bound: int)
    requires Grows(replicas, replicas') && AllOnMajority(replicas, v, start, bound)
    ensures AllOnMajority(replicas', v, start, bound)
  {
    MajorityKept(replicas, replicas');
  }

  // ---- What every step leaves standing ----

  /** Versions keep their starts, entries their payloads, and no sealed log completes anything live. */
  ghost predicate Frame(s: State, s': State) {
    && (forall v <- s.meta.configs :: v in s'.meta.configs && s'.meta.configs[v].start == s.meta.configs[v].start)
    && (forall e <- s.entries :: e in s'.entries && s'.entries[e] == s.entries[e])
    && Grows(s.replicas, s'.replicas)
    && s.acks <= s'.acks
    && (forall a <- s'.acks | a !in s.acks && a.outcome == Live ::
          a.replica < |s.replicas|
          && (a.version in s.replicas[a.replica] ==> !s.replicas[a.replica][a.version].sealed))
  }

  lemma GrowsRefl(replicas: Replicas)
    ensures Grows(replicas, replicas)
  {
  }

  lemma SealedBelowKept(s: State, s': State, r: nat, v: int, bound: int)
    requires Frame(s, s') && SealedBelow(s.replicas, s.acks, r, v, bound)
    ensures SealedBelow(s'.replicas, s'.acks, r, v, bound)
  {
  }

  lemma EndsKept(s: State, s': State, rec: Reconfigurer)
    requires Frame(s, s') && EndsOk(s.replicas, s.acks, rec.version, rec.ends)
    ensures EndsOk(s'.replicas, s'.acks, rec.version, rec.ends)
  {
    forall r <- rec.ends ensures SealedBelow(s'.replicas, s'.acks, r, rec.version, rec.ends[r]) {
      SealedBelowKept(s, s', r, rec.version, rec.ends[r]);
    }
  }

  lemma ReconfigurerKept(s: State, s': State, rec: Reconfigurer)
    requires Frame(s, s') && ReconfigurerOk(s.meta, s.entries, s.replicas, s.acks, rec)
    ensures ReconfigurerOk(s'.meta, s'.entries, s'.replicas, s'.acks, rec)
  {
    EndsKept(s, s', rec);
    if rec.phase.Copying? || rec.phase.Pushing? {
      AllKept(s.replicas, s'.replicas, rec.version, s.meta.configs[rec.version].start, rec.phase.next);
    }
  }

  lemma ReconfigurersKept(s: State, s': State)
    requires Frame(s, s') && ReconfigurersOk(s.meta, s.entries, s.replicas, s.acks, s.reconfigurers)
    requires s'.reconfigurers == s.reconfigurers
    ensures ReconfigurersOk(s'.meta, s'.entries, s'.replicas, s'.acks, s'.reconfigurers)
  {
    forall k | 0 <= k < |s.reconfigurers|
      ensures ReconfigurerOk(s'.meta, s'.entries, s'.replicas, s'.acks, s'.reconfigurers[k])
    {
      ReconfigurerKept(s, s', s.reconfigurers[k]);
    }
  }

  /** One reconfigurer changed, the others are as they were. */
  lemma OtherReconfigurersKept(s: State, s': State, k: nat)
    requires Frame(s, s') && ReconfigurersOk(s.meta, s.entries, s.replicas, s.acks, s.reconfigurers)
    requires k < |s.reconfigurers| == |s'.reconfigurers|
    requires forall j | 0 <= j < |s.reconfigurers| && j != k :: s'.reconfigurers[j] == s.reconfigurers[j]
    requires ReconfigurerOk(s'.meta, s'.entries, s'.replicas, s'.acks, s'.reconfigurers[k])
    ensures ReconfigurersOk(s'.meta, s'.entries, s'.replicas, s'.acks, s'.reconfigurers)
  {
    forall j | 0 <= j < |s.reconfigurers|
      ensures ReconfigurerOk(s'.meta, s'.entries, s'.replicas, s'.acks, s'.reconfigurers[j])
    {
      if j != k {
        ReconfigurerKept(s, s', s.reconfigurers[j]);
      }
    }
  }

  lemma ClosedKept(s: State, s': State)
    requires Frame(s, s') && ClosedOk(s.meta, s.replicas, s.acks) && s'.meta.configs.Keys == s.meta.configs.Keys
    ensures ClosedOk(s'.meta, s'.replicas, s'.acks)
  {
    forall v, w | v in s'.meta.configs && w in s'.meta.configs && w == v + 1
      ensures AllOnMajority(s'.replicas, v, s'.meta.configs[v].start, s'.meta.configs[w].start)
      ensures exists members :: SealedMajority(s'.replicas, s'.acks, members, v, s'.meta.configs[w].start)
    {
      VersionClosedKept(s, s', v, w);
    }
  }

  lemma VersionClosedKept(s: State, s': State, v: int, w: int)
    requires Frame(s, s') && ClosedOk(s.meta, s.replicas, s.acks)
    requires v in s.meta.configs && w in s.meta.configs && w == v + 1
    ensures AllOnMajority(s'.replicas, v, s'.meta.configs[v].start, s'.meta.configs[w].start)
    ensures exists members :: SealedMajority(s'.replicas, s'.acks, members, v, s'.meta.configs[w].start)
  {
    var bound := s.meta.configs[w].start;
    AllKept(s.replicas, s'.replicas, v, s.meta.configs[v].start, bound);
    var members :| SealedMajority(s.replicas, s.acks, members, v, bound);
    forall r <- members ensures SealedBelow(s'.replicas, s'.acks, r, v, bound) {
      SealedBelowKept(s, s', r, v, bound);
    }
    assert SealedMajority(s'.replicas, s'.acks, members, v, bound);
  }

  lemma CommitsKept(s: State, s': State)
    requires Frame(s, s') && CommitsOk(s.meta, s.sequencers, s.replicas) && s'.sequencers == s.sequencers
    ensures CommitsOk(s'.meta, s'.sequencers, s'.replicas)
  {
    forall v <- s.sequencers
      ensures v in s'.meta.configs
      ensures AllOnMajority(s'.replicas, v, s'.meta.configs[v].start, s'.sequencers[v].commitIndex)
    {
      AllKept(s.replicas, s'.replicas, v, s.meta.configs[v].start, s.sequencers[v].commitIndex);
    }
  }

  // ---- Steps that write a replica's log ----

  /** Replacing one log by a grown one. */
  lemma PutGrows(s: State, r: nat, v: int, n': NanoLog)
    requires r < |s.replicas| && v in s.meta.configs && LogGrows(LogOf(s.meta, s.replicas[r], v), n')
    ensures Grows(s.replicas, s.replicas[r := s.replicas[r][v := n']])
  {
  }

  lemma PutLogsOk(s: State, r: nat, v: int, n': NanoLog)
    requires LogsOk(s.meta, s.entries, s.replicas) && r < |s.replicas| && NanoLogOk(s.meta, s.entries, v, n')
    ensures LogsOk(s.meta, s.entries, s.replicas[r := s.replicas[r][v := n']])
  {
  }

  lemma PutCovered(s: State, r: nat, v: int, n': NanoLog)
    requires Covered(s.replicas) && r < |s.replicas|
    requires var replicas' := s.replicas[r := s.replicas[r][v := n']];
             Grows(s.replicas, replicas') && CoveredLog(replicas', v, n')
    ensures Covered(s.replicas[r := s.replicas[r][v := n']])
  {
    var replicas' := s.replicas[r := s.replicas[r][v := n']];
    MajorityKept(s.replicas, replicas');
    forall q, w | 0 <= q < |replicas'| && w in replicas'[q]
      ensures CoveredLog(replicas', w, replicas'[q][w])
    {
      if q == r && w == v {
      } else {
        assert replicas'[q][w] == s.replicas[q][w];
      }
    }
  }

  /** The log as it was on first use or before is good. */
  lemma LogOfOk(s: State, r: nat, v: int)
    requires LogsOk(s.meta, s.entries, s.replicas) && r < |s.replicas| && v in s.meta.configs
    ensures NanoLogOk(s.meta, s.entries, v, LogOf(s.meta, s.replicas[r], v))
  {
  }

  lemma LogOfCovered(s: State, r: nat, v: int)
    requires Covered(s.replicas) && r < |s.replicas| && v in s.meta.configs
    ensures CoveredLog(s.replicas, v, LogOf(s.meta, s.replicas[r], v))
  {
  }

  /** The delivered log is a good one that grew out of the old one. */
  lemma DeliveredLog(s: State, m: AppendMsg)
    requires LogsOk(s.meta, s.entries, s.replicas)
    requires MsgsOk(s.msgs, s.sequencers, s.entries) && Enabled(s, DeliverAppend(m))
    ensures var n := LogOf(s.meta, s.replicas[m.replica], m.version);
            var n' := Append(n, m.commitIndex, m.id, m.payload, m.copying).0;
            && LogGrows(n, n') && NanoLogOk(s.meta, s.entries, m.version, n')
            && forall id <- Completed(n, n') :: id in n'.logs && id < n'.queue.index
  {
    LogOfOk(s, m.replica, m.version);
    AppendCovers(LogOf(s.meta, s.replicas[m.replica], m.version), m.commitIndex, m.id, m.payload, m.copying);
  }

  lemma DeliverFrame(s: State, m: AppendMsg)
    requires LogsOk(s.meta, s.entries, s.replicas)
    requires MsgsOk(s.msgs, s.sequencers, s.entries) && Enabled(s, DeliverAppend(m))
    ensures Frame(s, Apply(s, DeliverAppend(m)))
    ensures LogsOk(s.meta, s.entries, Apply(s, DeliverAppend(m)).replicas)
  {
    DeliveredLog(s, m);
    hide LogsOk, MsgsOk, NanoLogOk;
    var n' := Append(LogOf(s.meta, s.replicas[m.replica], m.version), m.commitIndex, m.id, m.payload, m.copying).0;
    PutGrows(s, m.replica, m.version, n');
    PutLogsOk(s, m.replica, m.version, n');
  }

  lemma AckKept(replicas: Replicas, replicas': Replicas, acks: set<Ack>)
    requires Grows(replicas, replicas') && AcksOk(replicas, acks)
    ensures AcksOk(replicas', acks)
  {
  }

  lemma DeliverAcks(s: State, m: AppendMsg)
    requires LogsOk(s.meta, s.entries, s.replicas) && MsgsOk(s.msgs, s.sequencers, s.entries)
    requires AcksOk(s.replicas, s.acks) && Enabled(s, DeliverAppend(m))
    ensures AcksOk(Apply(s, DeliverAppend(m)).replicas, Apply(s, DeliverAppend(m)).acks)
  {
    hide LogsOk, MsgsOk, NanoLogOk;
    var s' := Apply(s, DeliverAppend(m));
    DeliveredLog(s, m);
    DeliverFrame(s, m);
    AckKept(s.replicas, s'.replicas, s.acks);
    forall a <- s'.acks | a !in s.acks
      ensures Stores(s'.replicas, a.replica, a.version, a.id)
      ensures a.outcome != Already ==> a.id < s'.replicas[a.replica][a.version].queue.index
    {
      assert a.replica == m.replica && a.version == m.version;
    }
  }

  lemma DeliverCovered(s: State, m: AppendMsg)
    requires LogsOk(s.meta, s.entries, s.replicas) && MsgsOk(s.msgs, s.sequencers, s.entries) && Covered(s.replicas)
    requires SequencersOk(s.meta, s.sequencers, s.entries)
    requires CommitsOk(s.meta, s.sequencers, s.replicas) && Enabled(s, DeliverAppend(m))
    ensures Covered(Apply(s, DeliverAppend(m)).replicas)
  {
    var s' := Apply(s, DeliverAppend(m));
    DeliverFrame(s, m);
    var n := LogOf(s.meta, s.replicas[m.replica], m.version);
    LogOfOk(s, m.replica, m.version);
    LogOfCovered(s, m.replica, m.version);
    AppendCovers(n, m.commitIndex, m.id, m.payload, m.copying);
    var n' := Append(n, m.commitIndex, m.id, m.payload, m.copying).0;
    MajorityKept(s.replicas, s'.replicas);
    forall id | n'.start <= id < n'.queue.index
      ensures id in n'.logs || OnMajority(s'.replicas, m.version, id)
    {
      if id >= n.queue.index && id !in n'.logs {
        assert id < s.sequencers[m.version].commitIndex;
        assert OnMajority(s.replicas, m.version, id);
      }
    }
    PutCovered(s, m.replica, m.version, n');
  }

  lemma DeliverInv(s: State, m: AppendMsg)
    requires Inv(s) && Enabled(s, DeliverAppend(m))
    ensures Inv(Apply(s, DeliverAppend(m)))
  {
    hide LogsOk, Covered, CommitsOk, AcksOk, ReconfigurersOk, ClosedOk, MetaOk, SequencersOk, StartsOk, MsgsOk, Frame;
    var s' := Apply(s, DeliverAppend(m));
    DeliverFrame(s, m);
    DeliverAcks(s, m);
    DeliverCovered(s, m);
    CommitsKept(s, s');
    ReconfigurersKept(s, s');
    ClosedKept(s, s');
  }

  lemma SealFrame(s: State, k: nat, r: nat)
    requires AcksOk(s.replicas, s.acks) && Enabled(s, SealReplica(k, r))
    ensures var s' := Apply(s, SealReplica(k, r)); Frame(s, s') && AcksOk(s'.replicas, s'.acks)
  {
    hide AcksOk;
    var s' := Apply(s, SealReplica(k, r));
    var v := s.reconfigurers[k].version;
    PutGrows(s, r, v, LogOf(s.meta, s.replicas[r], v).(sealed := true));
    AckKept(s.replicas, s'.replicas, s.acks);
  }

  lemma SealLogs(s: State, k: nat, r: nat)
    requires LogsOk(s.meta, s.entries, s.replicas) && Covered(s.replicas) && Enabled(s, SealReplica(k, r))
    ensures var s' := Apply(s, SealReplica(k, r)); LogsOk(s'.meta, s'.entries, s'.replicas) && Covered(s'.replicas)
  {
    hide LogsOk, Covered;
    var s' := Apply(s, SealReplica(k, r));
    var v := s.reconfigurers[k].version;
    var n' := LogOf(s.meta, s.replicas[r], v).(sealed := true);
    LogOfOk(s, r, v);
    LogOfCovered(s, r, v);
    PutLogsOk(s, r, v, n');
    PutGrows(s, r, v, n');
    MajorityKept(s.replicas, s'.replicas);
    PutCovered(s, r, v, n');
  }

  /** The end index a seal returns bounds everything the replica completed live. */
  lemma SealEnds(s: State, k: nat, r: nat)
    requires LogsOk(s.meta, s.entries, s.replicas) && AcksOk(s.replicas, s.acks) && Enabled(s, SealReplica(k, r))
    requires EndsOk(s.replicas, s.acks, s.reconfigurers[k].version, s.reconfigurers[k].ends)
    ensures var s' := Apply(s, SealReplica(k, r));
            EndsOk(s'.replicas, s'.acks, s'.reconfigurers[k].version, s'.reconfigurers[k].ends)
  {
    hide LogsOk, Frame;
    var s' := Apply(s, SealReplica(k, r));
    var rec, rec' := s.reconfigurers[k], s'.reconfigurers[k];
    SealFrame(s, k, r);
    EndsKept(s, s', rec);
    LogOfOk(s, r, rec.version);
    assert SealedBelow(s'.replicas, s'.acks, r, rec.version, rec'.ends[r]);
  }

  lemma SealReconfigurers(s: State, k: nat, r: nat)
    requires Inv(s) && Enabled(s, SealReplica(k, r))
    ensures var s' := Apply(s, SealReplica(k, r));
            ReconfigurersOk(s'.meta, s'.entries, s'.replicas, s'.acks, s'.reconfigurers)
  {
    var s' := Apply(s, SealReplica(k, r));
    hide MetaOk, LogsOk, Covered, SequencersOk, CommitsOk, MsgsOk, AcksOk, ClosedOk, StartsOk, Frame, EndsOk;
    SealFrame(s, k, r);
    assert ReconfigurerOk(s.meta, s.entries, s.replicas, s.acks, s.reconfigurers[k]);
    SealEnds(s, k, r);
    ReconfigurerKept(s, s', s.reconfigurers[k]);
    OtherReconfigurersKept(s, s', k);
  }

  /** A reconfigurer that has installed nothing may change freely. */
  lemma StartsKept(s: State, s': State, k: nat)
    requires StartsOk(s.meta, s.sequencers, s.reconfigurers) && s'.meta == s.meta && s'.sequencers == s.sequencers
    requires k < |s.reconfigurers| == |s'.reconfigurers| && !s'.reconfigurers[k].phase.Installed?
    requires forall j | 0 <= j < |s.reconfigurers| && j != k :: s'.reconfigurers[j] == s.reconfigurers[j]
    ensures StartsOk(s'.meta, s'.sequencers, s'.reconfigurers)
  {
  }

  lemma SealInv(s: State, k: nat, r: nat)
    requires Inv(s) && Enabled(s, SealReplica(k, r))
    ensures Inv(Apply(s, SealReplica(k, r)))
  {
    hide LogsOk, Covered, CommitsOk, MsgsOk, AcksOk, ClosedOk, Frame, MetaOk, SequencersOk, ReconfigurersOk, StartsOk;
    var s' := Apply(s, SealReplica(k, r));
    SealFrame(s, k, r);
    SealLogs(s, k, r);
    CommitsKept(s, s');
    ClosedKept(s, s');
    SealReconfigurers(s, k, r);
    StartsKept(s, s', k);
  }

  // ---- Steps of a sequencer ----

  lemma LogsKept(s: State, s': State)
    requires Frame(s, s') && LogsOk(s.meta, s.entries, s.replicas) && s'.replicas == s.replicas
    ensures LogsOk(s'.meta, s'.entries, s'.replicas)
  {
  }

  lemma AssignFrame(s: State, v: int, payload: string)
    requires SequencersOk(s.meta, s.sequencers, s.entries) && MsgsOk(s.msgs, s.sequencers, s.entries)
    requires CommitsOk(s.meta, s.sequencers, s.replicas) && Enabled(s, AssignId(v, payload))
    ensures var s' := Apply(s, AssignId(v, payload));
            && Frame(s, s') && SequencersOk(s'.meta, s'.sequencers, s'.entries)
            && MsgsOk(s'.msgs, s'.sequencers, s'.entries) && CommitsOk(s'.meta, s'.sequencers, s'.replicas)
  {
    assert Slot(v, s.sequencers[v].nextId) !in s.entries;
  }

  lemma AssignInv(s: State, v: int, payload: string)
    requires Inv(s) && Enabled(s, AssignId(v, payload))
    ensures Inv(Apply(s, AssignId(v, payload)))
  {
    hide LogsOk, Covered, CommitsOk, MsgsOk, AcksOk, ClosedOk, ReconfigurersOk, SequencersOk, MetaOk, Frame;
    var s' := Apply(s, AssignId(v, payload));
    AssignFrame(s, v, payload);
    LogsKept(s, s');
    ReconfigurersKept(s, s');
  }

  /** When a quorum completed an id, everything up to it is on a majority. */
  lemma QuorumCovers(s: State, v: int, id: int, quorum: set<nat>)
    requires LogsOk(s.meta, s.entries, s.replicas) && Covered(s.replicas) && AcksOk(s.replicas, s.acks)
    requires SequencersOk(s.meta, s.sequencers, s.entries) && Enabled(s, AdvanceCommit(v, id, quorum))
    ensures AllOnMajority(s.replicas, v, s.meta.configs[v].start, id)
  {
    forall i | s.meta.configs[v].start <= i < id
      ensures OnMajority(s.replicas, v, i)
    {
      if forall r <- quorum :: Stores(s.replicas, r, v, i) {
        assert HeldBy(s.replicas, quorum, v, i);
      } else {
        var r :| r in quorum && !Stores(s.replicas, r, v, i);
        assert Ack(r, v, id, Live) in s.acks || Ack(r, v, id, Late) in s.acks;
        assert CoveredLog(s.replicas, v, s.replicas[r][v]);
      }
    }
  }

  lemma AdvanceSequencers(s: State, v: int, id: int, quorum: set<nat>)
    requires SequencersOk(s.meta, s.sequencers, s.entries) && MsgsOk(s.msgs, s.sequencers, s.entries)
    requires CommitsOk(s.meta, s.sequencers, s.replicas) && Enabled(s, AdvanceCommit(v, id, quorum))
    requires AllOnMajority(s.replicas, v, s.meta.configs[v].start, id)
    ensures var s' := Apply(s, AdvanceCommit(v, id, quorum));
            && SequencersOk(s'.meta, s'.sequencers, s'.entries)
            && MsgsOk(s'.msgs, s'.sequencers, s'.entries) && CommitsOk(s'.meta, s'.sequencers, s'.replicas)
  {
  }

  lemma AdvanceInv(s: State, v: int, id: int, quorum: set<nat>)
    requires Inv(s) && Enabled(s, AdvanceCommit(v, id, quorum))
    ensures Inv(Apply(s, AdvanceCommit(v, id, quorum)))
  {
    hide LogsOk, Covered, CommitsOk, MsgsOk, AcksOk, ClosedOk, SequencersOk, MetaOk, AllOnMajority, ReconfigurerOk;
    QuorumCovers(s, v, id, quorum);
    AdvanceSequencers(s, v, id, quorum);
  }

  // ---- Steps of a reconfigurer ----

  /** Everything below the smallest end index of a sealed majority is on a majority. */
  lemma BelowMinOnMajority(s: State, rec: Reconfigurer)
    requires Covered(s.replicas) && LogsOk(s.meta, s.entries, s.replicas)
    requires ReconfigurerOk(s.meta, s.entries, s.replicas, s.acks, rec)
    requires rec.ends.Keys == rec.members && rec.ends != map[]
    ensures AllOnMajority(s.replicas, rec.version, s.meta.configs[rec.version].start, MinEnd(rec.ends))
  {
    forall id | s.meta.configs[rec.version].start <= id < MinEnd(rec.ends)
      ensures OnMajority(s.replicas, rec.version, id)
    {
      if forall r <- rec.members :: Stores(s.replicas, r, rec.version, id) {
        assert HeldBy(s.replicas, rec.members, rec.version, id);
      } else {
        var r :| r in rec.members && !Stores(s.replicas, r, rec.version, id);
        assert rec.ends[r] in rec.ends.Values;
        assert SealedBelow(s.replicas, s.acks, r, rec.version, rec.ends[r]);
        assert CoveredLog(s.replicas, rec.version, s.replicas[r][rec.version]);
      }
    }
  }

  /** A seal never returns less than its version's start. */
  lemma EndsAtLeastStart(s: State, rec: Reconfigurer)
    requires LogsOk(s.meta, s.entries, s.replicas) && ReconfigurerOk(s.meta, s.entries, s.replicas, s.acks, rec)
    ensures forall end <- rec.ends.Values :: s.meta.configs[rec.version].start <= end
  {
    forall r <- rec.ends ensures s.meta.configs[rec.version].start <= rec.ends[r] {
      assert SealedBelow(s.replicas, s.acks, r, rec.version, rec.ends[r]);
      assert NanoLogOk(s.meta, s.entries, rec.version, s.replicas[r][rec.version]);
    }
  }

  lemma StartCopyingInv(s: State, k: nat)
    requires Inv(s) && Enabled(s, StartCopying(k))
    ensures Inv(Apply(s, StartCopying(k)))
  {
    hide LogsOk, Covered, CommitsOk, AcksOk, ClosedOk, SequencersOk, MetaOk, StartsOk;
    var s' := Apply(s, StartCopying(k));
    var rec := s.reconfigurers[k];
    BelowMinOnMajority(s, rec);
    EndsAtLeastStart(s, rec);
    GrowsRefl(s.replicas);
    assert MinEnd(rec.ends) in rec.ends.Values;
    OtherReconfigurersKept(s, s', k);
    StartsKept(s, s', k);
  }

  /** What is fetched is what the sequencer assigned, so it may be sent on. */
  lemma FetchedEntry(s: State, k: nat, source: nat)
    requires Inv(s) && Enabled(s, FetchEntry(k, source))
    ensures var s' := Apply(s, FetchEntry(k, source));
            && MsgsOk(s'.msgs, s'.sequencers, s'.entries)
            && ReconfigurerOk(s'.meta, s'.entries, s'.replicas, s'.acks, s'.reconfigurers[k])
  {
    hide Covered, CommitsOk, AcksOk, ClosedOk, MetaOk, StartsOk, EndsOk, AllOnMajority;
    var rec := s.reconfigurers[k];
    assert ReconfigurerOk(s.meta, s.entries, s.replicas, s.acks, rec);
    assert NanoLogOk(s.meta, s.entries, rec.version, s.replicas[source][rec.version]);
  }

  lemma FetchInv(s: State, k: nat, source: nat)
    requires Inv(s) && Enabled(s, FetchEntry(k, source))
    ensures Inv(Apply(s, FetchEntry(k, source)))
  {
    hide LogsOk, Covered, CommitsOk, AcksOk, ClosedOk, SequencersOk, MetaOk, StartsOk, MsgsOk, ReconfigurerOk;
    var s' := Apply(s, FetchEntry(k, source));
    FetchedEntry(s, k, source);
    GrowsRefl(s.replicas);
    OtherReconfigurersKept(s, s', k);
    StartsKept(s, s', k);
  }

  lemma PushedEntry(s: State, k: nat, quorum: set<nat>)
    requires AcksOk(s.replicas, s.acks) && Enabled(s, FinishPush(k, quorum))
    ensures OnMajority(s.replicas, s.reconfigurers[k].version, s.reconfigurers[k].phase.next)
  {
    var rec := s.reconfigurers[k];
    assert HeldBy(s.replicas, quorum, rec.version, rec.phase.next);
  }

  lemma FinishPushInv(s: State, k: nat, quorum: set<nat>)
    requires Inv(s) && Enabled(s, FinishPush(k, quorum))
    ensures Inv(Apply(s, FinishPush(k, quorum)))
  {
    hide LogsOk, Covered, CommitsOk, AcksOk, ClosedOk, SequencersOk, MetaOk, StartsOk, MsgsOk, EndsOk;
    var s' := Apply(s, FinishPush(k, quorum));
    PushedEntry(s, k, quorum);
    assert ReconfigurerOk(s.meta, s.entries, s.replicas, s.acks, s.reconfigurers[k]);
    GrowsRefl(s.replicas);
    OtherReconfigurersKept(s, s', k);
    StartsKept(s, s', k);
  }

  // ---- Installing and starting a version ----

  lemma InstallBootstrapped(meta: Store, c: Config)
    requires Bootstrapped(meta) && CompareAndAppend(meta, c).Ok? && c.end == MAX_INDEX
    ensures Bootstrapped(CompareAndAppend(meta, c).value)
    ensures c.previous == CurrentVersion(meta) && c.version == c.previous + 1
  {
    AppendShape(meta, c);
    assert IsMax(meta.configs.Keys, CurrentVersion(meta));
  }

  /** An open-ended config that starts at or above the last one keeps the chain in order. */
  lemma InstallMeta(meta: Store, c: Config)
    requires MetaOk(meta) && CompareAndAppend(meta, c).Ok? && c.end == MAX_INDEX
    requires c.previous in meta.configs && meta.configs[c.previous].start <= c.start
    ensures MetaOk(CompareAndAppend(meta, c).value) && c.previous == CurrentVersion(meta) && c.version == c.previous + 1
  {
    hide CompareAndAppend, CurrentVersion, ChainOk, IndexOk, NonDecreasing, Bootstrapped;
    InstallBootstrapped(meta, c);
    AppendKeepsChain(meta, c);
    AppendKeepsOrder(meta, c);
  }

  /** The version just closed has no gaps, and its sealed majority completed nothing at or above its end. */
  lemma InstallCloses(s: State, k: nat, sequencer: string, ids: seq<string>)
    requires ReconfigurersOk(s.meta, s.entries, s.replicas, s.acks, s.reconfigurers)
    requires Enabled(s, Install(k, sequencer, ids))
    ensures var rec := s.reconfigurers[k];
            && AllOnMajority(s.replicas, rec.version, s.meta.configs[rec.version].start, rec.phase.max)
            && SealedMajority(s.replicas, s.acks, rec.members, rec.version, rec.phase.max)
  {
    var rec := s.reconfigurers[k];
    assert ReconfigurerOk(s.meta, s.entries, s.replicas, s.acks, rec);
    forall r <- rec.members ensures SealedBelow(s.replicas, s.acks, r, rec.version, rec.phase.max) {
      assert rec.ends[r] in rec.ends.Values;
      assert SealedBelow(s.replicas, s.acks, r, rec.version, rec.ends[r]);
    }
  }

  lemma InstallClosed(s: State, s': State, v: int, members: set<nat>)
    requires Frame(s, s') && s'.replicas == s.replicas && s'.acks == s.acks && ClosedOk(s.meta, s.replicas, s.acks)
    requires v in s.meta.configs && v + 1 !in s.meta.configs && s'.meta.configs.Keys == s.meta.configs.Keys + {v + 1}
    requires forall u <- s.meta.configs :: u <= v
    requires var end := s'.meta.configs[v + 1].start;
             && AllOnMajority(s.replicas, v, s.meta.configs[v].start, end)
             && SealedMajority(s.replicas, s.acks, members, v, end)
    ensures ClosedOk(s'.meta, s'.replicas, s'.acks)
  {
    forall u, w | u in s'.meta.configs && w in s'.meta.configs && w == u + 1
      ensures AllOnMajority(s'.replicas, u, s'.meta.configs[u].start, s'.meta.configs[w].start)
      ensures exists members :: SealedMajority(s'.replicas, s'.acks, members, u, s'.meta.configs[w].start)
    {
      if w in s.meta.configs {
        VersionClosedKept(s, s', u, w);
      } else {
        assert SealedMajority(s'.replicas, s'.acks, members, u, s'.meta.configs[w].start);
      }
    }
  }

  lemma InstallChain(s: State, k: nat, c: Config)
    requires Inv(s) && k < |s.reconfigurers| && s.reconfigurers[k].phase.Copying?
    requires c.previous == s.reconfigurers[k].version && c.start == s.reconfigurers[k].phase.max && c.end == MAX_INDEX
    requires CompareAndAppend(s.meta, c).Ok?
    ensures var meta' := CompareAndAppend(s.meta, c).value;
            && MetaOk(meta') && c.previous in s.meta.configs
            && c.version == c.previous + 1 && c.version !in s.meta.configs
            && meta'.configs.Keys == s.meta.configs.Keys + {c.version}
            && (forall v <- s.meta.configs :: v <= c.previous && meta'.configs[v].start == s.meta.configs[v].start)
            && meta'.configs[c.version] == c
  {
    hide Covered, CommitsOk, AcksOk, ClosedOk, SequencersOk, StartsOk, MsgsOk, EndsOk, AllOnMajority, MetaOk;
    var rec := s.reconfigurers[k];
    assert ReconfigurerOk(s.meta, s.entries, s.replicas, s.acks, rec);
    EndsAtLeastStart(s, rec);
    assert MaxEnd(rec.ends) in rec.ends.Values;
    InstallMeta(s.meta, c);
    AppendShape(s.meta, c);
    assert IsMax(s.meta.configs.Keys, CurrentVersion(s.meta));
  }

  lemma InstallStarts(s: State, k: nat, meta': Store)
    requires StartsOk(s.meta, s.sequencers, s.reconfigurers) && SequencersOk(s.meta, s.sequencers, s.entries)
    requires k < |s.reconfigurers| && s.reconfigurers[k].phase.Copying?
    requires var v := s.reconfigurers[k].version;
             && v + 1 !in s.meta.configs && meta'.configs.Keys == s.meta.configs.Keys + {v + 1}
             && (forall u <- s.meta.configs :: meta'.configs[u].start == s.meta.configs[u].start)
             && meta'.configs[v + 1].start == s.reconfigurers[k].phase.max
    ensures StartsOk(meta', s.sequencers, SetPhase(s, k, Installed(s.reconfigurers[k].phase.max)))
    ensures SequencersOk(meta', s.sequencers, s.entries)
  {
  }

  lemma InstallInv(s: State, k: nat, sequencer: string, ids: seq<string>)
    requires Inv(s) && Enabled(s, Install(k, sequencer, ids))
    ensures Inv(Apply(s, Install(k, sequencer, ids)))
  {
    hide LogsOk, Covered, CommitsOk, AcksOk, ClosedOk, SequencersOk, MetaOk, StartsOk, MsgsOk, EndsOk,
         AllOnMajority, SealedMajority;
    var s' := Apply(s, Install(k, sequencer, ids));
    var rec := s.reconfigurers[k];
    assert ReconfigurerOk(s.meta, s.entries, s.replicas, s.acks, rec);
    GrowsRefl(s.replicas);
    if s'.reconfigurers[k].phase.Installed? {
      InstallChain(s, k, NextConfig(rec.version, rec.phase.max, sequencer, ids));
      InstallStarts(s, k, s'.meta);
      InstallCloses(s, k, sequencer, ids);
      InstallClosed(s, s', rec.version, rec.members);
      LogsKept(s, s');
      CommitsKept(s, s');
      ReconfigurerKept(s, s', rec);
    } else {
      StartsKept(s, s', k);
    }
    OtherReconfigurersKept(s, s', k);
  }

  lemma StartSequencerInv(s: State, k: nat)
    requires Inv(s) && Enabled(s, StartSequencer(k))
    ensures Inv(Apply(s, StartSequencer(k)))
  {
    hide LogsOk, Covered, AcksOk, ClosedOk, MetaOk, EndsOk;
    var s' := Apply(s, StartSequencer(k));
    GrowsRefl(s.replicas);
    assert ReconfigurerOk(s.meta, s.entries, s.replicas, s.acks, s.reconfigurers[k]);
    OtherReconfigurersKept(s, s', k);
  }

  lemma StartReconfigureInv(s: State, members: set<nat>)
    requires Inv(s) && Enabled(s, StartReconfigure(members))
    ensures Inv(Apply(s, StartReconfigure(members)))
  {
    hide LogsOk, Covered, AcksOk, ClosedOk, CommitsOk, MsgsOk, SequencersOk, ChainOk, IndexOk, NonDecreasing;
    assert CurrentVersion(s.meta) in s.meta.configs;
  }

  lemma SendInv(s: State, v: int, id: int, r: nat)
    requires Inv(s) && Enabled(s, SendAppend(v, id, r))
    ensures Inv(Apply(s, SendAppend(v, id, r)))
  {
    hide LogsOk, Covered, AcksOk, ClosedOk, CommitsOk, SequencersOk, ReconfigurersOk, StartsOk, MetaOk;
  }

  lemma StepInv(s: State, step: Step)
    requires Inv(s) && Enabled(s, step)
    ensures Inv(Apply(s, step))
  {
    hide Inv, Apply;
    match step
    case AssignId(v, payload) => AssignInv(s, v, payload);
    case SendAppend(v, id, r) => SendInv(s, v, id, r);
    case DeliverAppend(m) => DeliverInv(s, m);
    case AdvanceCommit(v, id, quorum) => AdvanceInv(s, v, id, quorum);
    case StartReconfigure(members) => StartReconfigureInv(s, members);
    case SealReplica(k, r) => SealInv(s, k, r);
    case StartCopying(k) => StartCopyingInv(s, k);
    case FetchEntry(k, source) => FetchInv(s, k, source);
    case FinishPush(k, quorum) => FinishPushInv(s, k, quorum);
    case Install(k, sequencer, ids) => InstallInv(s, k, sequencer, ids);
    case StartSequencer(k) => StartSequencerInv(s, k);
  }

  lemma BootMetaOk(c: Config)
    requires c.version == 1 && c.previous == 0
    ensures CompareAndAppend(Store(map[], map[]), c) == Ok(Store(map[1 := c], map[c.start := c]))
    ensures MetaOk(Store(map[1 := c], map[c.start := c]))
  {
  }

  lemma InitInv(s: State)
    requires Init(s)
    ensures Inv(s)
  {
    var c: Config :| c.version == 1 && c.previous == 0
      && CompareAndAppend(Store(map[], map[]), c) == Ok(s.meta)
      && s.sequencers == map[1 := Sequencer(c.start, c.start)];
    BootMetaOk(c);
    hide MetaOk, CompareAndAppend;
    assert s.meta.configs.Keys == {1};
  }

  lemma StepOf(run: seq<State>, i: nat) returns (step: Step)
    requires IsRun(run) && i < |run| - 1
    ensures Enabled(run[i], step) && run[i + 1] == Apply(run[i], step)
  {
    hide Enabled, Apply, Init;
    assert Next(run[i], run[i + 1]);
    step :| Enabled(run[i], step) && run[i + 1] == Apply(run[i], step);
  }

  lemma RunStarts(run: seq<State>)
    requires IsRun(run)
    ensures Init(run[0])
  {
  }

  lemma {:induction false} RunInv(run: seq<State>, i: nat)
    requires IsRun(run) && i < |run|
    ensures Inv(run[i])
  {
    hide Inv, Init, IsRun, Enabled, Apply;
    if i == 0 {
      RunStarts(run);
      InitInv(run[0]);
    } else {
      RunInv(run, i - 1);
      var step := StepOf(run, i - 1);
      StepInv(run[i - 1], step);
    }
  }

  // ---- What holds over every run ----

  /**
   * Commit-index invariant: below its index a replica holds every id that a
   * majority does not, and a commit index, a sequencer's own or one in a message
   * ever sent, has all earlier ids of its version on a majority.
   */
  lemma CommitIndexInvariant(run: seq<State>, i: nat)
    requires IsRun(run) && i < |run|
    ensures forall r: nat, v, id | r < |run[i].replicas| && v in run[i].replicas[r]
                                   && run[i].replicas[r][v].start <= id < run[i].replicas[r][v].queue.index ::
              id in run[i].replicas[r][v].logs || OnMajority(run[i].replicas, v, id)
    ensures forall v, id | v in run[i].sequencers && v in run[i].meta.configs
                           && run[i].meta.configs[v].start <= id < run[i].sequencers[v].commitIndex ::
              OnMajority(run[i].replicas, v, id)
    ensures forall m, id | m in run[i].msgs && m.commitIndex.Some? && m.version in run[i].meta.configs
                           && run[i].meta.configs[m.version].start <= id < m.commitIndex.value ::
              OnMajority(run[i].replicas, m.version, id)
  {
    RunInv(run, i);
    var s := run[i];
    forall r: nat, v, id | r < |s.replicas| && v in s.replicas[r]
                           && s.replicas[r][v].start <= id < s.replicas[r][v].queue.index
      ensures id in s.replicas[r][v].logs || OnMajority(s.replicas, v, id)
    {
      assert CoveredLog(s.replicas, v, s.replicas[r][v]);
    }
  }

  /** Closed versions have no gaps. */
  lemma NoGaps(run: seq<State>, i: nat, v: int, id: int)
    requires IsRun(run) && i < |run|
    requires v in run[i].meta.configs && v + 1 in run[i].meta.configs
    requires run[i].meta.configs[v].start <= id < run[i].meta.configs[v + 1].start
    ensures OnMajority(run[i].replicas, v, id)
  {
    RunInv(run, i);
    assert AllOnMajority(run[i].replicas, v, run[i].meta.configs[v].start, run[i].meta.configs[v + 1].start);
  }

  /**
   * Chain shape: consecutive versions, each closed one ending where the next starts, starts in order, and every
   * config but the first indexed with an open end.
   */
  lemma ChainShape(run: seq<State>, i: nat)
    requires IsRun(run) && i < |run|
    ensures ChainOk(run[i].meta) && IndexOk(run[i].meta) && NonDecreasing(run[i].meta)
    ensures forall k <- run[i].meta.byLogId | run[i].meta.byLogId[k].version != 1 ::
              run[i].meta.byLogId[k].end == MAX_INDEX
    ensures 1 in run[i].meta.configs && forall v <- run[i].meta.configs :: v >= 1
  {
    RunInv(run, i);
  }

  /** A seal never reports less than its version's start. */
  lemma SealedFromStart(run: seq<State>, i: nat, k: nat, r: nat)
    requires IsRun(run) && i < |run| && k < |run[i].reconfigurers| && r in run[i].reconfigurers[k].ends
    ensures run[i].reconfigurers[k].version in run[i].meta.configs
    ensures run[i].meta.configs[run[i].reconfigurers[k].version].start <= run[i].reconfigurers[k].ends[r]
  {
    RunInv(run, i);
    var s := run[i];
    var rec := s.reconfigurers[k];
    assert ReconfigurerOk(s.meta, s.entries, s.replicas, s.acks, rec);
    assert SealedBelow(s.replicas, s.acks, r, rec.version, rec.ends[r]);
    assert NanoLogOk(s.meta, s.entries, rec.version, s.replicas[r][rec.version]);
  }

  /** The copying loop always finds its next entry at a member of the sealed majority. */
  lemma CopyingNeverStuck(run: seq<State>, i: nat, k: nat) returns (source: nat)
    requires IsRun(run) && i < |run| && k < |run[i].reconfigurers|
    requires run[i].reconfigurers[k].phase.Copying?
    requires run[i].reconfigurers[k].phase.next < run[i].reconfigurers[k].phase.max
    ensures Enabled(run[i], FetchEntry(k, source))
  {
    RunInv(run, i);
    source := FindSource(run[i], k);
  }

  lemma FindSource(s: State, k: nat) returns (source: nat)
    requires Inv(s) && k < |s.reconfigurers| && s.reconfigurers[k].phase.Copying?
    requires s.reconfigurers[k].phase.next < s.reconfigurers[k].phase.max
    ensures Enabled(s, FetchEntry(k, source))
  {
    hide MetaOk, LogsOk, Covered, SequencersOk, CommitsOk, MsgsOk, AcksOk, ClosedOk, StartsOk, EndsOk, AllOnMajority,
         Stores, MaxEnd;
    var rec := s.reconfigurers[k];
    assert ReconfigurerOk(s.meta, s.entries, s.replicas, s.acks, rec);
    source := SourceOf(s, rec);
  }

  lemma SourceOf(s: State, rec: Reconfigurer) returns (source: nat)
    requires LogsOk(s.meta, s.entries, s.replicas) && Covered(s.replicas)
    requires EndsOk(s.replicas, s.acks, rec.version, rec.ends)
    requires rec.version in s.meta.configs && rec.ends.Keys == rec.members && rec.ends != map[]
    requires |rec.members| == Quorum(|s.replicas|) && (forall r <- rec.members :: r < |s.replicas|)
    requires rec.phase.Copying? && s.meta.configs[rec.version].start <= rec.phase.next < MaxEnd(rec.ends)
    ensures source in rec.members && Stores(s.replicas, source, rec.version, rec.phase.next)
  {
    assert MaxEnd(rec.ends) in rec.ends.Values;
    var top :| top in rec.ends && rec.ends[top] == MaxEnd(rec.ends);
    assert SealedBelow(s.replicas, s.acks, top, rec.version, rec.ends[top]);
    assert NanoLogOk(s.meta, s.entries, rec.version, s.replicas[top][rec.version]);
    assert CoveredLog(s.replicas, rec.version, s.replicas[top][rec.version]);
    hide LogsOk, Covered, EndsOk, MaxEnd, NanoLogOk;
    if rec.phase.next in s.replicas[top][rec.version].logs {
      source := top;
    } else {
      var q :| HeldBy(s.replicas, q, rec.version, rec.phase.next);
      source := QuorumsMeet(|s.replicas|, q, rec.members);
    }
  }

  // ---- What stays along a run ----

  lemma InvMeta(s: State)
    requires Inv(s)
    ensures MetaOk(s.meta)
  {
  }

  /**
   * Acknowledgements, assigned entries and starts are never taken back, open ends stay open, and a sequencer's counter
   * and commit index never fall.
   */
  ghost predicate Keeps(s: State, s': State) {
    && s.acks <= s'.acks && |s'.replicas| == |s.replicas|
    && (forall e <- s.entries :: e in s'.entries && s'.entries[e] == s.entries[e])
    && (forall v <- s.meta.configs :: v in s'.meta.configs && s'.meta.configs[v].start == s.meta.configs[v].start)
    && (OpenEnded(s.meta) ==> OpenEnded(s'.meta))
    && (forall v <- s.sequencers ::
          && v in s'.sequencers
          && s.sequencers[v].nextId <= s'.sequencers[v].nextId
          && s.sequencers[v].commitIndex <= s'.sequencers[v].commitIndex)
  }

  lemma InstallKeepsMeta(meta: Store, c: Config)
    requires CompareAndAppend(meta, c).Ok? && c.end == MAX_INDEX
    ensures var meta' := CompareAndAppend(meta, c).value;
            && (forall v <- meta.configs :: v in meta'.configs && meta'.configs[v].start == meta.configs[v].start)
            && (OpenEnded(meta) ==> OpenEnded(meta'))
  {
    AppendShape(meta, c);
  }

  lemma StepKeeps(s: State, step: Step)
    requires SequencersOk(s.meta, s.sequencers, s.entries) && StartsOk(s.meta, s.sequencers, s.reconfigurers)
    requires Enabled(s, step)
    ensures Keeps(s, Apply(s, step))
  {
    hide CompareAndAppend, OpenEnded;
    if step.AssignId? {
      assert Slot(step.version, s.sequencers[step.version].nextId) !in s.entries;
    } else if step.Install? {
      var rec := s.reconfigurers[step.rec];
      var c := NextConfig(rec.version, rec.phase.max, step.sequencer, step.replicaIds);
      if CompareAndAppend(s.meta, c).Ok? {
        InstallKeepsMeta(s.meta, c);
      }
    }
  }

  lemma InvSequencers(s: State)
    requires Inv(s)
    ensures SequencersOk(s.meta, s.sequencers, s.entries) && StartsOk(s.meta, s.sequencers, s.reconfigurers)
  {
  }

  /**
   * What an accepted reconfiguration writes: the next version, from where the last one was copied to, open ended, with
   * the sequencer and the replicas it was asked for; and the version before ends there.
   */
  lemma InstallWrites(run: seq<State>, i: nat, k: nat, sequencer: string, replicaIds: seq<string>)
    requires IsRun(run) && i < |run| - 1 && Enabled(run[i], Install(k, sequencer, replicaIds))
    requires run[i + 1] == Apply(run[i], Install(k, sequencer, replicaIds))
    requires run[i + 1].reconfigurers[k].phase.Installed?
    ensures var v, max := run[i].reconfigurers[k].version, run[i].reconfigurers[k].phase.max;
            && v in run[i + 1].meta.configs && v + 1 in run[i + 1].meta.configs && v + 1 !in run[i].meta.configs
            && run[i + 1].meta.configs[v].end == max
            && var c := run[i + 1].meta.configs[v + 1];
               && c.version == v + 1 && c.previous == v && c.start == max && c.end == MAX_INDEX && c.previousEnd == max
               && c.sequencer == sequencer && c.replicas == replicaIds
  {
    hide IsRun, Inv;
    RunInv(run, i);
    var s, rec := run[i], run[i].reconfigurers[k];
    InvMeta(s);
    var c := NextConfig(rec.version, rec.phase.max, sequencer, replicaIds);
    AppendShape(s.meta, c);
    assert run[i + 1].meta == CompareAndAppend(s.meta, c).value;
    assert s.meta.configs != map[];
  }

  /** An install is accepted exactly when no later version is there yet; a refused one leaves the chain alone. */
  lemma InstallAcceptedIff(run: seq<State>, i: nat, k: nat, sequencer: string, replicaIds: seq<string>)
    requires IsRun(run) && i < |run| && Enabled(run[i], Install(k, sequencer, replicaIds))
    ensures var s' := Apply(run[i], Install(k, sequencer, replicaIds));
            && (s'.reconfigurers[k].phase.Installed? <==> run[i].reconfigurers[k].version + 1 !in run[i].meta.configs)
            && (!s'.reconfigurers[k].phase.Installed? ==> s'.meta == run[i].meta && s'.reconfigurers[k].phase.Finished?)
  {
    hide IsRun, Inv;
    RunInv(run, i);
    var s, rec := run[i], run[i].reconfigurers[k];
    InvMeta(s);
    AcceptedIff(s.meta, NextConfig(rec.version, rec.phase.max, sequencer, replicaIds));
    if rec.version + 1 !in s.meta.configs {
      LastOf(s.meta, rec.version);
    }
  }

  lemma LastOf(meta: Store, v: int)
    requires ChainOk(meta) && v in meta.configs && v + 1 !in meta.configs
    ensures forall w <- meta.configs :: w <= v
  {
    forall w <- meta.configs ensures w <= v {
      assert w > v ==> v <= v + 1 <= w && v + 1 in meta.configs;
    }
  }

  lemma KeepsTrans(a: State, b: State, c: State)
    requires Keeps(a, b) && Keeps(b, c)
    ensures Keeps(a, c)
  {
  }

  lemma KeepsRefl(s: State)
    ensures Keeps(s, s)
  {
  }

  lemma {:induction false} RunKeeps(run: seq<State>, i: nat, j: nat)
    requires IsRun(run) && i <= j < |run|
    ensures Keeps(run[i], run[j])
    decreases j
  {
    hide Inv, Keeps, IsRun, Enabled, Apply, SequencersOk, StartsOk;
    if i == j {
      KeepsRefl(run[i]);
    } else {
      RunKeeps(run, i, j - 1);
      RunInv(run, j - 1);
      var step := StepOf(run, j - 1);
      InvSequencers(run[j - 1]);
      StepKeeps(run[j - 1], step);
      KeepsTrans(run[i], run[j - 1], run[j]);
    }
  }

  // ---- No id is skipped ----

  /** Every id from a version's start up to its sequencer's counter was assigned to an entry. */
  ghost predicate Numbered(s: State) {
    forall v, id | v in s.sequencers && v in s.meta.configs && s.meta.configs[v].start <= id < s.sequencers[v].nextId ::
      Slot(v, id) in s.entries
  }

  lemma StepNumbered(s: State, step: Step)
    requires SequencersOk(s.meta, s.sequencers, s.entries) && StartsOk(s.meta, s.sequencers, s.reconfigurers)
    requires Numbered(s) && Enabled(s, step) && Keeps(s, Apply(s, step))
    ensures Numbered(Apply(s, step))
  {
    hide CompareAndAppend, Append, LogOf, MinEnd, MaxEnd, OpenEnded;
  }

  lemma {:induction false} RunNumbered(run: seq<State>, i: nat)
    requires IsRun(run) && i < |run|
    ensures Numbered(run[i])
  {
    if i == 0 {
      RunStarts(run);
      BootNumbered(run[0]);
    } else {
      hide IsRun, Inv, Enabled, Apply, Numbered, Keeps, SequencersOk, StartsOk;
      RunNumbered(run, i - 1);
      RunInv(run, i - 1);
      InvSequencers(run[i - 1]);
      RunKeeps(run, i - 1, i);
      var step := StepOf(run, i - 1);
      StepNumbered(run[i - 1], step);
    }
  }

  lemma BootNumbered(s: State)
    requires Init(s)
    ensures Numbered(s)
  {
    var c: Config :| c.version == 1 && c.previous == 0
      && CompareAndAppend(Store(map[], map[]), c) == Ok(s.meta)
      && s.sequencers == map[1 := Sequencer(c.start, c.start)];
    BootMetaOk(c);
  }

  /** In every run a version's ids are assigned one after the other from its start: none is skipped, none beyond. */
  lemma NoIdSkipped(run: seq<State>, i: nat, v: int, id: int)
    requires IsRun(run) && i < |run| && v in run[i].sequencers
    ensures v in run[i].meta.configs
    ensures Slot(v, id) in run[i].entries <==> run[i].meta.configs[v].start <= id < run[i].sequencers[v].nextId
  {
    RunInv(run, i);
    RunNumbered(run, i);
  }

  lemma EntryIsAssigned(s: State, r: nat, v: int, id: int)
    requires Inv(s) && Stores(s.replicas, r, v, id)
    ensures Slot(v, id) in s.entries && s.replicas[r][v].logs[id] == s.entries[Slot(v, id)]
  {
    assert NanoLogOk(s.meta, s.entries, v, s.replicas[r][v]);
  }

  /** Log agreement: whenever two replicas are looked at, one version and id holds one payload. */
  lemma LogAgreement(run: seq<State>, i: nat, r: nat, j: nat, r': nat, v: int, id: int)
    requires IsRun(run) && i <= j < |run|
    requires Stores(run[i].replicas, r, v, id) && Stores(run[j].replicas, r', v, id)
    ensures run[i].replicas[r][v].logs[id] == run[j].replicas[r'][v].logs[id]
  {
    hide Inv, IsRun;
    RunInv(run, i);
    RunInv(run, j);
    RunKeeps(run, i, j);
    EntryIsAssigned(run[i], r, v, id);
    EntryIsAssigned(run[j], r', v, id);
  }

  // ---- Owners along a run ----

  /** An owner keeps an id that lies below every start added since. */
  lemma OwnerKept(s: State, s': State, v: int, logId: int)
    requires Keeps(s, s') && Owns(s.meta, v, logId)
    requires forall w <- s'.meta.configs | w !in s.meta.configs :: logId < s'.meta.configs[w].start
    ensures Owns(s'.meta, v, logId)
  {
  }

  /** The owner of an id below the last start never changes. */
  lemma OwnerNeverChanges(run: seq<State>, i: nat, j: nat, last: int, v: int, w: int, logId: int)
    requires IsRun(run) && i <= j < |run|
    requires last in run[i].meta.configs && logId < run[i].meta.configs[last].start
    requires Owns(run[i].meta, v, logId) && Owns(run[j].meta, w, logId)
    ensures v == w
  {
    hide Inv, IsRun, Owns;
    RunInv(run, i);
    RunInv(run, j);
    RunKeeps(run, i, j);
    InvMeta(run[i]);
    InvMeta(run[j]);
    LaterStarts(run[i].meta, run[j].meta, last, logId);
    OwnerKept(run[i], run[j], v, logId);
    OwnerIsUnique(run[j].meta, v, w, logId);
  }

  lemma LaterStarts(meta: Store, meta': Store, last: int, logId: int)
    requires MetaOk(meta) && MetaOk(meta') && last in meta.configs && logId < meta.configs[last].start
    requires forall v <- meta.configs :: v in meta'.configs && meta'.configs[v].start == meta.configs[v].start
    ensures forall w <- meta'.configs | w !in meta.configs :: logId < meta'.configs[w].start
  {
    forall w <- meta'.configs | w !in meta.configs ensures logId < meta'.configs[w].start {
      assert 1 in meta.configs && w >= 1;
      assert w > last;
    }
  }

  /** From a bootstrap config with an open end, in every state of every run a lookup by id is a scan of the chain. */
  lemma LookupIsScan(run: seq<State>, i: nat, logId: int, found: Option<Config>)
    requires IsRun(run) && OpenEnded(run[0].meta) && i < |run| && logId < MAX_INDEX
    requires IsIndexed(run[i].meta, logId, found)
    ensures forall v | Owns(run[i].meta, v, logId) :: found.Some? && found.value.version == v
    ensures found.Some? ==> Owns(run[i].meta, found.value.version, logId)
    ensures found.None? ==> forall v <- run[i].meta.configs :: logId < run[i].meta.configs[v].start
  {
    hide Inv, IsRun, Owns, IsIndexed, OpenEnded;
    RunInv(run, i);
    InvMeta(run[i]);
    RunKeeps(run, 0, i);
    hide ChainOk, IndexOk, NonDecreasing;
    IndexAgreesWithChain(run[i].meta, logId, found);
  }

  // ---- Durability ----

  lemma AcknowledgedStored(s: State, r: nat, v: int, id: int)
    requires LogsOk(s.meta, s.entries, s.replicas) && AcksOk(s.replicas, s.acks)
    requires Ack(r, v, id, Live) in s.acks || Ack(r, v, id, Late) in s.acks
    ensures Stores(s.replicas, r, v, id) && Slot(v, id) in s.entries && v in s.meta.configs
  {
    assert Stores(s.replicas, r, v, id);
    assert NanoLogOk(s.meta, s.entries, v, s.replicas[r][v]);
  }

  /** An acknowledged id lies below the end of its version: the live replicas meet the sealed majority. */
  lemma AcknowledgedBelowEnd(s: State, live: set<nat>, v: int, id: int)
    requires ClosedOk(s.meta, s.replicas, s.acks) && Acknowledged(s, live, v, id)
    requires forall r <- live :: r < |s.replicas|
    requires v in s.meta.configs && v + 1 in s.meta.configs
    ensures id < s.meta.configs[v + 1].start
  {
    var end := s.meta.configs[v + 1].start;
    var members :| SealedMajority(s.replicas, s.acks, members, v, end);
    assert forall r <- members :: SealedBelow(s.replicas, s.acks, r, v, end);
    var common := QuorumsMeet(|s.replicas|, live, members);
    assert Ack(common, v, id, Live) in s.acks;
  }

  lemma BelowLaterStarts(meta: Store, v: int, id: int)
    requires ChainOk(meta) && NonDecreasing(meta) && v in meta.configs
    requires v + 1 in meta.configs ==> id < meta.configs[v + 1].start
    ensures forall w <- meta.configs | w > v :: id < meta.configs[w].start
  {
    forall w <- meta.configs | w > v ensures id < meta.configs[w].start {
      assert v <= v + 1 <= w;
      assert v + 1 in meta.configs;
    }
  }

  /** An acknowledged entry was assigned, is stored by its replicas, and belongs to its version for good. */
  lemma AcknowledgedOwned(s: State, live: set<nat>, v: int, id: int)
    requires Inv(s) && Acknowledged(s, live, v, id)
    ensures Slot(v, id) in s.entries && Owns(s.meta, v, id)
    ensures forall r <- live :: Stores(s.replicas, r, v, id)
    ensures forall w <- s.meta.configs | w > v :: id < s.meta.configs[w].start
  {
    hide LogsOk, Covered, CommitsOk, MsgsOk, AcksOk, ReconfigurersOk, ClosedOk, StartsOk, ChainOk, IndexOk,
         NonDecreasing, Bootstrapped, Stores;
    forall r <- live ensures Stores(s.replicas, r, v, id) && Slot(v, id) in s.entries && v in s.meta.configs {
      AcknowledgedStored(s, r, v, id);
    }
    assert forall r <- live :: r < |s.replicas| by {
      forall r <- live ensures r < |s.replicas| {
        StoresBound(s, r, v, id);
      }
    }
    var r :| r in live;
    hide SequencersOk;
    AcknowledgedStarts(s, v, id);
    if v + 1 in s.meta.configs {
      AcknowledgedBelowEnd(s, live, v, id);
    }
    BelowLaterStarts(s.meta, v, id);
  }

  lemma StoresBound(s: State, r: nat, v: int, id: int)
    requires Stores(s.replicas, r, v, id)
    ensures r < |s.replicas|
  {
  }

  lemma AcknowledgedStarts(s: State, v: int, id: int)
    requires SequencersOk(s.meta, s.sequencers, s.entries) && Slot(v, id) in s.entries && v in s.meta.configs
    ensures s.meta.configs[v].start <= id
  {
  }

  /** The index never names a version other than the owner, bootstrap config included. */
  lemma FoundIsOwner(meta: Store, v: int, id: int, c: Config)
    requires MetaOk(meta) && Owns(meta, v, id) && id < MAX_INDEX && IsIndexed(meta, id, Some(c))
    ensures c.version == v
  {
    OwnerIsIndexed(meta, v, id);
    IndexIsExact(meta, v, id, Some(c));
    var k := meta.configs[v].start;
    var j :| j in meta.byLogId && meta.byLogId[j] == c && Contains(c, id);
    assert meta.configs[1].start <= meta.configs[c.version].start;
    assert j <= k;
  }

  /**
   * Durability through reconfiguration.  Once `append` was answered, and the
   * replicas that completed it unsealed meet every majority, from then on its
   * id lies below the start of every later version, and the quorum keeps
   * storing the payload the sequencer assigned.
   */
  lemma Durability(run: seq<State>, i: nat, quorum: set<nat>, live: set<nat>, v: int, id: int, j: nat)
    requires IsRun(run) && i <= j < |run| && Answered(run[i], quorum, v, id) && Acknowledged(run[i], live, v, id)
    ensures Slot(v, id) in run[i].entries
    ensures forall w <- run[j].meta.configs | w > v :: id < run[j].meta.configs[w].start
    ensures HeldBy(run[j].replicas, quorum, v, id)
    ensures forall r <- quorum :: run[j].replicas[r][v].logs[id] == run[i].entries[Slot(v, id)]
  {
    hide Inv, IsRun;
    RunInv(run, i);
    RunInv(run, j);
    RunKeeps(run, i, j);
    AcknowledgedOwned(run[i], live, v, id);
    AcknowledgedOwned(run[j], live, v, id);
    forall r <- quorum
      ensures Stores(run[j].replicas, r, v, id) && run[j].replicas[r][v].logs[id] == run[i].entries[Slot(v, id)]
    {
      AnsweredStored(run[j], r, v, id);
      EntryIsAssigned(run[j], r, v, id);
    }
  }

  lemma AnsweredStored(s: State, r: nat, v: int, id: int)
    requires Inv(s) && (Ack(r, v, id, Live) in s.acks || Ack(r, v, id, Late) in s.acks)
    ensures Stores(s.replicas, r, v, id)
  {
    AcknowledgedStored(s, r, v, id);
  }

  lemma DurableReads(run: seq<State>, i: nat, live: set<nat>, v: int, id: int, j: nat, k: nat, payload: string)
    requires IsRun(run) && i <= j <= k < |run| && Acknowledged(run[i], live, v, id) && id < MAX_INDEX
    requires MayRead(run[j], run[k], id, payload)
    ensures Slot(v, id) in run[i].entries && payload == run[i].entries[Slot(v, id)]
  {
    hide Inv, IsRun;
    RunInv(run, i);
    RunInv(run, j);
    RunInv(run, k);
    RunKeeps(run, i, j);
    RunKeeps(run, i, k);
    AcknowledgedOwned(run[i], live, v, id);
    AcknowledgedOwned(run[j], live, v, id);
    ReadFindsEntry(run[j], run[k], v, id, payload);
  }

  lemma ReadFindsEntry(s: State, s': State, v: int, id: int, payload: string)
    requires Inv(s) && Inv(s') && Owns(s.meta, v, id) && id < MAX_INDEX && MayRead(s, s', id, payload)
    ensures Slot(v, id) in s'.entries && payload == s'.entries[Slot(v, id)]
  {
    hide Inv;
    InvMeta(s);
    hide MetaOk, Owns, IsIndexed;
    var c: Config, r: nat :|
      && IsIndexed(s.meta, id, Some(c)) && Stores(s'.replicas, r, c.version, id)
      && s'.replicas[r][c.version].logs[id] == payload;
    FoundIsOwner(s.meta, v, id, c);
    EntryIsAssigned(s', r, v, id);
  }

  // ---- Reads at or below an acknowledged id ----

  /** An id at or above the first start has an owner. */
  lemma {:induction false} OwnerExists(meta: Store, v: int, id: int) returns (owner: int)
    requires ChainOk(meta) && v in meta.configs && meta.configs[v].start <= id
    ensures Owns(meta, owner, id)
    decreases CurrentVersion(meta) - v
  {
    assert IsMax(meta.configs.Keys, CurrentVersion(meta));
    if v + 1 in meta.configs && meta.configs[v + 1].start <= id {
      owner := OwnerExists(meta, v + 1, id);
    } else {
      owner := v;
    }
  }

  /** A read that returns an entry was for the owner of the id, and returns what its sequencer assigned. */
  lemma ReadHasOwner(s: State, s': State, id: int, payload: string) returns (owner: int)
    requires Inv(s) && Inv(s') && id < MAX_INDEX && MayRead(s, s', id, payload)
    ensures Owns(s.meta, owner, id) && Slot(owner, id) in s'.entries && payload == s'.entries[Slot(owner, id)]
  {
    hide Inv;
    InvMeta(s);
    var c: Config :| IsIndexed(s.meta, id, Some(c));
    assert IndexedOk(s.meta, c.start);
    owner := OwnerExists(s.meta, c.version, id);
    ReadFindsEntry(s, s', owner, id, payload);
  }

  /** At or below an acknowledged id, the owner found now is the owner for good. */
  lemma OwnerBelowAcknowledged(run: seq<State>, i: nat, live: set<nat>, v: int, id: int, j: nat, last: nat,
                               owner: int, x: int)
    requires IsRun(run) && i <= j <= last < |run| && Acknowledged(run[i], live, v, id) && x <= id
    requires Owns(run[j].meta, owner, x)
    ensures Owns(run[last].meta, owner, x)
  {
    hide Inv, IsRun, Owns, Acknowledged;
    RunInv(run, i);
    RunInv(run, j);
    RunInv(run, last);
    RunKeeps(run, i, j);
    RunKeeps(run, j, last);
    AcknowledgedKept(run[i], run[j], live, v, id);
    AcknowledgedKept(run[j], run[last], live, v, id);
    AcknowledgedOwned(run[j], live, v, id);
    AcknowledgedOwned(run[last], live, v, id);
    InvMeta(run[j]);
    InvMeta(run[last]);
    NewVersionsAreLater(run[j].meta, run[last].meta, v, id);
    OwnerKept(run[j], run[last], owner, x);
  }

  lemma AcknowledgedKept(s: State, s': State, live: set<nat>, v: int, id: int)
    requires Keeps(s, s') && Acknowledged(s, live, v, id)
    ensures Acknowledged(s', live, v, id)
  {
  }

  lemma NewVersionsAreLater(meta: Store, meta': Store, v: int, id: int)
    requires MetaOk(meta) && Owns(meta, v, id)
    requires Bootstrapped(meta') && forall w <- meta'.configs | w > v :: id < meta'.configs[w].start
    ensures forall w <- meta'.configs | w !in meta.configs :: id < meta'.configs[w].start
  {
    forall w <- meta'.configs | w !in meta.configs ensures w > v {
      assert 1 in meta.configs && 1 <= w;
    }
  }

  /**
   * Of one id at or below an acknowledged one, any two reads that look it up
   * after the acknowledgement return one payload, whatever reconfigurations
   * happen before, between and after them.
   */
  lemma ReadsAgree(run: seq<State>, i: nat, live: set<nat>, v: int, id: int, x: int,
                   j: nat, k: nat, p: string, j': nat, k': nat, p': string)
    requires IsRun(run) && i <= j <= k < |run| && i <= j' <= k' < |run|
    requires Acknowledged(run[i], live, v, id) && x <= id && x < MAX_INDEX
    requires MayRead(run[j], run[k], x, p) && MayRead(run[j'], run[k'], x, p')
    ensures p == p'
  {
    hide Inv, IsRun, Acknowledged, MayRead, Owns;
    var last := |run| - 1;
    RunInv(run, j);
    RunInv(run, k);
    RunInv(run, j');
    RunInv(run, k');
    var owner := ReadHasOwner(run[j], run[k], x, p);
    var owner' := ReadHasOwner(run[j'], run[k'], x, p');
    OwnerBelowAcknowledged(run, i, live, v, id, j, last, owner, x);
    OwnerBelowAcknowledged(run, i, live, v, id, j', last, owner', x);
    RunInv(run, last);
    InvMeta(run[last]);
    OwnerIsUnique(run[last].meta, owner, owner', x);
    RunKeeps(run, k, last);
    RunKeeps(run, k', last);
  }

  /** A read that looks its id up after an id at or above it was acknowledged. */
  ghost predicate SafeRead(run: seq<State>, x: int, p: string) {
    exists i: nat, live: set<nat>, v: int, id: int, j: nat, k: nat :: SafeReadAt(run, x, p, i, live, v, id, j, k)
  }

  ghost predicate SafeReadAt(run: seq<State>, x: int, p: string,
                             i: nat, live: set<nat>, v: int, id: int, j: nat, k: nat)
  {
    && i <= j <= k < |run| && x <= id && x < MAX_INDEX
    && Acknowledged(run[i], live, v, id) && MayRead(run[j], run[k], x, p)
  }

  /** Safe reads of one id return one payload, each with an acknowledgement of its own. */
  lemma SafeReadsAgree(run: seq<State>, x: int, p: string, p': string)
    requires IsRun(run) && SafeRead(run, x, p) && SafeRead(run, x, p')
    ensures p == p'
  {
    hide IsRun, Acknowledged, MayRead;
    var i: nat, live: set<nat>, v: int, id: int, j: nat, k: nat :| SafeReadAt(run, x, p, i, live, v, id, j, k);
    var i': nat, live': set<nat>, v': int, id': int, j': nat, k': nat :|
      SafeReadAt(run, x, p', i', live', v', id', j', k');
    if i <= i' {
      ReadsAgree(run, i, live, v, id, x, j, k, p, j', k', p');
    } else {
      ReadsAgree(run, i', live', v', id', x, j, k, p, j', k', p');
    }
  }
}
