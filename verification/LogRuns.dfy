/**
 * Building blocks of concrete runs of the log, for any number of replicas: three ids are assigned, each replica
 * stores some of them, and the first replicas of a majority are sealed.
 */
module LogRuns {
  import opened Options
  import opened Quorums
  import opened MetadataStore
  import opened CompletionQueue
  import opened NanoLogs
  import opened LogProtocol

  /** Some run passes through `s0` and ends in `s`. */
  ghost predicate Leads(s0: State, s: State) {
    exists run: seq<State>, i: nat :: Passes(run, i, s0, s)
  }

  ghost predicate Passes(run: seq<State>, i: nat, s0: State, s: State) {
    IsRun(run) && i < |run| && run[i] == s0 && run[|run| - 1] == s
  }

  lemma Here(s0: State, s: State)
    requires Leads(s0, s)
    ensures Leads(s, s)
  {
    hide IsRun;
    var run: seq<State>, i: nat :| Passes(run, i, s0, s);
    assert Passes(run, |run| - 1, s, s);
  }

  lemma Grow(s0: State, s: State, step: Step)
    requires Leads(s0, s) && Enabled(s, step)
    ensures Leads(s0, Apply(s, step))
  {
    hide Enabled, Apply, Init;
    var run: seq<State>, i: nat :| Passes(run, i, s0, s);
    var longer := run + [Apply(s, step)];
    forall k | 0 <= k < |longer| - 1 ensures Next(longer[k], longer[k + 1]) {
      if k < |run| - 1 {
        assert Next(run[k], run[k + 1]);
      } else {
        assert longer[k] == s && longer[k + 1] == Apply(s, step);
      }
    }
    assert Passes(longer, i, s0, Apply(s, step));
  }

  // ---- Small queues ----

  lemma SettledBound(q: Queue, bound: int)
    requires bound <= q.index && forall k <- q.pending :: k > q.index
    ensures AfterBound(q, bound) == q
  {
    assert (set k <- q.pending | k >= bound) == q.pending;
    assert RunEnd(q.index, q.pending) == q.index;
    assert (set k <- q.pending | k >= q.index) == q.pending;
  }

  lemma AddAbove(q: Queue, id: int)
    requires id > q.index && forall k <- q.pending :: k > q.index
    ensures AfterAdd(q, id) == Queue(q.index, q.pending + {id})
  {
    var pending := q.pending + {id};
    assert RunEnd(q.index, pending) == q.index;
    assert (set k <- pending | k >= q.index) == pending;
  }

  /** Adding the id at the index completes the run of ids that waits behind it. */
  lemma AddCompletes(q: Queue, end: int)
    requires q.index < end && forall k :: k in q.pending <==> q.index < k < end
    ensures AfterAdd(q, q.index) == Queue(end, {})
  {
    var pending := q.pending + {q.index};
    var found := RunEnd(q.index, pending);
    assert end !in pending;
    assert found == end;
    assert (set k <- pending | k >= end) == {};
  }

  // ---- Three ids, and what a replica may store of them ----

  const BOOT := Config(1, 0, 1, MAX_INDEX, 0, "s", [])
  const META := Store(map[1 := BOOT], map[1 := BOOT])
  const ENTRIES: map<Slot, string> := map[Slot(1, 1) := "a", Slot(1, 2) := "b", Slot(1, 3) := "c"]

  /** `Low` misses id 1, `Top` misses id 2, `Full` has all. */
  datatype Role = Low | Top | Full

  const LOW_1 := NanoLog(1, false, map[2 := "b"], Queue(1, {2}))
  const LOW := NanoLog(1, false, map[2 := "b", 3 := "c"], Queue(1, {2, 3}))
  const TOP_1 := NanoLog(1, false, map[1 := "a"], Queue(2, {}))
  const TOP := NanoLog(1, false, map[1 := "a", 3 := "c"], Queue(2, {3}))
  const FULL_2 := NanoLog(1, false, map[1 := "a", 2 := "b"], Queue(3, {}))
  const FULL := NanoLog(1, false, map[1 := "a", 2 := "b", 3 := "c"], Queue(4, {}))

  function LogFor(role: Role): NanoLog {
    match role
    case Low => LOW
    case Top => TOP
    case Full => FULL
  }

  lemma LowAppends()
    ensures Append(FreshLog(1), Some(1), 2, "b", false) == (LOW_1, Enqueued)
    ensures Append(LOW_1, Some(1), 3, "c", false) == (LOW, Enqueued)
    ensures 3 !in Completed(FreshLog(1), LOW_1) && 3 !in Completed(LOW_1, LOW)
  {
    AddAbove(Queue(1, {}), 2);
    assert Queue(1, {}).pending + {2} == {2};
    SettledBound(Queue(1, {2}), 1);
    AddAbove(Queue(1, {2}), 3);
    assert Queue(1, {2}).pending + {3} == {2, 3};
    SettledBound(Queue(1, {2, 3}), 1);
    assert LOW_1.logs[3 := "c"] == LOW.logs;
  }

  lemma TopAppends()
    ensures Append(FreshLog(1), Some(1), 1, "a", false) == (TOP_1, Enqueued)
    ensures Append(TOP_1, Some(1), 3, "c", false) == (TOP, Enqueued)
    ensures 3 !in Completed(FreshLog(1), TOP_1) && 3 !in Completed(TOP_1, TOP)
  {
    AddCompletes(Queue(1, {}), 2);
    SettledBound(Queue(2, {}), 1);
    AddAbove(Queue(2, {}), 3);
    assert Queue(2, {}).pending + {3} == {3};
    SettledBound(Queue(2, {3}), 1);
    assert TOP_1.logs[3 := "c"] == TOP.logs;
  }

  lemma FullAppends()
    ensures Append(TOP_1, Some(1), 2, "b", false) == (FULL_2, Enqueued)
    ensures Append(FULL_2, Some(1), 3, "c", false) == (FULL, Enqueued)
    ensures 3 !in Completed(TOP_1, FULL_2) && 3 in Completed(FULL_2, FULL)
  {
    AddCompletes(Queue(2, {}), 3);
    SettledBound(Queue(3, {}), 1);
    AddCompletes(Queue(3, {}), 4);
    SettledBound(Queue(4, {}), 1);
    assert TOP_1.logs[2 := "b"] == FULL_2.logs && FULL_2.logs[3 := "c"] == FULL.logs;
  }

  // ---- Feeding the replicas ----

  /** The first `k` replicas hold their logs of version 1, the others have not been used. */
  ghost function Partly(logs: seq<NanoLog>, k: nat): seq<map<int, NanoLog>> {
    seq(|logs|, i requires 0 <= i < |logs| => if i < k then map[1 := logs[i]] else map[])
  }

  ghost function Wrap(logs: seq<NanoLog>): seq<map<int, NanoLog>> {
    Partly(logs, |logs|)
  }

  ghost function LogsFor(roles: seq<Role>): seq<NanoLog> {
    seq(|roles|, i requires 0 <= i < |roles| => LogFor(roles[i]))
  }

  /** `s'` differs from `s` in the log of one replica, and in more messages and acknowledgements. */
  ghost predicate Put(s: State, s': State, r: nat, v: int, log: NanoLog)
    requires r < |s.replicas|
  {
    && s' == s.(replicas := s.replicas[r := s.replicas[r][v := log]], msgs := s'.msgs, acks := s'.acks)
    && s.msgs <= s'.msgs && s.acks <= s'.acks
  }

  /** A delivery, with the replica's log before and after it. */
  lemma Deliver(s0: State, s: State, m: AppendMsg, before: NanoLog, after: NanoLog, reply: AppendReply)
    returns (s': State)
    requires Leads(s0, s) && m in s.msgs && m.version in s.meta.configs && m.replica < |s.replicas|
    requires before == LogOf(s.meta, s.replicas[m.replica], m.version)
    requires Append(before, m.commitIndex, m.id, m.payload, m.copying) == (after, reply)
    ensures Leads(s0, s') && Put(s, s', m.replica, m.version, after)
    ensures forall id <- Completed(before, after) ::
              Ack(m.replica, m.version, id, if before.sealed then Late else Live) in s'.acks
    ensures reply.Present? ==> Ack(m.replica, m.version, m.id, Already) in s'.acks
    ensures forall a <- s'.acks | a !in s.acks && a.outcome == Live ::
              a.replica == m.replica && !before.sealed && a.id in Completed(before, after)
  {
    hide Leads, Append, LogOf, Completed;
    Grow(s0, s, DeliverAppend(m));
    s' := Apply(s, DeliverAppend(m));
  }

  /** An append sent and delivered to one replica. */
  lemma Feed(s0: State, s: State, v: int, r: nat, id: int, before: NanoLog, after: NanoLog) returns (s': State)
    requires Leads(s0, s) && r < |s.replicas| && v in s.sequencers && v in s.meta.configs && Slot(v, id) in s.entries
    requires before == LogOf(s.meta, s.replicas[r], v) && !before.sealed
    requires Append(before, Some(s.sequencers[v].commitIndex), id, s.entries[Slot(v, id)], false) == (after, Enqueued)
    ensures Leads(s0, s') && Put(s, s', r, v, after)
    ensures forall id <- Completed(before, after) :: Ack(r, v, id, Live) in s'.acks
    ensures forall a <- s'.acks | a !in s.acks && a.outcome == Live ::
              a.replica == r && a.id in Completed(before, after)
  {
    hide Leads, Append, LogOf, Completed;
    var step := SendAppend(v, id, r);
    Grow(s0, s, step);
    var s1 := Apply(s, step);
    var m := AppendMsg(r, v, id, s.entries[Slot(v, id)], Some(s.sequencers[v].commitIndex), false);
    s' := Deliver(s0, s1, m, before, after, Enqueued);
  }

  lemma FeedRole(s0: State, s: State, r: nat, role: Role) returns (s': State)
    requires Leads(s0, s) && s.meta == META && s.entries == ENTRIES && s.sequencers == map[1 := Sequencer(4, 1)]
    requires r < |s.replicas| && s.replicas[r] == map[]
    ensures Leads(s0, s') && s'.replicas == s.replicas[r := map[1 := LogFor(role)]]
    ensures s' == s.(replicas := s'.replicas, msgs := s'.msgs, acks := s'.acks) && s.acks <= s'.acks
    ensures Ack(r, 1, 3, Live) in s'.acks <==> role.Full? || Ack(r, 1, 3, Live) in s.acks
    ensures forall i: nat | i != r :: Ack(i, 1, 3, Live) in s'.acks <==> Ack(i, 1, 3, Live) in s.acks
  {
    LowAppends();
    TopAppends();
    FullAppends();
    hide Leads, Append, Completed;
    if role.Low? {
      var s1 := Feed(s0, s, 1, r, 2, FreshLog(1), LOW_1);
      s' := Feed(s0, s1, 1, r, 3, LOW_1, LOW);
    } else {
      var s1 := Feed(s0, s, 1, r, 1, FreshLog(1), TOP_1);
      if role.Top? {
        s' := Feed(s0, s1, 1, r, 3, TOP_1, TOP);
      } else {
        var s2 := Feed(s0, s1, 1, r, 2, TOP_1, FULL_2);
        s' := Feed(s0, s2, 1, r, 3, FULL_2, FULL);
      }
    }
    assert s'.replicas[r] == map[1 := LogFor(role)];
  }

  lemma Booted(n: nat) returns (s: State)
    requires n > 0
    ensures s == State(META, seq(n, _ => map[]), map[1 := Sequencer(1, 1)], map[], {}, {}, [])
    ensures Leads(s, s)
  {
    s := State(META, seq(n, _ => map[]), map[1 := Sequencer(1, 1)], map[], {}, {}, []);
    assert CompareAndAppend(Store(map[], map[]), BOOT) == Ok(META);
    assert IsRun([s]);
    assert Passes([s], 0, s, s);
  }

  lemma Assign(s0: State, s: State, v: int, payload: string) returns (s': State)
    requires Leads(s0, s) && v in s.sequencers
    ensures Leads(s0, s')
    ensures var q := s.sequencers[v];
            s' == s.(sequencers := s.sequencers[v := q.(nextId := q.nextId + 1)],
                     entries := s.entries[Slot(v, q.nextId) := payload])
  {
    hide Leads;
    Grow(s0, s, AssignId(v, payload));
    s' := Apply(s, AssignId(v, payload));
  }

  lemma AssignedThree(n: nat) returns (s: State)
    requires n > 0
    ensures s == State(META, seq(n, _ => map[]), map[1 := Sequencer(4, 1)], ENTRIES, {}, {}, [])
    ensures Leads(s, s)
  {
    hide Leads;
    var s0 := Booted(n);
    var s1 := Assign(s0, s0, 1, "a");
    var s2 := Assign(s0, s1, 1, "b");
    s := Assign(s0, s2, 1, "c");
    assert s.sequencers == map[1 := Sequencer(4, 1)];
    assert s.entries == ENTRIES;
    Here(s0, s);
  }

  /** Every replica stores what its role says, and exactly the full ones have acknowledged id 3. */
  ghost predicate Fed(s: State, roles: seq<Role>, k: nat) {
    && s == State(META, Partly(LogsFor(roles), k), map[1 := Sequencer(4, 1)], ENTRIES, s.msgs, s.acks, [])
    && forall i: nat :: Ack(i, 1, 3, Live) in s.acks <==> i < k && i < |roles| && roles[i].Full?
  }

  lemma {:induction false} FedReached(roles: seq<Role>, k: nat) returns (s: State)
    requires k <= |roles| && roles != []
    ensures Leads(s, s) && Fed(s, roles, k)
  {
    hide Leads;
    if k == 0 {
      s := AssignedThree(|roles|);
      assert s.replicas == Partly(LogsFor(roles), 0);
    } else {
      var before := FedReached(roles, k - 1);
      s := FeedRole(before, before, k - 1, roles[k - 1]);
      assert s.replicas == Partly(LogsFor(roles), k);
      Here(before, s);
    }
  }

  // ---- Sealing ----

  ghost function Sealed(logs: seq<NanoLog>, k: nat): seq<NanoLog> {
    seq(|logs|, i requires 0 <= i < |logs| => if i < k then logs[i].(sealed := true) else logs[i])
  }

  ghost function EndsOf(logs: seq<NanoLog>, k: nat): map<nat, int> {
    map r: nat | r in Upto(k) && r < |logs| :: logs[r].queue.index
  }

  /** A reconfigurer of version 1 that chose the first `q` replicas and sealed `k` of them. */
  ghost predicate Sealing(s: State, s': State, logs: seq<NanoLog>, rec: nat, q: nat, k: nat) {
    && rec < |s.reconfigurers|
    && s' == s.(replicas := Wrap(Sealed(logs, k)),
                reconfigurers := s.reconfigurers[rec := Reconfigurer(1, Upto(q), EndsOf(logs, k), Phase.Sealing)])
  }

  lemma SealOne(s0: State, s: State, s1: State, logs: seq<NanoLog>, rec: nat, q: nat, k: nat) returns (s': State)
    requires Leads(s0, s1) && Sealing(s, s1, logs, rec, q, k) && k < q <= |logs| && s.meta == META
    ensures Leads(s0, s') && Sealing(s, s', logs, rec, q, k + 1)
  {
    hide Leads, Upto;
    var step := SealReplica(rec, k);
    Grow(s0, s1, step);
    s' := Apply(s1, step);
    assert s'.replicas[k] == map[1 := logs[k].(sealed := true)];
    assert s'.replicas == Wrap(Sealed(logs, k + 1));
    assert EndsOf(logs, k)[k := logs[k].queue.index] == EndsOf(logs, k + 1);
    assert s'.reconfigurers[rec] == Reconfigurer(1, Upto(q), EndsOf(logs, k + 1), Phase.Sealing);
  }

  lemma SealNone(s: State, logs: seq<NanoLog>, rec: nat, q: nat)
    requires s.replicas == Wrap(logs)
    requires rec < |s.reconfigurers| && s.reconfigurers[rec] == Reconfigurer(1, Upto(q), map[], Phase.Sealing)
    ensures Sealing(s, s, logs, rec, q, 0)
  {
    hide Upto;
    assert Sealed(logs, 0) == logs;
    assert EndsOf(logs, 0) == map[];
  }

  lemma {:induction false} SealUpto(s0: State, s: State, logs: seq<NanoLog>, rec: nat, q: nat, k: nat)
    returns (s': State)
    requires Leads(s0, s) && s.meta == META && s.replicas == Wrap(logs) && k <= q <= |logs|
    requires rec < |s.reconfigurers| && s.reconfigurers[rec] == Reconfigurer(1, Upto(q), map[], Phase.Sealing)
    ensures Leads(s0, s') && Sealing(s, s', logs, rec, q, k)
    decreases k
  {
    hide Leads, Sealing, Upto, Wrap, EndsOf, Sealed;
    if k == 0 {
      s' := s;
      SealNone(s, logs, rec, q);
    } else {
      var s1 := SealUpto(s0, s, logs, rec, q, k - 1);
      s' := SealOne(s0, s, s1, logs, rec, q, k - 1);
    }
  }

  lemma Bounds(ends: map<nat, int>, a: nat, b: nat)
    requires a in ends && b in ends && forall r <- ends :: ends[a] <= ends[r] <= ends[b]
    ensures MinEnd(ends) == ends[a] && MaxEnd(ends) == ends[b]
  {
    assert ends[a] in ends.Values && ends[b] in ends.Values;
  }

  /**
   * A new reconfigurer of version 1 seals the first `q` replicas and is about to copy from the least to the greatest
   * end, which replicas `a` and `b` reported.
   */
  lemma SealMajority(s0: State, s: State, logs: seq<NanoLog>, q: nat, a: nat, b: nat) returns (s': State)
    requires Leads(s0, s) && s.meta == META && s.replicas == Wrap(logs) && logs != []
    requires q == Quorum(|logs|) && a < q && b < q
    requires forall r: nat | r < q :: logs[a].queue.index <= logs[r].queue.index <= logs[b].queue.index
    ensures Leads(s0, s')
    ensures s' == s.(replicas := Wrap(Sealed(logs, q)),
                     reconfigurers := s.reconfigurers + [Reconfigurer(1, Upto(q), EndsOf(logs, q),
                                                           Copying(logs[a].queue.index, logs[b].queue.index))])
  {
    hide Leads, Upto;
    var rec := |s.reconfigurers|;
    assert META.configs.Keys == {1};
    assert CurrentVersion(META) == 1;
    Grow(s0, s, StartReconfigure(Upto(q)));
    var s1 := Apply(s, StartReconfigure(Upto(q)));
    hide CurrentVersion;
    assert s1.reconfigurers == s.reconfigurers + [Reconfigurer(1, Upto(q), map[], Phase.Sealing)];
    var s2 := SealUpto(s0, s1, logs, rec, q, q);
    s' := StartCopy(s0, s2, logs, q, rec, a, b);
  }

  lemma StartCopy(s0: State, s: State, logs: seq<NanoLog>, q: nat, rec: nat, a: nat, b: nat) returns (s': State)
    requires Leads(s0, s) && s.meta == META && rec < |s.reconfigurers| && a < q <= |logs| && b < q
    requires s.reconfigurers[rec] == Reconfigurer(1, Upto(q), EndsOf(logs, q), Phase.Sealing)
    requires forall r: nat | r < q :: logs[a].queue.index <= logs[r].queue.index <= logs[b].queue.index
    ensures Leads(s0, s')
    ensures s' == s.(reconfigurers := SetPhase(s, rec, Copying(logs[a].queue.index, logs[b].queue.index)))
  {
    hide Leads, Upto;
    var ends := EndsOf(logs, q);
    assert a in ends && b in ends;
    Bounds(ends, a, b);
    assert ends.Keys == Upto(q);
    hide MinEnd, MaxEnd;
    Grow(s0, s, StartCopying(rec));
    s' := Apply(s, StartCopying(rec));
  }

  /** The chain after version 2 was installed. */
  ghost function Second(start: int): Store {
    var c := NextConfig(1, start, "s", []);
    Store(map[1 := BOOT.(end := start), 2 := c], META.byLogId[start := c])
  }

  lemma InstallSecond(s0: State, s: State, rec: nat) returns (s': State)
    requires Leads(s0, s) && s.meta == META && rec < |s.reconfigurers|
    requires var r := s.reconfigurers[rec]; r.version == 1 && r.phase.Copying? && r.phase.next >= r.phase.max
    ensures Leads(s0, s')
    ensures var max := s.reconfigurers[rec].phase.max;
            s' == s.(meta := Second(max), reconfigurers := SetPhase(s, rec, Installed(max)))
  {
    hide Leads;
    assert META.configs.Keys == {1};
    assert MaxKey(META.configs.Keys) == 1;
    Grow(s0, s, Install(rec, "s", []));
    s' := Apply(s, Install(rec, "s", []));
    assert s'.meta.configs == Second(s.reconfigurers[rec].phase.max).configs;
  }
}
