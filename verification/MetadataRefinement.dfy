/**
 * What the replicated metadata store looks like to its callers (log/impl/PersistentMetadataStore.h): reads see one
 * store that changes by compare-and-append only, and appends act on it with the value their register decided.
 */
module MetadataRefinement {
  import opened Options
  import opened Decimals
  import opened MetadataStore
  import opened MetadataReplication

  // ---- Commits and histories are never taken back ----

  ghost predicate ReadsCommitted(p: Paxos.State) {
    forall r <- p.readLog :: r.acc < |p.acceptors| && p.acceptors[r.acc].committed
  }

  ghost predicate CommitsKept(p: Paxos.State, p': Paxos.State) {
    && |p.acceptors| == |p'.acceptors| && p.major == p'.major
    && (forall a | 0 <= a < |p.acceptors| :: p'.acceptors[a].id == p.acceptors[a].id)
    && forall a | 0 <= a < |p.acceptors| && p.acceptors[a].committed :: p'.acceptors[a].committed
  }

  lemma PaxosStepCommits(p: Paxos.State, step: Paxos.Step)
    requires ReadsCommitted(p) && Paxos.Enabled(p, step)
    ensures ReadsCommitted(Paxos.Apply(p, step)) && CommitsKept(p, Paxos.Apply(p, step))
  {
  }

  ghost predicate InstancesOk(s: State) {
    forall k <- s.instances ::
      && ReadsCommitted(s.instances[k].paxos) && |s.instances[k].paxos.acceptors| == |s.instances[k].members|
      && OwnInstance(k, s.instances[k].paxos)
  }

  /** A register's ballots carry its id, and its acceptors file it under its id. */
  ghost predicate OwnInstance(k: int, p: Paxos.State) {
    p.major == k && forall a | 0 <= a < |p.acceptors| :: p.acceptors[a].id == ToString(k)
  }

  ghost predicate Keeps(s: State, s': State) {
    && s.boot == s'.boot && |s.nodes| == |s'.nodes|
    && (forall k <- s.instances :: k in s'.instances && CommitsKept(s.instances[k].paxos, s'.instances[k].paxos))
    && (forall i | 0 <= i < |s.nodes| :: s.nodes[i].history <= s'.nodes[i].history)
  }

  lemma InstanceStepKeeps(s: State, k: int, instance: Instance)
    requires InstancesOk(s)
    requires ReadsCommitted(instance.paxos) && |instance.paxos.acceptors| == |instance.members|
    requires OwnInstance(k, instance.paxos)
    requires k in s.instances ==> CommitsKept(s.instances[k].paxos, instance.paxos)
    ensures var s' := s.(instances := s.instances[k := instance]); InstancesOk(s') && Keeps(s, s')
  {
  }

  lemma OpenKeeps(parse: Parser, s: State, i: nat)
    requires InstancesOk(s) && Enabled(s, OpenRegister(i))
    ensures InstancesOk(Apply(parse, s, OpenRegister(i))) && Keeps(s, Apply(parse, s, OpenRegister(i)))
  {
    var k, members := s.nodes[i].lastApplied + 1, s.nodes[i].replica.config.replicas;
    var instance := if k in s.instances then s.instances[k] else Instance(members, FreshPaxos(k, members));
    PaxosStepCommits(instance.paxos, Paxos.NewRegister);
    hide Paxos.Apply;
    InstanceStepKeeps(s, k, instance.(paxos := Paxos.Apply(instance.paxos, Paxos.NewRegister)));
    KeepsRefl(s);
    hide Keeps, CommitsKept;
  }

  lemma RegisterKeeps(parse: Parser, s: State, k: int, step: Paxos.Step)
    requires InstancesOk(s) && Enabled(s, RegisterStep(k, step))
    ensures InstancesOk(Apply(parse, s, RegisterStep(k, step))) && Keeps(s, Apply(parse, s, RegisterStep(k, step)))
  {
    var instance := s.instances[k];
    PaxosStepCommits(instance.paxos, step);
    hide Paxos.Apply, Paxos.Enabled;
    InstanceStepKeeps(s, k, instance.(paxos := Paxos.Apply(instance.paxos, step)));
    hide Keeps, CommitsKept, InstancesOk;
  }

  lemma KeepsRefl(s: State)
    ensures Keeps(s, s) && Keeps(s, s.(mixed := true))
  {
  }

  lemma StepKeeps(parse: Parser, s: State, step: Step)
    requires InstancesOk(s) && Enabled(s, step)
    ensures InstancesOk(Apply(parse, s, step)) && Keeps(s, Apply(parse, s, step))
  {
    match step
    case OpenRegister(i) =>
      hide Apply, Keeps, InstancesOk;
      OpenKeeps(parse, s, i);
    case RegisterStep(k, step) =>
      hide Apply, Keeps, InstancesOk;
      RegisterKeeps(parse, s, k, step);
    case ApplyNext(_, _, _) =>
  }

  lemma {:induction false} RunInstances(parse: Parser, run: seq<State>, n: nat)
    requires IsRun(parse, run) && n < |run|
    ensures InstancesOk(run[n])
  {
    if n > 0 {
      hide IsRun, Enabled, Apply, InstancesOk;
      RunInstances(parse, run, n - 1);
      var step := StepOf(parse, run, n - 1);
      StepKeeps(parse, run[n - 1], step);
    }
  }

  lemma KeepsTrans(a: State, b: State, c: State)
    requires Keeps(a, b) && Keeps(b, c)
    ensures Keeps(a, c)
  {
  }

  lemma {:induction false} RunKeeps(parse: Parser, run: seq<State>, n: nat, m: nat)
    requires IsRun(parse, run) && n <= m < |run|
    ensures Keeps(run[n], run[m])
    decreases m
  {
    hide IsRun, Enabled, Apply, InstancesOk, Keeps;
    if n == m {
      KeepsRefl(run[n]);
    } else {
      RunKeeps(parse, run, n, m - 1);
      RunInstances(parse, run, m - 1);
      var step := StepOf(parse, run, m - 1);
      StepKeeps(parse, run[m - 1], step);
      KeepsTrans(run[n], run[m - 1], run[m]);
    }
  }

  /** In every run registers are kept apart, by the major id of their ballots and by the key they are filed under. */
  lemma RegistersAreApart(parse: Parser, run: seq<State>, n: nat, k: int, a: nat, k': int, a': nat)
    requires IsRun(parse, run) && n < |run| && k in run[n].instances && k' in run[n].instances && k != k'
    requires a < |run[n].instances[k].paxos.acceptors| && a' < |run[n].instances[k'].paxos.acceptors|
    ensures run[n].instances[k].paxos.major != run[n].instances[k'].paxos.major
    ensures run[n].instances[k].paxos.acceptors[a].id != run[n].instances[k'].paxos.acceptors[a'].id
  {
    hide IsRun;
    RunInstances(parse, run, n);
    assert OwnInstance(k, run[n].instances[k].paxos) && OwnInstance(k', run[n].instances[k'].paxos);
    if ToString(k) == ToString(k') {
      ToStringInjective(k, k');
    }
  }

  // ---- The common store ----

  /** The longest history any node has: what has been applied so far. */
  ghost predicate Front(s: State, h: seq<string>) {
    && (exists i :: 0 <= i < |s.nodes| && s.nodes[i].history == h)
    && (forall i | 0 <= i < |s.nodes| :: |s.nodes[i].history| <= |h|)
  }

  lemma {:induction false} LongestOf(nodes: seq<Node>) returns (i: nat)
    requires nodes != []
    ensures i < |nodes| && forall j | 0 <= j < |nodes| :: |nodes[j].history| <= |nodes[i].history|
  {
    if |nodes| == 1 {
      i := 0;
    } else {
      var last := |nodes| - 1;
      i := LongestOf(nodes[..last]);
      assert forall j | 0 <= j < last :: nodes[..last][j] == nodes[j];
      if |nodes[i].history| < |nodes[last].history| {
        i := last;
      }
    }
  }

  lemma FrontExists(s: State) returns (h: seq<string>)
    requires s.nodes != []
    ensures Front(s, h)
  {
    var i := LongestOf(s.nodes);
    h := s.nodes[i].history;
  }

  lemma FrontCovers(parse: Parser, s: State, h: seq<string>, i: nat)
    requires Inv(parse, s) && Front(s, h) && i < |s.nodes|
    ensures s.nodes[i].history <= h && s.nodes[i].replica == Replay(parse, s.boot, s.nodes[i].history)
  {
    hide InstanceOk, HistoryRead, MembersOk;
    var j :| 0 <= j < |s.nodes| && s.nodes[j].history == h;
    assert Comparable(s.nodes[i].history, s.nodes[j].history) && NodeOk(parse, s.boot, s.nodes[i]);
  }

  lemma FrontStep(parse: Parser, s: State, step: Step, h: seq<string>, h': seq<string>)
    requires Inv(parse, s) && Enabled(s, step) && Inv(parse, Apply(parse, s, step))
    requires Front(s, h) && Front(Apply(parse, s, step), h')
    ensures h' == h || exists value :: h' == h + [value] && parse(value).Some?
  {
    hide InstanceOk, HistoryRead, MembersOk, NodeOk, Replay;
    var s' := Apply(parse, s, step);
    var i :| 0 <= i < |s.nodes| && s.nodes[i].history == h;
    var j :| 0 <= j < |s'.nodes| && s'.nodes[j].history == h';
    FrontCovers(parse, s, h, j);
    FrontCovers(parse, s', h', i);
    if s'.nodes[j].history != s.nodes[j].history {
      var value := step.value;
      assert h' == s.nodes[j].history + [value];
      if s.nodes[j].history == h {
        assert h' == h + [value] && parse(value).Some?;
      }
    }
  }

  /**
   * The common store changes by compare-and-append only: from one moment to the next it stays, or a config that was
   * accepted is appended.
   */
  lemma StoreStep(parse: Parser, run: seq<State>, n: nat, h: seq<string>, h': seq<string>)
    requires IsRun(parse, run) && n + 1 < |run| && Front(run[n], h) && Front(run[n + 1], h')
    ensures var boot := run[n].boot;
            var store, store' := Replay(parse, boot, h).store, Replay(parse, boot, h').store;
            store' == store || exists c :: CompareAndAppend(store, c) == Ok(store')
  {
    hide Inv, IsRun, Enabled, Apply, Front, CompareAndAppend;
    RunInv(parse, run, n);
    RunInv(parse, run, n + 1);
    var step := StepOf(parse, run, n);
    FrontStep(parse, run[n], step, h, h');
    if h' != h {
      var value :| h' == h + [value] && parse(value).Some?;
      assert h'[..|h'| - 1] == h;
    }
  }

  // ---- Reads after a sync ----

  /** The acceptor has committed nothing for the register, or has not heard of it. */
  ghost predicate Unwritten(s: State, k: int, acc: nat) {
    k in s.instances && acc < |s.instances[k].paxos.acceptors| ==> !s.instances[k].paxos.acceptors[acc].committed
  }

  /**
   * A sync of one node that began at moment `from` and stopped at `end`: it asked each acceptor that its config names
   * for the next register, at the moments `polls` in between, and none had a committed value.
   */
  ghost predicate Synced(run: seq<State>, node: nat, from: nat, end: nat, polls: seq<nat>) {
    && from <= end < |run| && node < |run[end].nodes|
    && |polls| == |run[end].nodes[node].replica.config.replicas|
    && forall a: nat | a < |polls| ::
         from <= polls[a] <= end && Unwritten(run[polls[a]], run[end].nodes[node].lastApplied + 1, a)
  }

  /** Some acceptor has committed the value of every register that a node has applied. */
  lemma AppliedIsCommitted(parse: Parser, s: State, i: nat, k: int) returns (acc: nat)
    requires Inv(parse, s) && InstancesOk(s) && i < |s.nodes|
    requires s.boot.start < k <= s.boot.start + |s.nodes[i].history|
    ensures k in s.instances && acc < |s.instances[k].paxos.acceptors| && s.instances[k].paxos.acceptors[acc].committed
  {
    hide InstanceOk, MembersOk, NodeOk, Comparable;
    var m := k - s.boot.start - 1;
    assert HistoryRead(s.boot, s.instances, s.nodes[i].history);
    assert WasRead(s.instances, s.boot.start + 1 + m, s.nodes[i].history[m]);
    acc :| Paxos.Read(acc, s.nodes[i].history[m]) in s.instances[k].paxos.readLog;
    assert ReadsCommitted(s.instances[k].paxos);
  }

  lemma NodeAt(parse: Parser, s: State, i: nat)
    requires Inv(parse, s) && i < |s.nodes|
    ensures s.nodes[i].lastApplied == s.boot.start + |s.nodes[i].history|
  {
    assert NodeOk(parse, s.boot, s.nodes[i]);
  }

  /** A node that synced has applied everything that any node had applied when the sync began. */
  lemma SyncCatchesUp(parse: Parser, run: seq<State>, node: nat, from: nat, end: nat, polls: seq<nat>, i: nat)
    requires IsRun(parse, run) && Synced(run, node, from, end, polls) && i < |run[from].nodes|
    ensures |run[from].nodes[i].history| <= |run[end].nodes[node].history|
  {
    hide Inv, IsRun, InstancesOk;
    RunInv(parse, run, from);
    RunInv(parse, run, end);
    RunInstances(parse, run, from);
    RunInstances(parse, run, end);
    NodeAt(parse, run[end], node);
    if |run[from].nodes[i].history| > |run[end].nodes[node].history| {
      var k := run[end].nodes[node].lastApplied + 1;
      var acc := AppliedIsCommitted(parse, run[from], i, k);
      RunKeeps(parse, run, from, end);
      MembersAgree(parse, run[end], node);
      InstanceSize(run[end], k);
      assert acc < |polls|;
      RunKeeps(parse, run, from, polls[acc]);
    }
  }

  lemma InstanceSize(s: State, k: int)
    requires InstancesOk(s) && k in s.instances
    ensures |s.instances[k].paxos.acceptors| == |s.instances[k].members|
  {
  }

  /** A length between those of two fronts is the length of a front in between. */
  lemma {:induction false} FrontBetween(parse: Parser, run: seq<State>, from: nat, end: nat, length: nat)
    returns (t: nat, h: seq<string>)
    requires IsRun(parse, run) && from <= end < |run| && run[end].nodes != []
    requires forall i | 0 <= i < |run[from].nodes| :: |run[from].nodes[i].history| <= length
    requires exists i :: 0 <= i < |run[end].nodes| && length <= |run[end].nodes[i].history|
    ensures from <= t <= end && Front(run[t], h) && |h| == length
    decreases end
  {
    hide IsRun, Inv, Enabled, Apply;
    t := end;
    h := FrontExists(run[end]);
    if |h| > length {
      RunKeeps(parse, run, end - 1, end);
      RunInv(parse, run, end - 1);
      RunInv(parse, run, end);
      var before := FrontExists(run[end - 1]);
      var step := StepOf(parse, run, end - 1);
      FrontStep(parse, run[end - 1], step, before, h);
      t, h := FrontBetween(parse, run, from, end - 1, length);
    }
  }

  /**
   * Reads are atomic: the store a node holds after a sync is the common store as it was at some moment between the
   * sync's beginning and its end.
   */
  lemma SyncIsCurrent(parse: Parser, run: seq<State>, node: nat, from: nat, end: nat, polls: seq<nat>)
    returns (t: nat, h: seq<string>)
    requires IsRun(parse, run) && Synced(run, node, from, end, polls)
    ensures from <= t <= end && Front(run[t], h)
    ensures run[end].nodes[node].history == h && run[end].nodes[node].replica == Replay(parse, run[t].boot, h)
  {
    var mine := run[end].nodes[node].history;
    forall i | 0 <= i < |run[from].nodes| ensures |run[from].nodes[i].history| <= |mine| {
      SyncCatchesUp(parse, run, node, from, end, polls, i);
    }
    hide IsRun, Inv, Synced;
    t, h := FrontBetween(parse, run, from, end, |mine|);
    RunKeeps(parse, run, t, end);
    RunInv(parse, run, end);
    SamePrefix(parse, run[t], run[end], h, node);
  }

  /** An old front of a node's length is that node's history. */
  lemma SamePrefix(parse: Parser, s: State, s': State, h: seq<string>, node: nat)
    requires Keeps(s, s') && Front(s, h) && Inv(parse, s') && node < |s'.nodes| && |s'.nodes[node].history| == |h|
    ensures s'.nodes[node].history == h && s'.nodes[node].replica == Replay(parse, s.boot, h)
  {
    hide InstanceOk, HistoryRead, MembersOk, Replay;
    var i :| 0 <= i < |s.nodes| && s.nodes[i].history == h;
    assert h <= s'.nodes[i].history;
    assert Comparable(s'.nodes[node].history, s'.nodes[i].history) && NodeOk(parse, s'.boot, s'.nodes[node]);
  }

  // ---- Appends ----

  /** What a compare-and-append of `c` leaves in the store. */
  function AfterAppend(store: Store, c: Config): Store {
    var result := CompareAndAppend(store, c);
    if result.Ok? then result.value else store
  }

  /**
   * An append whose register decided `decided` answers and acts like a compare-and-append of the caller's own config
   * exactly when that config was decided, or both are refused.
   */
  lemma AppendIsOwnIff(store: Store, own: Config, decided: Config)
    ensures CompareAndAppend(store, decided).Ok? == CompareAndAppend(store, own).Ok?
            && AfterAppend(store, decided) == AfterAppend(store, own)
            <==> own == decided || (CompareAndAppend(store, decided).Err? && CompareAndAppend(store, own).Err?)
  {
    if CompareAndAppend(store, decided).Ok? && CompareAndAppend(store, own).Ok? {
      AppendShape(store, decided);
      AppendShape(store, own);
      var after := CompareAndAppend(store, decided).value;
      assert decided.version in after.configs && after.configs[decided.version] == decided;
      if after == CompareAndAppend(store, own).value {
        assert CurrentVersion(after) == decided.version == own.version;
      }
    }
  }

  /** A caller whose write adopted another node's value is told that its config was accepted, and the other one was. */
  method AdoptedValueIsReported() returns (own: Config, accepted: bool, installed: Option<Config>)
    ensures accepted && installed.Some? && installed.value != own && installed.value.version == own.version
  {
    own := Config(1, 0, 1, MAX_INDEX, 0, "own", []);
    var other := Config(1, 0, 1, MAX_INDEX, 0, "other", []);
    var parse: Parser := (text: string) =>
      if text == "own" then Some(own) else if text == "other" then Some(other) else None;
    var node := new MetadataNode(parse, DEFAULT_CONFIG);
    var attempts := [Attempt(true, true, Some("other"))];
    assert Wrote(attempts[0]) && Ends("own", attempts, 0);
    var result, used := node.AppendConfig("own", attempts);
    assert used == 1;
    assert attempts[..1] == attempts && attempts[..0] == [];
    assert ValuesRead(attempts) == ["other"];
    assert node.history == ["other"];
    assert ["other"][..0] == [];
    assert Replay(parse, node.boot, ["other"]) == ApplyConfig(Replay(parse, node.boot, []), other);
    accepted := result.Answered? && result.accepted;
    installed := GetConfig(node.replica.store, 1);
  }
}
