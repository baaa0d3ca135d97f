/**
 * The metadata chain replicated through consecutive write-once registers
 * (statemachine/MetadataStoreStateMachine.h).  A node replays the registers in
 * order; the acceptors of the next register come from the config that the
 * registers replayed so far have produced.
 */
module MetadataReplication {
  import opened Options
  import opened Decimals
  import opened MetadataStore
  import Acceptor
  import Paxos
  import PaxosSafety

  /** How a register's bytes become a config; `None` is a parse error. */
  type Parser = string -> Option<Config>

  // ---- Replaying registers ----

  datatype Replica = Replica(store: Store, config: Config)

  function Bootstrap(boot: Config): Replica {
    Replica(Store(map[], map[]), boot)
  }

  /** The config of the highest version, as the state machine asks for it after every apply. */
  function SuppliedConfig(s: Store): Config {
    var found := GetConfig(s, CurrentVersion(s));
    if found.Some? then found.value else DEFAULT_CONFIG
  }

  /** Applying a value appends to the chain or, on a conflict, changes nothing. */
  function ApplyConfig(r: Replica, c: Config): Replica {
    var result := CompareAndAppend(r.store, c);
    var store := if result.Ok? then result.value else r.store;
    Replica(store, SuppliedConfig(store))
  }

  function Replay(parse: Parser, boot: Config, values: seq<string>): Replica {
    if values == [] then Bootstrap(boot)
    else
      var before := Replay(parse, boot, values[..|values| - 1]);
      var c := parse(values[|values| - 1]);
      if c.Some? then ApplyConfig(before, c.value) else before
  }

  /**
   * Which config a replica works with: the bootstrap config until it applies something, the highest version in its
   * store once there is one, and the default as long as all it applied was refused.
   */
  ghost predicate HoldsNewest(boot: Config, r: Replica, untouched: bool) {
    && (untouched ==> r.store.configs == map[] && r.config == boot)
    && (!untouched && r.store.configs == map[] ==> r.config == DEFAULT_CONFIG)
    && forall v <- r.store.configs | v != 0 && forall w <- r.store.configs :: w <= v :: r.config == r.store.configs[v]
  }

  /** A config that was accepted is the one the replica works with from then on. */
  lemma AcceptedIsNewest(r: Replica, c: Config)
    requires CompareAndAppend(r.store, c).Ok? && c.version != 0
    ensures ApplyConfig(r, c) == Replica(CompareAndAppend(r.store, c).value, c)
  {
    AppendShape(r.store, c);
  }

  /** A config that was refused leaves the chain alone. */
  lemma RefusedChangesNothing(r: Replica, c: Config)
    requires CompareAndAppend(r.store, c).Err?
    ensures ApplyConfig(r, c).store == r.store
  {
  }

  lemma ReplayHoldsNewest(parse: Parser, boot: Config, values: seq<string>)
    requires forall value <- values :: parse(value).Some?
    ensures HoldsNewest(boot, Replay(parse, boot, values), values == [])
    decreases |values|
  {
    if values != [] {
      assert values[|values| - 1] in values;
    }
  }

  datatype SyncError = ParseError

  /** The value at position `i` of a history is what its register holds, and it parses. */
  ghost predicate Matches(parse: Parser, written: map<int, string>, start: int, history: seq<string>, i: nat)
    requires i < |history|
  {
    var k := start + 1 + i;
    k in written && written[k] == history[i] && parse(history[i]).Some?
  }

  lemma MatchesLonger(parse: Parser, written: map<int, string>, start: int, history: seq<string>, value: string)
    requires var k := start + 1 + |history|; k in written && written[k] == value && parse(value).Some?
    ensures Matches(parse, written, start, history + [value], |history|)
    ensures forall i: nat | i < |history| ::
              Matches(parse, written, start, history + [value], i) == Matches(parse, written, start, history, i)
  {
  }

  /** What one pass over a register gave: the lock, the write's answer, the committed value read afterwards. */
  datatype Attempt = Attempt(locked: bool, wrote: bool, read: Option<string>)

  datatype AppendResult = Unfinished | Failed(error: SyncError) | Answered(accepted: bool)

  predicate ReadsValue(a: Attempt) {
    a.locked && a.read.Some?
  }

  /** The values read, one per register. */
  function ValuesRead(attempts: seq<Attempt>): seq<string> {
    if attempts == [] then [] else
      var last := |attempts| - 1;
      ValuesRead(attempts[..last]) + (if ReadsValue(attempts[last]) then [attempts[last].read.value] else [])
  }

  /** An append ends with a register that was read, once a write was answered with true or the value read is its own. */
  ghost predicate Ends(payload: string, attempts: seq<Attempt>, k: nat)
    requires k < |attempts|
  {
    ReadsValue(attempts[k]) && (attempts[k].read.value == payload || exists i | 0 <= i <= k :: Wrote(attempts[i]))
  }

  predicate Wrote(a: Attempt) {
    a.locked && a.wrote
  }

  class MetadataNode {
    const parse: Parser
    const boot: Config
    var replica: Replica
    var lastAppliedWorId: int
    /** The values applied so far, one per register. */
    ghost var history: seq<string>

    ghost predicate Valid()
      reads this
    {
      && replica == Replay(parse, boot, history)
      && lastAppliedWorId == boot.start + |history|
      && forall value <- history :: parse(value).Some?
    }

    lemma HoldsNow()
      requires Valid()
      ensures HoldsNewest(boot, replica, history == [])
    {
      ReplayHoldsNewest(parse, boot, history);
    }

    constructor (parse: Parser, boot: Config)
      ensures Valid() && history == [] && this.parse == parse && this.boot == boot
    {
      this.parse, this.boot := parse, boot;
      replica, lastAppliedWorId, history := Bootstrap(boot), boot.start, [];
    }

    /** The value of the next register is applied, and the config asked for again. */
    method ApplyValue(value: string, config: Config) returns (accepted: bool)
      requires Valid() && parse(value) == Some(config)
      modifies this
      ensures Valid() && history == old(history) + [value] && lastAppliedWorId == old(lastAppliedWorId) + 1
      ensures accepted <==> CompareAndAppend(old(replica.store), config).Ok?
      ensures accepted ==> replica.store == CompareAndAppend(old(replica.store), config).value
      ensures !accepted ==> replica.store == old(replica.store)
      ensures HoldsNewest(boot, replica, history == [])
      ensures accepted && config.version != 0 ==> replica.config == config
    {
      hide CompareAndAppend, SuppliedConfig, HoldsNewest;
      assert (history + [value])[..|history|] == history;
      accepted := CompareAndAppend(replica.store, config).Ok?;
      if accepted && config.version != 0 {
        AcceptedIsNewest(replica, config);
      }
      replica := ApplyConfig(replica, config);
      lastAppliedWorId := lastAppliedWorId + 1;
      history := history + [value];
      HoldsNow();
    }

    /** Applies register after register until one is not written or does not parse. */
    method Sync(written: map<int, string>) returns (result: Result<(), SyncError>)
      requires Valid()
      modifies this
      ensures Valid() && old(history) <= history
      ensures forall i: nat | |old(history)| <= i < |history| :: Matches(parse, written, boot.start, history, i)
      ensures result.Ok? ==> lastAppliedWorId + 1 !in written
      ensures result.Err? ==> lastAppliedWorId + 1 in written && parse(written[lastAppliedWorId + 1]).None?
      ensures HoldsNewest(boot, replica, history == [])
    {
      hide HoldsNewest, CompareAndAppend, SuppliedConfig;
      HoldsNow();
      ghost var left := written.Keys;
      while true
        invariant Valid() && old(history) <= history && HoldsNewest(boot, replica, history == [])
        invariant forall i: nat | |old(history)| <= i < |history| :: Matches(parse, written, boot.start, history, i)
        invariant left == set k <- written.Keys | k > lastAppliedWorId || k <= boot.start + |old(history)|
        decreases left
      {
        var nextWorId := lastAppliedWorId + 1;
        if nextWorId !in written {
          return Ok(());
        }
        var value := written[nextWorId];
        var config := parse(value);
        if config.None? {
          return Err(ParseError);
        }
        MatchesLonger(parse, written, boot.start, history, value);
        var _ := ApplyValue(value, config.value);
        assert nextWorId in left;
        left := left - {nextWorId};
      }
    }

    /**
     * Writes register after register until its config is in one; `attempts` is what the registers answer.  Every
     * value read on the way is applied, in order, whosever it is.
     */
    method AppendConfig(payload: string, attempts: seq<Attempt>) returns (result: AppendResult, used: nat)
      requires Valid()
      modifies this
      ensures Valid() && used <= |attempts|
      ensures result.Unfinished? ==> used == |attempts|
      ensures !result.Failed? ==> history == old(history) + ValuesRead(attempts[..used])
      ensures result.Failed? ==>
                && used > 0 && history == old(history) + ValuesRead(attempts[..used - 1])
                && ReadsValue(attempts[used - 1]) && parse(attempts[used - 1].read.value).None?
      ensures result.Answered? ==>
                && used > 0 && Ends(payload, attempts, used - 1) && parse(attempts[used - 1].read.value).Some?
                && (result.accepted <==> CompareAndAppend(Replay(parse, boot, history[..|history| - 1]).store,
                                                          parse(attempts[used - 1].read.value).value).Ok?)
      ensures forall k | 0 <= k < used && (result.Unfinished? || k < used - 1) :: !Ends(payload, attempts, k)
      ensures HoldsNewest(boot, replica, history == [])
      ensures result.Answered? && result.accepted && parse(attempts[used - 1].read.value).value.version != 0 ==>
                replica.config == parse(attempts[used - 1].read.value).value
    {
      hide CompareAndAppend, SuppliedConfig, HoldsNewest;
      HoldsNow();
      var successfullyWritten := false;
      used := 0;
      while used < |attempts|
        invariant Valid() && used <= |attempts| && HoldsNewest(boot, replica, history == [])
        invariant history == old(history) + ValuesRead(attempts[..used])
        invariant successfullyWritten <==> exists i | 0 <= i < used :: Wrote(attempts[i])
        invariant forall k | 0 <= k < used :: !Ends(payload, attempts, k)
      {
        var attempt := attempts[used];
        used := used + 1;
        assert attempts[..used][..used - 1] == attempts[..used - 1];
        if !attempt.locked {
          continue;
        }
        if attempt.wrote {
          assert Wrote(attempts[used - 1]);
          successfullyWritten := true;
        }
        if attempt.read.None? {
          continue;
        }
        var value := attempt.read.value;
        var config := parse(value);
        if config.None? {
          return Failed(ParseError), used;
        }
        assert (history + [value])[..|history|] == history;
        var accepted := ApplyValue(value, config.value);
        if value == payload {
          successfullyWritten := true;
        }
        if successfullyWritten {
          return Answered(accepted), used;
        }
      }
      assert attempts[..used] == attempts;
      return Unfinished, used;
    }
  }

  // ---- The system: nodes and one Paxos instance per register ----

  datatype Node = Node(replica: Replica, lastApplied: int, history: seq<string>)

  /** A register's acceptors, in the order of the config that named them, and their protocol state. */
  datatype Instance = Instance(members: seq<string>, paxos: Paxos.State)

  /**
   * `mixed` is raised when two nodes would use different acceptors for one
   * register; nothing is known about such a register.
   */
  datatype State = State(boot: Config, nodes: seq<Node>, instances: map<int, Instance>, mixed: bool)

  datatype Step =
    | OpenRegister(node: nat)
    | RegisterStep(register: int, step: Paxos.Step)
    | ApplyNext(node: nat, acc: nat, value: string)

  /** All acceptors have to take part, as the register factory sets it up. */
  ghost function FreshPaxos(register: int, members: seq<string>): Paxos.State {
    Paxos.State(register, |members|,
                seq(|members|, _ => Acceptor.FreshInstance(ToString(register))),
                [], {}, {}, {}, {}, {}, {}, {}, {})
  }

  ghost predicate Init(s: State) {
    && (forall i | 0 <= i < |s.nodes| :: s.nodes[i] == Node(Bootstrap(s.boot), s.boot.start, []))
    && s.instances == map[] && !s.mixed
  }

  ghost predicate Enabled(s: State, step: Step) {
    match step
    case OpenRegister(i) => i < |s.nodes| && s.nodes[i].replica.config.replicas != []
    case RegisterStep(k, step) =>
      k in s.instances && !step.NewRegister? && Paxos.Enabled(s.instances[k].paxos, step)
    case ApplyNext(i, acc, value) =>
      && i < |s.nodes| && s.nodes[i].lastApplied + 1 in s.instances
      && Paxos.Read(acc, value) in s.instances[s.nodes[i].lastApplied + 1].paxos.readLog
  }

  ghost function Apply(parse: Parser, s: State, step: Step): State
    requires Enabled(s, step)
  {
    match step
    case OpenRegister(i) =>
      var k, members := s.nodes[i].lastApplied + 1, s.nodes[i].replica.config.replicas;
      var instance := if k in s.instances then s.instances[k] else Instance(members, FreshPaxos(k, members));
      if instance.members != members then s.(mixed := true)
      else s.(instances := s.instances[k := instance.(paxos := Paxos.Apply(instance.paxos, Paxos.NewRegister))])
    case RegisterStep(k, step) =>
      var instance := s.instances[k];
      s.(instances := s.instances[k := instance.(paxos := Paxos.Apply(instance.paxos, step))])
    case ApplyNext(i, _, value) =>
      var node := s.nodes[i];
      var k := node.lastApplied + 1;
      var c := parse(value);
      if s.instances[k].members != node.replica.config.replicas then s.(mixed := true)
      else if c.None? then s
      else s.(nodes := s.nodes[i := Node(ApplyConfig(node.replica, c.value), k, node.history + [value])])
  }

  ghost predicate Next(parse: Parser, s: State, s': State) {
    exists step :: Enabled(s, step) && s' == Apply(parse, s, step)
  }

  ghost predicate IsRun(parse: Parser, run: seq<State>) {
    && |run| > 0 && Init(run[0])
    && forall i | 0 <= i < |run| - 1 :: Next(parse, run[i], run[i + 1])
  }

  // ---- Invariant ----

  /** A node is what its history replays to. */
  ghost predicate NodeOk(parse: Parser, boot: Config, node: Node) {
    node.replica == Replay(parse, boot, node.history) && node.lastApplied == boot.start + |node.history|
  }

  /** Two histories agree as far as both go. */
  ghost predicate Comparable(h: seq<string>, h': seq<string>) {
    forall m | 0 <= m < |h| && m < |h'| :: h[m] == h'[m]
  }

  /** The protocol state is a safe one in which all acceptors must take part. */
  ghost predicate InstanceOk(p: Paxos.State) {
    PaxosSafety.Inv(p) && PaxosSafety.ReadsOk(p) && p.threshold == |p.acceptors| > 0
  }

  /** Some node has replayed up to this register and names its acceptors. */
  ghost predicate MembersOk(parse: Parser, boot: Config, nodes: seq<Node>, k: int, members: seq<string>) {
    exists j :: 0 <= j < |nodes| && boot.start < k <= boot.start + |nodes[j].history| + 1
                && members == Replay(parse, boot, nodes[j].history[..k - boot.start - 1]).config.replicas
  }

  ghost predicate WasRead(instances: map<int, Instance>, k: int, value: string) {
    k in instances && exists acc :: Paxos.Read(acc, value) in instances[k].paxos.readLog
  }

  ghost predicate HistoryRead(boot: Config, instances: map<int, Instance>, h: seq<string>) {
    forall m | 0 <= m < |h| :: WasRead(instances, boot.start + 1 + m, h[m])
  }

  ghost predicate Inv(parse: Parser, s: State) {
    && !s.mixed
    && (forall i | 0 <= i < |s.nodes| :: NodeOk(parse, s.boot, s.nodes[i]))
    && (forall i | 0 <= i < |s.nodes| :: HistoryRead(s.boot, s.instances, s.nodes[i].history))
    && (forall i, j | 0 <= i < |s.nodes| && 0 <= j < |s.nodes| :: Comparable(s.nodes[i].history, s.nodes[j].history))
    && (forall k <- s.instances :: InstanceOk(s.instances[k].paxos))
    && (forall k <- s.instances :: MembersOk(parse, s.boot, s.nodes, k, s.instances[k].members))
  }

  /** Reads of one register return one value. */
  lemma ReadsAgree(p: Paxos.State, r: Paxos.Read, r': Paxos.Read)
    requires InstanceOk(p) && r in p.readLog && r' in p.readLog
    ensures r.value == r'.value
  {
    assert PaxosSafety.ChosenEver(p, r.value) && PaxosSafety.ChosenEver(p, r'.value);
    var l :| Paxos.Chosen(p, l, r.value);
    var l' :| Paxos.Chosen(p, l', r'.value);
    PaxosSafety.ChosenAgree(p, l, r.value, l', r'.value);
  }

  lemma FreshInstanceOk(register: int, members: seq<string>)
    requires members != []
    ensures InstanceOk(FreshPaxos(register, members))
  {
  }

  lemma InstanceStep(p: Paxos.State, step: Paxos.Step)
    requires InstanceOk(p) && Paxos.Enabled(p, step)
    ensures InstanceOk(Paxos.Apply(p, step)) && p.readLog <= Paxos.Apply(p, step).readLog
  {
    hide PaxosSafety.Inv, PaxosSafety.ReadsOk;
    PaxosSafety.StepInv(p, step);
    PaxosSafety.StepReadsOk(p, step);
  }

  /** Where two histories agree, so do the configs that name the acceptors of the next register. */
  lemma SameMembers(parse: Parser, boot: Config, nodes: seq<Node>, k: int, members: seq<string>, node: Node)
    requires MembersOk(parse, boot, nodes, k, members) && NodeOk(parse, boot, node) && k == node.lastApplied + 1
    requires forall j | 0 <= j < |nodes| :: Comparable(node.history, nodes[j].history)
    ensures members == node.replica.config.replicas
  {
    hide Replay;
    var j :| 0 <= j < |nodes| && boot.start < k <= boot.start + |nodes[j].history| + 1
             && members == Replay(parse, boot, nodes[j].history[..k - boot.start - 1]).config.replicas;
    assert Comparable(node.history, nodes[j].history);
    assert nodes[j].history[..|node.history|] == node.history;
  }

  /** A node that stands before register `k` names the acceptors the register has. */
  lemma MembersAgree(parse: Parser, s: State, i: nat)
    requires Inv(parse, s) && i < |s.nodes| && s.nodes[i].lastApplied + 1 in s.instances
    ensures s.instances[s.nodes[i].lastApplied + 1].members == s.nodes[i].replica.config.replicas
  {
    hide InstanceOk, HistoryRead, NodeOk, Comparable, MembersOk;
    var k := s.nodes[i].lastApplied + 1;
    SameMembers(parse, s.boot, s.nodes, k, s.instances[k].members, s.nodes[i]);
  }

  /** New protocol state for one register, its reads kept. */
  lemma InstanceKept(parse: Parser, s: State, k: int, paxos: Paxos.State)
    requires Inv(parse, s) && k in s.instances && InstanceOk(paxos) && s.instances[k].paxos.readLog <= paxos.readLog
    ensures Inv(parse, s.(instances := s.instances[k := s.instances[k].(paxos := paxos)]))
  {
    hide InstanceOk, HistoryRead, NodeOk, Comparable, MembersOk;
    var s' := s.(instances := s.instances[k := s.instances[k].(paxos := paxos)]);
    forall i | 0 <= i < |s.nodes| ensures HistoryRead(s.boot, s'.instances, s.nodes[i].history) {
      HistoryKept(s.boot, s.instances, s'.instances, s.nodes[i].history);
    }
  }

  lemma HistoryKept(boot: Config, instances: map<int, Instance>, instances': map<int, Instance>, h: seq<string>)
    requires HistoryRead(boot, instances, h)
    requires forall k <- instances :: k in instances' && instances[k].paxos.readLog <= instances'[k].paxos.readLog
    ensures HistoryRead(boot, instances', h)
  {
    forall m | 0 <= m < |h| ensures WasRead(instances', boot.start + 1 + m, h[m]) {
      assert WasRead(instances, boot.start + 1 + m, h[m]);
    }
  }

  lemma OpenInv(parse: Parser, s: State, i: nat)
    requires Inv(parse, s) && Enabled(s, OpenRegister(i))
    ensures Inv(parse, Apply(parse, s, OpenRegister(i)))
  {
    hide InstanceOk, NodeOk, HistoryRead, Comparable, MembersOk;
    var k, members := s.nodes[i].lastApplied + 1, s.nodes[i].replica.config.replicas;
    if k in s.instances {
      MembersAgree(parse, s, i);
      InstanceStep(s.instances[k].paxos, Paxos.NewRegister);
      InstanceKept(parse, s, k, Paxos.Apply(s.instances[k].paxos, Paxos.NewRegister));
    } else {
      NewInstance(parse, s, i);
    }
  }

  lemma NewMembers(parse: Parser, boot: Config, nodes: seq<Node>, i: nat)
    requires i < |nodes| && NodeOk(parse, boot, nodes[i])
    ensures MembersOk(parse, boot, nodes, nodes[i].lastApplied + 1, nodes[i].replica.config.replicas)
  {
    assert nodes[i].history[..nodes[i].lastApplied - boot.start] == nodes[i].history;
  }

  lemma AddInstance(parse: Parser, s: State, k: int, instance: Instance)
    requires Inv(parse, s) && k !in s.instances
    requires InstanceOk(instance.paxos) && MembersOk(parse, s.boot, s.nodes, k, instance.members)
    ensures Inv(parse, s.(instances := s.instances[k := instance]))
  {
    hide InstanceOk, HistoryRead, Comparable, NodeOk, MembersOk;
    var s' := s.(instances := s.instances[k := instance]);
    forall j | 0 <= j < |s.nodes| ensures HistoryRead(s.boot, s'.instances, s.nodes[j].history) {
      HistoryKept(s.boot, s.instances, s'.instances, s.nodes[j].history);
    }
  }

  lemma NewInstance(parse: Parser, s: State, i: nat)
    requires Inv(parse, s) && Enabled(s, OpenRegister(i)) && s.nodes[i].lastApplied + 1 !in s.instances
    ensures Inv(parse, Apply(parse, s, OpenRegister(i)))
  {
    hide InstanceOk, HistoryRead, Comparable, NodeOk, MembersOk, FreshPaxos;
    var k, members := s.nodes[i].lastApplied + 1, s.nodes[i].replica.config.replicas;
    FreshInstanceOk(k, members);
    InstanceStep(FreshPaxos(k, members), Paxos.NewRegister);
    NewMembers(parse, s.boot, s.nodes, i);
    AddInstance(parse, s, k, Instance(members, Paxos.Apply(FreshPaxos(k, members), Paxos.NewRegister)));
  }

  /** Extending one node's history with a value read from the next register keeps histories comparable. */
  lemma ApplyComparable(parse: Parser, s: State, i: nat, acc: nat, value: string, j: nat)
    requires Inv(parse, s) && Enabled(s, ApplyNext(i, acc, value)) && j < |s.nodes|
    ensures Comparable(s.nodes[i].history + [value], s.nodes[j].history)
  {
    hide InstanceOk, MembersOk;
    var h, h' := s.nodes[i].history, s.nodes[j].history;
    assert Comparable(h, h') && NodeOk(parse, s.boot, s.nodes[i]);
    if |h'| > |h| {
      var k := s.boot.start + 1 + |h|;
      assert WasRead(s.instances, k, h'[|h|]);
      var acc' :| Paxos.Read(acc', h'[|h|]) in s.instances[k].paxos.readLog;
      ReadsAgree(s.instances[k].paxos, Paxos.Read(acc, value), Paxos.Read(acc', h'[|h|]));
    }
  }

  lemma ApplyInv(parse: Parser, s: State, i: nat, acc: nat, value: string)
    requires Inv(parse, s) && Enabled(s, ApplyNext(i, acc, value))
    ensures Inv(parse, Apply(parse, s, ApplyNext(i, acc, value)))
  {
    hide InstanceOk, MembersOk;
    var s' := Apply(parse, s, ApplyNext(i, acc, value));
    MembersAgree(parse, s, i);
    if s' != s {
      var h := s.nodes[i].history;
      assert NodeOk(parse, s.boot, s.nodes[i]);
      assert (h + [value])[..|h|] == h;
      forall j | 0 <= j < |s.nodes| ensures Comparable(h + [value], s.nodes[j].history) {
        ApplyComparable(parse, s, i, acc, value, j);
      }
      assert WasRead(s.instances, s.boot.start + 1 + |h|, value);
      assert HistoryRead(s.boot, s.instances, h + [value]);
      forall k <- s.instances ensures MembersOk(parse, s.boot, s'.nodes, k, s.instances[k].members) {
        MembersKept(parse, s, s', i, value, k);
      }
    }
  }

  lemma MembersKept(parse: Parser, s: State, s': State, i: nat, value: string, k: int)
    requires k in s.instances && MembersOk(parse, s.boot, s.nodes, k, s.instances[k].members)
    requires i < |s.nodes| == |s'.nodes| && s'.nodes[i].history == s.nodes[i].history + [value]
    requires forall j | 0 <= j < |s.nodes| && j != i :: s'.nodes[j] == s.nodes[j]
    ensures MembersOk(parse, s.boot, s'.nodes, k, s.instances[k].members)
  {
    var j :| 0 <= j < |s.nodes| && s.boot.start < k <= s.boot.start + |s.nodes[j].history| + 1
             && s.instances[k].members ==
                  Replay(parse, s.boot, s.nodes[j].history[..k - s.boot.start - 1]).config.replicas;
    assert s'.nodes[j].history[..k - s.boot.start - 1] == s.nodes[j].history[..k - s.boot.start - 1];
  }

  lemma StepInv(parse: Parser, s: State, step: Step)
    requires Inv(parse, s) && Enabled(s, step)
    ensures Inv(parse, Apply(parse, s, step))
  {
    hide InstanceOk;
    match step
    case OpenRegister(i) => OpenInv(parse, s, i);
    case RegisterStep(k, step) =>
      InstanceStep(s.instances[k].paxos, step);
      InstanceKept(parse, s, k, Paxos.Apply(s.instances[k].paxos, step));
    case ApplyNext(i, acc, value) => ApplyInv(parse, s, i, acc, value);
  }

  lemma StepOf(parse: Parser, run: seq<State>, i: nat) returns (step: Step)
    requires IsRun(parse, run) && i < |run| - 1
    ensures Enabled(run[i], step) && run[i + 1] == Apply(parse, run[i], step)
  {
    hide Enabled, Apply, Init;
    assert Next(parse, run[i], run[i + 1]);
    step :| Enabled(run[i], step) && run[i + 1] == Apply(parse, run[i], step);
  }

  lemma StepBoot(parse: Parser, s: State, step: Step)
    requires Enabled(s, step)
    ensures Apply(parse, s, step).boot == s.boot
  {
  }

  lemma InitInv(parse: Parser, run: seq<State>)
    requires IsRun(parse, run)
    ensures Inv(parse, run[0])
  {
  }

  lemma {:induction false} RunInv(parse: Parser, run: seq<State>, n: nat)
    requires IsRun(parse, run) && n < |run|
    ensures Inv(parse, run[n]) && run[n].boot == run[0].boot
  {
    hide Inv, IsRun, Enabled, Apply;
    if n == 0 {
      InitInv(parse, run);
    } else {
      RunInv(parse, run, n - 1);
      var step := StepOf(parse, run, n - 1);
      StepInv(parse, run[n - 1], step);
      StepBoot(parse, run[n - 1], step);
    }
  }

  /** Only values that parse are ever applied. */
  ghost predicate Parses(parse: Parser, s: State) {
    forall i, value | 0 <= i < |s.nodes| && value in s.nodes[i].history :: parse(value).Some?
  }

  lemma StepParses(parse: Parser, s: State, step: Step)
    requires Parses(parse, s) && Enabled(s, step)
    ensures Parses(parse, Apply(parse, s, step))
  {
  }

  lemma {:induction false} RunParses(parse: Parser, run: seq<State>, n: nat)
    requires IsRun(parse, run) && n < |run|
    ensures Parses(parse, run[n])
  {
    if n > 0 {
      hide IsRun, Enabled, Apply, Parses;
      RunParses(parse, run, n - 1);
      var step := StepOf(parse, run, n - 1);
      StepParses(parse, run[n - 1], step);
    }
  }

  /** In every run every node works with the highest version in its store. */
  lemma NodesHoldNewest(parse: Parser, run: seq<State>, n: nat, i: nat)
    requires IsRun(parse, run) && n < |run| && i < |run[n].nodes|
    ensures HoldsNewest(run[n].boot, run[n].nodes[i].replica, run[n].nodes[i].history == [])
  {
    hide InstanceOk, HistoryRead, MembersOk, Comparable, HoldsNewest, IsRun;
    RunInv(parse, run, n);
    assert NodeOk(parse, run[n].boot, run[n].nodes[i]);
    RunParses(parse, run, n);
    ReplayHoldsNewest(parse, run[n].boot, run[n].nodes[i].history);
  }

  /** A node that applies a value appends it and works with it, or leaves its store alone if it is refused. */
  lemma AppliedByNode(parse: Parser, run: seq<State>, n: nat, i: nat, acc: nat, value: string, c: Config)
    requires IsRun(parse, run) && n < |run| - 1 && Enabled(run[n], ApplyNext(i, acc, value))
    requires run[n + 1] == Apply(parse, run[n], ApplyNext(i, acc, value)) && parse(value) == Some(c)
    ensures var store, after := run[n].nodes[i].replica.store, run[n + 1].nodes[i];
            && after.lastApplied == run[n].nodes[i].lastApplied + 1
            && after.history == run[n].nodes[i].history + [value]
            && (CompareAndAppend(store, c).Ok? ==> after.replica.store == CompareAndAppend(store, c).value)
            && (CompareAndAppend(store, c).Ok? && c.version != 0 ==> after.replica.config == c)
            && (CompareAndAppend(store, c).Err? ==> after.replica.store == store)
  {
    hide Inv, IsRun, CompareAndAppend;
    RunInv(parse, run, n);
    RunInv(parse, run, n + 1);
    var r := run[n].nodes[i].replica;
    NotMixed(parse, run[n + 1]);
    if CompareAndAppend(r.store, c).Ok? && c.version != 0 {
      AcceptedIsNewest(r, c);
    }
  }

  lemma NotMixed(parse: Parser, s: State)
    requires Inv(parse, s)
    ensures !s.mixed
  {
  }

  /**
   * Replicated metadata agreement: the histories of any two nodes are prefixes
   * of one chain, two nodes that applied equally many registers have equal
   * stores and configs, and no register is ever used with two sets of acceptors.
   */
  lemma MetadataAgreement(parse: Parser, run: seq<State>, n: nat, i: nat, j: nat)
    requires IsRun(parse, run) && n < |run| && i < |run[n].nodes| && j < |run[n].nodes|
    ensures !run[n].mixed
    ensures |run[n].nodes[i].history| <= |run[n].nodes[j].history| ==>
              run[n].nodes[i].history <= run[n].nodes[j].history
    ensures run[n].nodes[i].lastApplied == run[n].nodes[j].lastApplied ==>
              run[n].nodes[i].replica == run[n].nodes[j].replica
    ensures var next := run[n].nodes[i].lastApplied + 1;
            next in run[n].instances ==> run[n].instances[next].members == run[n].nodes[i].replica.config.replicas
  {
    hide InstanceOk, HistoryRead, MembersOk;
    RunInv(parse, run, n);
    var s := run[n];
    var a, b := s.nodes[i], s.nodes[j];
    assert Comparable(a.history, b.history) && NodeOk(parse, s.boot, a) && NodeOk(parse, s.boot, b);
    if |a.history| == |b.history| {
      assert a.history == b.history;
    }
    if a.lastApplied + 1 in s.instances {
      MembersAgree(parse, s, i);
    }
  }
}
