/**
 * How many acknowledgements must come from unsealed replicas.  Copying during a reconfiguration can fill the hole below
 * an append that is still pending at a sealed replica, and complete it after the version's end was decided.
 */
module LogLateAcks {
  import opened Options
  import opened Quorums
  import opened MetadataStore
  import opened CompletionQueue
  import opened NanoLogs
  import opened LogProtocol
  import opened LogRuns
  import LogSafety

  /** `append` was answered, only `live` completed it unsealed, and yet a later version starts at or below its id. */
  ghost predicate Lost(s: State, quorum: set<nat>, live: set<nat>, v: int, id: int) {
    && Answered(s, quorum, v, id) && LiveSet(s, live, v, id)
    && exists w <- s.meta.configs :: w > v && s.meta.configs[w].start <= id
  }

  /** Some run of `n` replicas loses an answered append that exactly `m` of them acknowledged unsealed. */
  ghost predicate MayLose(n: nat, m: nat) {
    exists s: State, quorum, live, v, id ::
      Leads(s, s) && |s.replicas| == n && |live| == m && Lost(s, quorum, live, v, id)
  }

  // ---- The run, for every number of replicas above one ----

  /**
   * Of the majority that will be sealed, the last misses id 2 and the others miss id 1; `m` of the other replicas
   * complete all three ids.
   */
  ghost function Roles(n: nat, m: nat): seq<Role> {
    seq(n, i => if i == Quorum(n) - 1 then Top else if Quorum(n) <= i < Quorum(n) + m then Full else Low)
  }

  const DONE := FULL.(sealed := true)
  const SEALED_LOW := LOW.(sealed := true)
  const SEALED_TOP := TOP.(sealed := true)

  /** What copying does at the sealed replicas. */
  lemma Copies()
    ensures Append(SEALED_LOW, None, 1, "a", true) == (DONE, Enqueued)
    ensures 1 in Completed(SEALED_LOW, DONE) && 3 in Completed(SEALED_LOW, DONE)
    ensures Append(SEALED_TOP, None, 1, "a", true) == (SEALED_TOP, Present)
    ensures Append(SEALED_TOP, None, 2, "b", true) == (DONE, Enqueued) && 3 in Completed(SEALED_TOP, DONE)
  {
    AddCompletes(Queue(1, {2, 3}), 4);
    AddCompletes(Queue(2, {3}), 4);
    assert SEALED_LOW.logs[1 := "a"] == DONE.logs && SEALED_TOP.logs[2 := "b"] == DONE.logs;
  }

  /** The logs after the first reconfigurer copied id 1 to the first `k` replicas. */
  ghost function Copied(n: nat, m: nat, k: nat): seq<NanoLog> {
    seq(n, i => if i < Quorum(n) - 1 then (if i < k then DONE else SEALED_LOW)
                else if i == Quorum(n) - 1 then SEALED_TOP
                else if i < Quorum(n) + m then FULL else LOW)
  }

  /** Exactly the `m` replicas above the sealed majority acknowledged id 3 unsealed. */
  ghost predicate LiveAbove(s: State, n: nat, m: nat) {
    forall r: nat :: Ack(r, 1, 3, Live) in s.acks <==> Quorum(n) <= r < Quorum(n) + m
  }

  ghost function Rec(n: nat, ends: map<nat, int>, phase: Phase): Reconfigurer {
    Reconfigurer(1, Upto(Quorum(n)), ends, phase)
  }

  /** Copying of id 1 by the first reconfigurer is under way: `k` replicas have it. */
  ghost predicate Copying1(s: State, n: nat, m: nat, ends: map<nat, int>, k: nat) {
    && s == State(META, Wrap(Copied(n, m, k)), map[1 := Sequencer(4, 1)], ENTRIES, s.msgs, s.acks,
                  [Rec(n, ends, Pushing(1, 2, "a"))])
    && (forall r: nat | r < n :: AppendMsg(r, 1, 1, "a", None, true) in s.msgs)
    && LiveAbove(s, n, m)
    && (forall r: nat | r < k && r < Quorum(n) - 1 :: Ack(r, 1, 1, Late) in s.acks && Ack(r, 1, 3, Late) in s.acks)
    && (k == Quorum(n) ==> Ack(k - 1, 1, 1, Already) in s.acks)
  }

  lemma CopyingStarts(n: nat, m: nat) returns (s0: State, s: State, ends: map<nat, int>)
    requires n >= 2 && m + Quorum(n) <= n
    ensures Leads(s0, s) && Copying1(s, n, m, ends, 0)
  {
    hide Leads, Upto;
    var q, logs := Quorum(n), LogsFor(Roles(n, m));
    s0 := FedReached(Roles(n, m), n);
    assert LiveAbove(s0, n, m) by {
      forall r: nat ensures Ack(r, 1, 3, Live) in s0.acks <==> q <= r < q + m {
        assert r < n ==> (Roles(n, m)[r].Full? <==> q <= r < q + m);
      }
    }
    var s1 := SealMajority(s0, s0, logs, q, 0, q - 1);
    assert Sealed(logs, q) == Copied(n, m, 0);
    ends := EndsOf(logs, q);
    hide EndsOf;
    s := FetchOne(s0, s1, n, m, ends, Copied(n, m, 0));
  }

  lemma FetchOne(s0: State, s: State, n: nat, m: nat, ends: map<nat, int>, logs: seq<NanoLog>) returns (s': State)
    requires n >= 2 && logs == Copied(n, m, 0) && Leads(s0, s)
    requires s == State(META, Wrap(logs), map[1 := Sequencer(4, 1)], ENTRIES, s.msgs, s.acks,
                        [Rec(n, ends, Copying(1, 2))])
    requires LiveAbove(s, n, m)
    ensures Leads(s0, s') && Copying1(s', n, m, ends, 0)
  {
    hide Leads, Upto;
    var step := FetchEntry(0, Quorum(n) - 1);
    assert s.replicas[Quorum(n) - 1] == map[1 := SEALED_TOP];
    Grow(s0, s, step);
    s' := Apply(s, step);
  }

  lemma CopiedStep(n: nat, m: nat, k: nat, after: NanoLog)
    requires n >= 2 && k < Quorum(n) && after == if k < Quorum(n) - 1 then DONE else SEALED_TOP
    ensures |Wrap(Copied(n, m, k))| == n > k
    ensures Wrap(Copied(n, m, k))[k] == map[1 := if k < Quorum(n) - 1 then SEALED_LOW else SEALED_TOP]
    ensures Wrap(Copied(n, m, k))[k := Wrap(Copied(n, m, k))[k][1 := after]] == Wrap(Copied(n, m, k + 1))
  {
    assert Wrap(Copied(n, m, k))[k][1 := after] == map[1 := after];
  }

  lemma CopyAt(s0: State, s: State, n: nat, m: nat, ends: map<nat, int>, k: nat,
               before: NanoLog, after: NanoLog, reply: AppendReply) returns (s': State)
    requires k < Quorum(n) && Leads(s0, s) && Copying1(s, n, m, ends, k)
    requires k < |s.replicas| == n && s.replicas[k] == map[1 := before] && before.sealed
    requires Append(before, None, 1, "a", true) == (after, reply)
    requires if k < Quorum(n) - 1 then 1 in Completed(before, after) && 3 in Completed(before, after)
             else reply.Present?
    requires s.replicas[k := s.replicas[k][1 := after]] == Wrap(Copied(n, m, k + 1))
    ensures Leads(s0, s') && Copying1(s', n, m, ends, k + 1)
  {
    hide Leads, Upto, Append, Completed, Wrap, Copied;
    s' := Deliver(s0, s, AppendMsg(k, 1, 1, "a", None, true), before, after, reply);
  }

  lemma CopyOne(s0: State, s: State, n: nat, m: nat, ends: map<nat, int>, k: nat) returns (s': State)
    requires n >= 2 && k < Quorum(n) && Leads(s0, s) && Copying1(s, n, m, ends, k)
    ensures Leads(s0, s') && Copying1(s', n, m, ends, k + 1)
  {
    hide Leads, Upto, Wrap, Copied, Append, Completed;
    Copies();
    if k < Quorum(n) - 1 {
      CopiedStep(n, m, k, DONE);
      s' := CopyAt(s0, s, n, m, ends, k, SEALED_LOW, DONE, Enqueued);
    } else {
      CopiedStep(n, m, k, SEALED_TOP);
      s' := CopyAt(s0, s, n, m, ends, k, SEALED_TOP, SEALED_TOP, Present);
    }
  }

  lemma {:induction false} CopyUpto(n: nat, m: nat, k: nat) returns (s0: State, s: State, ends: map<nat, int>)
    requires n >= 2 && m + Quorum(n) <= n && k <= Quorum(n)
    ensures Leads(s0, s) && Copying1(s, n, m, ends, k)
  {
    hide Leads, Copying1;
    if k == 0 {
      s0, s, ends := CopyingStarts(n, m);
    } else {
      var s1;
      s0, s1, ends := CopyUpto(n, m, k - 1);
      s := CopyOne(s0, s1, n, m, ends, k - 1);
    }
  }

  /** The first reconfigurer is done copying; a second one of the same version finds ids 2 and 3 to copy. */
  lemma SecondReconfigurer(n: nat, m: nat) returns (s0: State, s: State, ends: map<nat, int>, ends': map<nat, int>)
    requires n >= 2 && m + Quorum(n) <= n
    ensures Leads(s0, s)
    ensures s == State(META, Wrap(Copied(n, m, Quorum(n))), map[1 := Sequencer(4, 1)], ENTRIES, s.msgs, s.acks,
                       [Rec(n, ends, Copying(2, 2)), Rec(n, ends', Copying(2, 4))])
    ensures LiveAbove(s, n, m)
    ensures forall r: nat | r < Quorum(n) - 1 :: Ack(r, 1, 3, Late) in s.acks
  {
    hide Leads, Upto;
    var q := Quorum(n);
    var s1;
    s0, s1, ends := CopyUpto(n, m, q);
    assert forall r <- Upto(q) :: r == q - 1 || Ack(r, 1, 1, Late) in s1.acks;
    Grow(s0, s1, FinishPush(0, Upto(q)));
    var s2 := Apply(s1, FinishPush(0, Upto(q)));
    var logs := Copied(n, m, q);
    s := SealMajority(s0, s2, logs, q, q - 1, 0);
    assert Sealed(logs, q) == logs;
    ends' := EndsOf(logs, q);
  }

  /** Copying id 2 completes id 3 at the last sealed replica too, and the first reconfigurer installs its version. */
  lemma LosingRun(n: nat, m: nat)
    requires n >= 2 && m + Quorum(n) <= n
    ensures MayLose(n, m)
  {
    hide Leads, Upto;
    var s0, s1, ends, ends' := SecondReconfigurer(n, m);
    var q := Quorum(n);
    assert s1.replicas[0] == map[1 := DONE] && s1.replicas[q - 1] == map[1 := SEALED_TOP];
    var step := FetchEntry(1, 0);
    Grow(s0, s1, step);
    var s2 := Apply(s1, step);
    var copy := AppendMsg(q - 1, 1, 2, "b", None, true);
    assert copy in s2.msgs;
    Copies();
    hide Append, Completed;
    var s3 := Deliver(s0, s2, copy, SEALED_TOP, DONE, Enqueued);
    var s := InstallSecond(s0, s3, 0);
    Here(s0, s);
    var live := Beyond(q, m);
    LostHere(s, n, m, live);
  }

  lemma LostHere(s: State, n: nat, m: nat, live: set<nat>)
    requires Leads(s, s) && |s.replicas| == n && m + Quorum(n) <= n && s.meta == Second(2)
    requires |live| == m && forall i: nat :: i in live <==> Quorum(n) <= i < Quorum(n) + m
    requires LiveAbove(s, n, m)
    requires forall r: nat | r < Quorum(n) :: Ack(r, 1, 3, Late) in s.acks
    ensures MayLose(n, m)
  {
    var quorum := Upto(Quorum(n) + m);
    assert 2 in s.meta.configs;
    assert Lost(s, quorum, live, 1, 3);
  }

  // ---- The converse ----

  /** A single replica never completes anything after its seal: there is nothing to copy. */
  ghost predicate Alone(s: State) {
    && |s.replicas| == 1
    && (forall m <- s.msgs :: !m.copying)
    && (forall a <- s.acks :: a.outcome != Late)
    && (forall k | 0 <= k < |s.reconfigurers| :: !s.reconfigurers[k].phase.Pushing?)
    && (forall k | 0 <= k < |s.reconfigurers| && s.reconfigurers[k].phase.Copying? ::
          s.reconfigurers[k].phase.next == s.reconfigurers[k].phase.max)
  }

  lemma OneEnd(ends: map<nat, int>, members: set<nat>)
    requires ends.Keys == members && ends != map[] && |members| == 1
    ensures MinEnd(ends) == MaxEnd(ends)
  {
    var r :| r in members;
    assert |members - {r}| == 0;
    assert members == {r};
    assert ends.Values == {ends[r]};
  }

  lemma CopyAlone(s: State, k: nat)
    requires Alone(s) && Enabled(s, StartCopying(k)) && |s.reconfigurers[k].members| == 1
    ensures Alone(Apply(s, StartCopying(k)))
  {
    OneEnd(s.reconfigurers[k].ends, s.reconfigurers[k].members);
    hide MinEnd, MaxEnd;
  }

  lemma DeliverAlone(s: State, m: AppendMsg)
    requires Alone(s) && Enabled(s, DeliverAppend(m))
    ensures Alone(Apply(s, DeliverAppend(m)))
  {
    hide LogOf, AfterAdd, AfterBound;
    var before := LogOf(s.meta, s.replicas[m.replica], m.version);
    var after := Append(before, m.commitIndex, m.id, m.payload, m.copying).0;
    assert before.sealed ==> Completed(before, after) == {};
  }

  lemma StepAlone(s: State, step: Step)
    requires Alone(s) && Enabled(s, step)
    requires forall k | 0 <= k < |s.reconfigurers| :: |s.reconfigurers[k].members| == 1
    ensures Alone(Apply(s, step))
  {
    if step.StartCopying? {
      CopyAlone(s, step.rec);
    } else if step.DeliverAppend? {
      DeliverAlone(s, step.msg);
    } else {
      hide MinEnd, MaxEnd, LogOf, CompareAndAppend, Append, Completed;
    }
  }

  lemma MembersAlone(s: State)
    requires LogSafety.Inv(s) && |s.replicas| == 1
    ensures forall k | 0 <= k < |s.reconfigurers| :: |s.reconfigurers[k].members| == 1
  {
    forall k | 0 <= k < |s.reconfigurers| ensures |s.reconfigurers[k].members| == 1 {
      assert LogSafety.ReconfigurerOk(s.meta, s.entries, s.replicas, s.acks, s.reconfigurers[k]);
    }
  }

  lemma {:induction false} RunAlone(run: seq<State>, i: nat)
    requires IsRun(run) && |run[0].replicas| == 1 && i < |run|
    ensures Alone(run[i])
  {
    if i == 0 {
      LogSafety.RunStarts(run);
    } else {
      hide IsRun, Enabled, Apply, Alone, LogSafety.Inv;
      RunAlone(run, i - 1);
      LogSafety.RunInv(run, i - 1);
      LogSafety.RunKeeps(run, 0, i - 1);
      MembersAlone(run[i - 1]);
      var step := LogSafety.StepOf(run, i - 1);
      StepAlone(run[i - 1], step);
    }
  }

  lemma LostNeedsMany(s: State, quorum: set<nat>, live: set<nat>, v: int, id: int)
    requires Leads(s, s) && Lost(s, quorum, live, v, id)
    ensures |s.replicas| >= 2 && |live| + Quorum(|s.replicas|) <= |s.replicas|
  {
    hide IsRun, LogSafety.Inv;
    var run: seq<State>, i: nat :| Passes(run, i, s, s);
    var last := |run| - 1;
    LogSafety.RunInv(run, last);
    LogSafety.RunKeeps(run, 0, last);
    assert AckedLive(s, live, v, id);
    if |live| + Quorum(|s.replicas|) > |s.replicas| {
      LogSafety.AcknowledgedOwned(s, live, v, id);
    }
    if |s.replicas| == 1 {
      RunAlone(run, last);
      assert AckedLive(s, quorum, v, id);
      LogSafety.AcknowledgedOwned(s, quorum, v, id);
    }
    NotEmpty(s);
  }

  lemma NotEmpty(s: State)
    requires LogSafety.Inv(s)
    ensures |s.replicas| > 0
  {
  }

  /**
   * An answered append that exactly `m` of `n` replicas acknowledged unsealed can be lost to a later version in some
   * run if and only if `m` replicas can miss a majority, and there is more than one replica.
   */
  lemma LostIff(n: nat, m: nat)
    requires n > 0
    ensures MayLose(n, m) <==> n >= 2 && m + Quorum(n) <= n
  {
    if n >= 2 && m + Quorum(n) <= n {
      LosingRun(n, m);
    } else if MayLose(n, m) {
      hide Leads, Lost;
      var s: State, quorum, live, v, id :|
        Leads(s, s) && |s.replicas| == n && |live| == m && Lost(s, quorum, live, v, id);
      LostNeedsMany(s, quorum, live, v, id);
    }
  }
}
