/**
 * How large the threshold must be for committed reads to agree.  A commit carries no ballot and no value, and goes
 * to every acceptor that promised, also to one that has not seen the accept yet (wor/paxos/ProposerImpl.h,
 * wor/paxos/LocalAcceptor.cc).
 */
module PaxosReads {
  import opened Options
  import opened Ballots
  import opened Acceptor
  import opened Proposer
  import opened Paxos
  import opened Quorums
  import PaxosSafety

  /** `s` ends a run with `n` acceptors and threshold `t`. */
  ghost predicate Reachable(n: nat, t: nat, s: State) {
    exists run: seq<State> :: IsRun(run) && run[0].threshold == t && |run[0].acceptors| == n && run[|run| - 1] == s
  }

  ghost predicate ReadsDiffer(s: State) {
    exists r, r' :: r in s.readLog && r' in s.readLog && r.value != r'.value
  }

  lemma Grow(n: nat, t: nat, s: State, step: Step)
    requires Reachable(n, t, s) && Enabled(s, step)
    ensures Reachable(n, t, Apply(s, step))
  {
    hide Enabled, Apply, Init;
    var run: seq<State> :| IsRun(run) && run[0].threshold == t && |run[0].acceptors| == n && run[|run| - 1] == s;
    var longer := run + [Apply(s, step)];
    forall i | 0 <= i < |longer| - 1 ensures Next(longer[i], longer[i + 1]) {
      if i < |run| - 1 {
        assert Next(run[i], run[i + 1]);
      } else {
        assert longer[i] == s && longer[i + 1] == Apply(s, step);
      }
    }
    assert IsRun(longer);
  }

  // ---- One run, for every threshold below the number of acceptors ----

  const LOCK := BallotId(1, 1)
  const NOTHING := Promise(LOCK, None)

  /** `prepared` acceptors promised lock 1 and the first `took` of them accepted "y". */
  ghost function Acceptors(n: nat, prepared: nat, took: nat): seq<PaxosInstance> {
    seq(n, i => PaxosInstance("r", if i < prepared then LOCK else BallotId(-1, -1),
                              if i < took then Some(Promise(LOCK, Some("y"))) else None, false))
  }

  /** One register object is asking for lock 1 and `k` acceptors have promised it. */
  ghost function Preparing(n: nat, t: nat, k: nat): State {
    State(1, t, Acceptors(n, k, 0), [Register(1, {}, None, Phase.Preparing, {})],
          set i | i in Upto(k) :: PromiseMsg(i, 0, 1, NOTHING), {}, {}, {}, {}, {}, {}, {})
  }

  lemma PreparingStarts(n: nat, t: nat)
    ensures Reachable(n, t, Preparing(n, t, 0))
  {
    var s := State(1, t, Acceptors(n, 0, 0), [], {}, {}, {}, {}, {}, {}, {}, {});
    assert IsRun([s]);
    assert [s][|[s]| - 1] == s;
    assert Reachable(n, t, s);
    hide Reachable, IsRun;
    Grow(n, t, s, NewRegister);
    var s1 := Apply(s, NewRegister);
    Grow(n, t, s1, StartLock(0));
    assert Apply(s1, StartLock(0)) == Preparing(n, t, 0);
  }

  lemma PreparingStep(n: nat, t: nat, k: nat)
    requires k < n
    ensures Enabled(Preparing(n, t, k), DeliverPrepare(0, 1, k))
    ensures Apply(Preparing(n, t, k), DeliverPrepare(0, 1, k)) == Preparing(n, t, k + 1)
  {
    hide Upto;
    var s := Preparing(n, t, k);
    var s' := Apply(s, DeliverPrepare(0, 1, k));
    assert s'.acceptors == Acceptors(n, k + 1, 0);
    assert Upto(k + 1) == Upto(k) + {k};
    assert s'.promises == s.promises + {PromiseMsg(k, 0, 1, NOTHING)};
  }

  lemma {:induction false} PreparingReached(n: nat, t: nat, k: nat)
    requires k <= n
    ensures Reachable(n, t, Preparing(n, t, k))
  {
    hide Reachable, Enabled, Apply, Preparing;
    if k == 0 {
      PreparingStarts(n, t);
    } else {
      PreparingReached(n, t, k - 1);
      PreparingStep(n, t, k - 1);
      Grow(n, t, Preparing(n, t, k - 1), DeliverPrepare(0, 1, k - 1));
    }
  }

  /** The write of "y" is on its way to the first `w` acceptors, and the first `k` of them took it. */
  ghost function Writing(n: nat, t: nat, w: nat, k: nat): State {
    var targets := Upto(w);
    State(1, t, Acceptors(n, w, k), [Register(1, targets, None, Phase.Writing(1), {})],
          set i | i in targets :: PromiseMsg(i, 0, 1, NOTHING),
          set i | i in targets :: AcceptMsg(i, 0, 1, "y"),
          set i | i in Upto(k) :: AckMsg(i, 0, 1), {},
          set i | i in Upto(k) :: Vote(i, 1, "y"),
          {Grant(0, 1, targets, None)}, {Write(0, 1, "y", true)}, {})
  }

  /** The register after the first `w` acceptors granted lock 1. */
  ghost function Locked(n: nat, t: nat, w: nat): State {
    var targets := Upto(w);
    Preparing(n, t, w).(regs := [Register(1, targets, None, Idle, {1})], grants := {Grant(0, 1, targets, None)})
  }

  ghost function LockReplies(n: nat, w: nat): Replies {
    seq(n, i => if i < w then Some(Promised(NOTHING)) else None)
  }

  lemma LockedEnabled(n: nat, t: nat, w: nat)
    requires w <= n
    ensures Enabled(Preparing(n, t, w), FinishLock(0, LockReplies(n, w), None))
    ensures Promising(LockReplies(n, w)) == Upto(w)
  {
    hide Upto;
  }

  lemma LockedStep(n: nat, t: nat, w: nat)
    requires t <= w <= n
    ensures Enabled(Preparing(n, t, w), FinishLock(0, LockReplies(n, w), None))
    ensures Apply(Preparing(n, t, w), FinishLock(0, LockReplies(n, w), None)) == Locked(n, t, w)
  {
    hide Upto, Acceptors, LockReplies, Enabled;
    LockedEnabled(n, t, w);
    var s' := Apply(Preparing(n, t, w), FinishLock(0, LockReplies(n, w), None));
    assert s'.regs[0].usable == {1};
    assert s'.regs == Locked(n, t, w).regs;
    assert s'.grants == Locked(n, t, w).grants;
  }

  lemma WritingStep(n: nat, t: nat, w: nat)
    ensures Enabled(Locked(n, t, w), StartWrite(0, 1, "y"))
    ensures Apply(Locked(n, t, w), StartWrite(0, 1, "y")) == Writing(n, t, w, 0)
  {
    hide Upto;
    assert Upto(0) == {};
    var s, s' := Locked(n, t, w), Apply(Locked(n, t, w), StartWrite(0, 1, "y"));
    assert s'.regs[0].usable == {};
    assert s'.regs == Writing(n, t, w, 0).regs;
    assert s'.accepts == Writing(n, t, w, 0).accepts;
    assert s'.acceptors == Writing(n, t, w, 0).acceptors;
  }

  lemma AcceptStep(n: nat, t: nat, w: nat, k: nat)
    requires k < w <= n
    ensures Enabled(Writing(n, t, w, k), DeliverAccept(AcceptMsg(k, 0, 1, "y")))
    ensures Apply(Writing(n, t, w, k), DeliverAccept(AcceptMsg(k, 0, 1, "y"))) == Writing(n, t, w, k + 1)
  {
    hide Upto;
    var s := Writing(n, t, w, k);
    assert k in Upto(w);
    var s' := Apply(s, DeliverAccept(AcceptMsg(k, 0, 1, "y")));
    assert s'.acceptors == Acceptors(n, w, k + 1);
    assert Upto(k + 1) == Upto(k) + {k};
    assert s'.acks == s.acks + {AckMsg(k, 0, 1)} && s'.votes == s.votes + {Vote(k, 1, "y")};
  }

  lemma {:induction false} WritingReached(n: nat, t: nat, w: nat, k: nat)
    requires k <= w <= n && t <= w
    ensures Reachable(n, t, Writing(n, t, w, k))
  {
    hide Reachable, Enabled, Apply, Preparing, Locked, Writing;
    if k == 0 {
      PreparingReached(n, t, w);
      LockedStep(n, t, w);
      Grow(n, t, Preparing(n, t, w), FinishLock(0, LockReplies(n, w), None));
      WritingStep(n, t, w);
      Grow(n, t, Locked(n, t, w), StartWrite(0, 1, "y"));
    } else {
      WritingReached(n, t, w, k - 1);
      AcceptStep(n, t, w, k - 1);
      Grow(n, t, Writing(n, t, w, k - 1), DeliverAccept(AcceptMsg(k - 1, 0, 1, "y")));
    }
  }

  /** A quorum took "y", and the commits are on their way. */
  ghost function Committing(n: nat, t: nat): State {
    var w := Writing(n, t, t + 1, t);
    w.(regs := [w.regs[0].(phase := Idle)], commits := set i | i in Upto(t + 1) :: CommitMsg(i, 0, 1))
  }

  lemma CommittingReached(n: nat, t: nat)
    requires t < n
    ensures Reachable(n, t, Committing(n, t))
  {
    hide Reachable, Upto;
    WritingReached(n, t, t + 1, t);
    var w := Writing(n, t, t + 1, t);
    var finish := FinishWrite(0, Upto(t));
    Grow(n, t, w, finish);
    assert Apply(w, finish) == Committing(n, t);
  }

  /** An acceptor with a commit on its way answers a read. */
  lemma CommitAndRead(n: nat, t: nat, s: State, a: nat, value: string) returns (s': State)
    requires Reachable(n, t, s) && CommitMsg(a, 0, 1) in s.commits && a < |s.acceptors|
    requires !s.acceptors[a].committed
    requires value == if s.acceptors[a].accepted == Some(Promise(LOCK, Some("y"))) then "y" else ""
    requires s.acceptors[a].accepted == Some(Promise(LOCK, Some("y"))) || s.acceptors[a].accepted == None
    ensures Reachable(n, t, s') && s'.readLog == s.readLog + {Read(a, value)}
    ensures s'.commits == s.commits && s'.acceptors == s.acceptors[a := s.acceptors[a].(committed := true)]
  {
    hide Reachable;
    var commit := DeliverCommit(CommitMsg(a, 0, 1));
    Grow(n, t, s, commit);
    var s1 := Apply(s, commit);
    Grow(n, t, s1, ReadAt(a));
    s' := Apply(s1, ReadAt(a));
  }

  /** Acceptor `t` commits before the accept arrives and reads as empty; acceptor 0 reads "y". */
  lemma ReadsMayDiffer(n: nat, t: nat) returns (s: State)
    requires 0 < t < n
    ensures Reachable(n, t, s) && ReadsDiffer(s)
  {
    hide Reachable, Upto;
    CommittingReached(n, t);
    var s0 := Committing(n, t);
    assert 0 in Upto(t + 1) && t in Upto(t + 1);
    var s1 := CommitAndRead(n, t, s0, 0, "y");
    s := CommitAndRead(n, t, s1, t, "");
    assert Read(0, "y").value != Read(t, "").value;
  }

  /** Committed reads can disagree in some run exactly when the threshold leaves an acceptor out. */
  lemma ReadsAgreeIffAll(n: nat, t: nat)
    requires n > 0 && 2 * t > n
    ensures (exists s :: Reachable(n, t, s) && ReadsDiffer(s)) <==> t < n
  {
    if t < n {
      var s := ReadsMayDiffer(n, t);
    } else {
      forall s | Reachable(n, t, s) ensures !ReadsDiffer(s) {
        var run: seq<State> :| IsRun(run) && run[0].threshold == t && |run[0].acceptors| == n && run[|run| - 1] == s;
        forall r, r' | r in s.readLog && r' in s.readLog ensures r.value == r'.value {
          PaxosSafety.WriteOnceReads(run, |run| - 1, r, |run| - 1, r');
        }
      }
    }
  }
}
