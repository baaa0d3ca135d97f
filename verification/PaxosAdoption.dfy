/**
 * A later register object finds a value that was accepted earlier and writes it on instead of its own: for every number
 * of acceptors and every threshold there is such a run (wor/paxos/LocalAcceptor.cc, wor/paxos/ProposerImpl.h).
 */
module PaxosAdoption {
  import opened Options
  import opened Ballots
  import opened Acceptor
  import opened Proposer
  import opened Paxos
  import opened Quorums
  import opened PaxosReads

  const LOCK2 := BallotId(1, 2)
  const FOUND := Promise(LOCK, Some("y"))

  /** What acceptor `i` answers to lock 2: only acceptor 0 had accepted anything. */
  function Answer(i: int): Promise {
    if i == 0 then FOUND else Promise(LOCK2, None)
  }

  /** The first register's write reached acceptor 0 only, and `k` acceptors promised lock 2 to the second register. */
  ghost function Asking(n: nat, t: nat, k: nat): State {
    var w := PaxosReads.Writing(n, t, n, 1);
    w.(acceptors := seq(n, i => PaxosInstance("r", if i < k then LOCK2 else LOCK,
                                              if i == 0 then Some(FOUND) else None, false)),
       regs := w.regs + [Register(2, {}, None, Phase.Preparing, {})],
       promises := w.promises + set i | i in Upto(k) :: PromiseMsg(i, 1, 2, Answer(i)))
  }

  lemma AskingStarts(n: nat, t: nat)
    requires 0 < t <= n
    ensures Reachable(n, t, Asking(n, t, 0))
  {
    hide Reachable, Upto;
    WritingReached(n, t, n, 1);
    var s := PaxosReads.Writing(n, t, n, 1);
    Grow(n, t, s, NewRegister);
    var s1 := Apply(s, NewRegister);
    Grow(n, t, s1, StartLock(1));
    var s2 := Apply(s1, StartLock(1));
    var nobody: Replies := seq(n, _ => None);
    assert Promising(nobody) == {};
    Grow(n, t, s2, FinishLock(1, nobody, None));
    var s3 := Apply(s2, FinishLock(1, nobody, None));
    Grow(n, t, s3, StartLock(1));
    var s4 := Apply(s3, StartLock(1));
    assert s4.regs == Asking(n, t, 0).regs;
    assert s4.acceptors == Asking(n, t, 0).acceptors;
    assert s4.promises == Asking(n, t, 0).promises;
  }

  lemma AskingStep(n: nat, t: nat, k: nat)
    requires k < n
    ensures Enabled(Asking(n, t, k), DeliverPrepare(1, 2, k))
    ensures Apply(Asking(n, t, k), DeliverPrepare(1, 2, k)) == Asking(n, t, k + 1)
  {
    hide Upto, PaxosReads.Writing;
    var s := Asking(n, t, k);
    assert s.major == 1 && |s.regs| == 2 && s.regs[1].lockId == 2 by {
      WritingShape(n, t);
    }
    var s' := Apply(s, DeliverPrepare(1, 2, k));
    assert s'.acceptors == Asking(n, t, k + 1).acceptors;
    assert Upto(k + 1) == Upto(k) + {k};
    assert s'.promises == Asking(n, t, k + 1).promises;
  }

  lemma WritingShape(n: nat, t: nat)
    ensures PaxosReads.Writing(n, t, n, 1).major == 1 && |PaxosReads.Writing(n, t, n, 1).regs| == 1
  {
  }

  lemma {:induction false} AskingReached(n: nat, t: nat, k: nat)
    requires 0 < t <= n && k <= n
    ensures Reachable(n, t, Asking(n, t, k))
  {
    hide Reachable, Enabled, Apply, Asking;
    if k == 0 {
      AskingStarts(n, t);
    } else {
      AskingReached(n, t, k - 1);
      AskingStep(n, t, k - 1);
      Grow(n, t, Asking(n, t, k - 1), DeliverPrepare(1, 2, k - 1));
    }
  }

  lemma Granted(n: nat, t: nat) returns (s: State)
    requires 0 < t <= n
    ensures Reachable(n, t, s) && Vote(0, 1, "y") in s.votes
    ensures |s.regs| == 2 && s.regs[1] == Register(2, Upto(n), Some(Proposal(LOCK, "y")), Idle, {2})
    ensures Grant(1, 2, Upto(n), Some(Proposal(LOCK, "y"))) in s.grants
    ensures |s.acceptors| == n && s.major == 1 && forall i | 0 <= i < n :: s.acceptors[i].promised == LOCK2
  {
    hide Reachable, Upto;
    AskingReached(n, t, n);
    var s0 := Asking(n, t, n);
    var replies: Replies := seq(n, i => Some(Promised(Answer(i))));
    assert Promising(replies) == Upto(n);
    var selected := Some(Proposal(LOCK, "y"));
    assert PromisedAt(replies, 0) && PromiseAt(replies, 0) == FOUND;
    assert Reported(replies, selected.value);
    assert Highest(replies, selected);
    Grow(n, t, s0, FinishLock(1, replies, selected));
    s := Apply(s0, FinishLock(1, replies, selected));
    assert s.regs[1].usable == {2};
    assert 0 in Upto(1);
  }

  /**
   * For every number of acceptors and every threshold: a value accepted at ballot 1 is selected by a later grant, and
   * the second caller's write of "z" makes an acceptor take "y" at ballot 2.
   */
  lemma AdoptionHappens(n: nat, t: nat) returns (s: State)
    requires 0 < t <= n
    ensures Reachable(n, t, s)
    ensures Vote(0, 1, "y") in s.votes && Vote(0, 2, "y") in s.votes
    ensures exists g :: g in s.grants && g.lock == 2 && g.selected == Some(Proposal(LOCK, "y"))
  {
    hide Reachable, Upto;
    var s0 := Granted(n, t);
    assert 0 in Upto(n);
    var write := StartWrite(1, 2, "z");
    Grow(n, t, s0, write);
    var s1 := Apply(s0, write);
    var m := AcceptMsg(0, 1, 2, "y");
    assert m in s1.accepts;
    Grow(n, t, s1, DeliverAccept(m));
    s := Apply(s1, DeliverAccept(m));
    assert Grant(1, 2, Upto(n), Some(Proposal(LOCK, "y"))) in s.grants;
  }
}
