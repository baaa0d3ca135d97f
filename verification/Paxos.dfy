/**
 * The write-once register as a distributed protocol: any number of register
 * objects talk to the acceptors of one Paxos instance.  A message, once sent,
 * may be delivered at any later time, any number of times, or never, and a
 * reply may be lost.  Register objects do not have ballots of their own: all
 * of them use BallotId(major, 1), BallotId(major, 2), ...
 */
module Paxos {
  import opened Options
  import opened Ballots
  import opened Acceptor
  import opened Proposer

  datatype PromiseMsg = PromiseMsg(acc: nat, reg: nat, lock: nat, promise: Promise)
  datatype AcceptMsg = AcceptMsg(acc: nat, reg: nat, lock: nat, value: string)
  datatype AckMsg = AckMsg(acc: nat, reg: nat, lock: nat)
  datatype CommitMsg = CommitMsg(acc: nat, reg: nat, lock: nat)

  /** History: an acceptor took `value` at ballot `lock`. */
  datatype Vote = Vote(acc: nat, lock: nat, value: string)
  /** History: `prepare` at ballot `lock` succeeded for register object `reg`. */
  datatype Grant = Grant(reg: nat, lock: nat, quorum: set<nat>, selected: Option<Proposal>)
  /** History: a write proposed `value`; `current` when no later lock had been tried. */
  datatype Write = Write(reg: nat, lock: nat, value: string, current: bool)
  /** History: a read at acceptor `acc` returned `value`. */
  datatype Read = Read(acc: nat, value: string)

  datatype Phase = Idle | Preparing | Writing(lock: nat)

  /** `usable`: locks handed out by `lock` and not yet used for a write. */
  datatype Register = Register(lockId: nat,
                               targets: set<nat>,
                               selected: Option<Proposal>,
                               phase: Phase,
                               usable: set<nat>)

  datatype State = State(major: int,
                         threshold: nat,
                         acceptors: seq<PaxosInstance>,
                         regs: seq<Register>,
                         promises: set<PromiseMsg>,
                         accepts: set<AcceptMsg>,
                         acks: set<AckMsg>,
                         commits: set<CommitMsg>,
                         votes: set<Vote>,
                         grants: set<Grant>,
                         writes: set<Write>,
                         readLog: set<Read>)

  datatype Step =
    | NewRegister
    | StartLock(reg: nat)
    | DeliverPrepare(reg: nat, lock: nat, acc: nat)
    | FinishLock(reg: nat, replies: Replies, selected: Option<Proposal>)
    | StartWrite(reg: nat, lock: nat, payload: string)
    | DeliverAccept(accept: AcceptMsg)
    | FinishWrite(reg: nat, heard: set<nat>)
    | DeliverCommit(commit: CommitMsg)
    | ReadAt(acc: nat)

  ghost predicate Init(s: State) {
    && (forall i | 0 <= i < |s.acceptors| :: s.acceptors[i] == FreshInstance(s.acceptors[i].id))
    && s.regs == [] && s.promises == {} && s.accepts == {} && s.acks == {} && s.commits == {}
    && s.votes == {} && s.grants == {} && s.writes == {} && s.readLog == {}
  }

  ghost predicate Enabled(s: State, step: Step) {
    match step
    case NewRegister => true
    case StartLock(r) => r < |s.regs| && s.regs[r].phase.Idle?
    case DeliverPrepare(r, l, a) =>
      r < |s.regs| && 1 <= l <= s.regs[r].lockId && a < |s.acceptors|
    case FinishLock(r, replies, selected) =>
      && r < |s.regs| && s.regs[r].phase.Preparing? && |replies| == |s.acceptors|
      && (forall i: nat | PromisedAt(replies, i) ::
            PromiseMsg(i, r, s.regs[r].lockId, PromiseAt(replies, i)) in s.promises)
      && Highest(replies, selected)
    case StartWrite(r, l, payload) =>
      r < |s.regs| && s.regs[r].phase.Idle? && l in s.regs[r].usable
    case DeliverAccept(m) => m in s.accepts && m.acc < |s.acceptors|
    case FinishWrite(r, heard) =>
      && r < |s.regs| && s.regs[r].phase.Writing? && heard <= s.regs[r].targets
      && (forall i <- heard :: AckMsg(i, r, s.regs[r].phase.lock) in s.acks)
    case DeliverCommit(m) => m in s.commits && m.acc < |s.acceptors|
    case ReadAt(a) => a < |s.acceptors| && CommittedValue(s.acceptors[a]).Some?
  }

  ghost function Apply(s: State, step: Step): State
    requires Enabled(s, step)
  {
    match step
    case NewRegister =>
      s.(regs := s.regs + [Register(0, {}, None, Idle, {})])
    case StartLock(r) =>
      var reg := s.regs[r];
      s.(regs := s.regs[r := reg.(lockId := reg.lockId + 1, targets := {}, phase := Preparing)])
    case DeliverPrepare(r, l, a) =>
      var (instance, reply) := Prepare(s.acceptors[a], BallotId(s.major, l));
      s.(acceptors := s.acceptors[a := instance],
         promises := if reply.Promised?
                     then s.promises + {PromiseMsg(a, r, l, reply.promise)} else s.promises)
    case FinishLock(r, replies, selected) =>
      var reg := s.regs[r].(targets := Promising(replies), phase := Idle);
      if |Promising(replies)| < s.threshold then
        s.(regs := s.regs[r := reg])
      else
        s.(regs := s.regs[r := reg.(selected := selected, usable := reg.usable + {reg.lockId})],
           grants := s.grants + {Grant(r, reg.lockId, Promising(replies), selected)})
    case StartWrite(r, l, payload) =>
      var reg := s.regs[r];
      var value := ProposedValue(reg.selected, payload);
      s.(regs := s.regs[r := reg.(phase := Writing(l), usable := reg.usable - {l})],
         accepts := s.accepts + set i | i in reg.targets :: AcceptMsg(i, r, l, value),
         writes := s.writes + {Write(r, l, value, l == reg.lockId)})
    case DeliverAccept(m) =>
      var (instance, ok) := Accept(s.acceptors[m.acc], Proposal(BallotId(s.major, m.lock), m.value));
      if !ok then s else
        s.(acceptors := s.acceptors[m.acc := instance],
           acks := s.acks + {AckMsg(m.acc, m.reg, m.lock)},
           votes := s.votes + {Vote(m.acc, m.lock, m.value)})
    case FinishWrite(r, heard) =>
      var reg := s.regs[r];
      s.(regs := s.regs[r := reg.(phase := Idle)],
         commits := if |heard| < s.threshold then s.commits
                    else s.commits + set i | i in reg.targets :: CommitMsg(i, r, reg.phase.lock))
    case DeliverCommit(m) =>
      s.(acceptors := s.acceptors[m.acc := Commit(s.acceptors[m.acc]).0])
    case ReadAt(a) =>
      s.(readLog := s.readLog + {Read(a, CommittedValue(s.acceptors[a]).value)})
  }

  ghost predicate Next(s: State, s': State) {
    exists step :: Enabled(s, step) && s' == Apply(s, step)
  }

  /** A run: an initial state followed by any number of steps. */
  ghost predicate IsRun(run: seq<State>) {
    && |run| > 0 && Init(run[0])
    && forall i | 0 <= i < |run| - 1 :: Next(run[i], run[i + 1])
  }

  /** `value` was taken by a threshold of acceptors at ballot `lock`. */
  ghost predicate ChosenBy(s: State, quorum: set<nat>, lock: nat, value: string) {
    && |quorum| >= s.threshold
    && forall i <- quorum :: i < |s.acceptors| && Vote(i, lock, value) in s.votes
  }

  ghost predicate Chosen(s: State, lock: nat, value: string) {
    exists quorum :: ChosenBy(s, quorum, lock, value)
  }
}
