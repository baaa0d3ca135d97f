/**
 * Nothing comes from nowhere: what acceptors take, what is chosen and what committed reads return was written by a
 * caller whose register had nothing to adopt (wor/paxos/ProposerImpl.h).
 */
module PaxosValidity {
  import opened Options
  import opened Acceptor
  import opened Proposer
  import opened Paxos
  import PaxosSafety

  /** In step `i` a caller wrote `payload` through a register that had selected nothing. */
  ghost predicate Wrote(run: seq<State>, i: nat, r: nat, l: nat, payload: string) {
    && i < |run| - 1 && Enabled(run[i], StartWrite(r, l, payload)) && run[i].regs[r].selected == None
    && run[i + 1] == Apply(run[i], StartWrite(r, l, payload))
  }

  ghost predicate Submitted(run: seq<State>, j: nat, value: string) {
    exists i: nat, r: nat, l: nat :: i < j && Wrote(run, i, r, l, value)
  }

  /** Every value that is on its way, promised, accepted or selected is one of these. */
  ghost predicate ValuesIn(s: State, values: iset<string>) {
    && (forall m <- s.accepts :: m.value in values)
    && (forall v <- s.votes :: v.value in values)
    && (forall m <- s.promises | m.promise.value.Some? :: m.promise.value.value in values)
    && (forall a <- s.acceptors | a.accepted.Some? && a.accepted.value.value.Some? ::
          a.accepted.value.value.value in values)
    && (forall r | 0 <= r < |s.regs| && s.regs[r].selected.Some? :: s.regs[r].selected.value.value in values)
  }

  /** What a write sends: the adopted value if the register selected one, and exactly the caller's payload if not. */
  lemma WriteSends(s: State, r: nat, l: nat, payload: string)
    requires Enabled(s, StartWrite(r, l, payload))
    ensures var s', reg := Apply(s, StartWrite(r, l, payload)), s.regs[r];
            var value := if reg.selected.Some? then reg.selected.value.value else payload;
            forall m :: m in s'.accepts <==>
                        m in s.accepts || (m.reg == r && m.lock == l && m.acc in reg.targets && m.value == value)
  {
  }

  /**
   * What a prepare leaves behind: the acceptors that promised become the targets either way; the lock and the selected
   * proposal are the caller's only when a threshold promised.
   */
  lemma LockOutcome(s: State, r: nat, replies: Replies, selected: Option<Proposal>)
    requires Enabled(s, FinishLock(r, replies, selected))
    ensures var before, after := s.regs[r], Apply(s, FinishLock(r, replies, selected)).regs[r];
            var granted := |Promising(replies)| >= s.threshold;
            && after.phase.Idle? && after.targets == Promising(replies) && after.lockId == before.lockId
            && after.usable == before.usable + (if granted then {before.lockId} else {})
            && after.selected == (if granted then selected else before.selected)
  {
  }

  lemma FinishLockValues(s: State, r: nat, replies: Replies, selected: Option<Proposal>, values: iset<string>)
    requires ValuesIn(s, values) && Enabled(s, FinishLock(r, replies, selected))
    ensures ValuesIn(Apply(s, FinishLock(r, replies, selected)), values)
  {
    if selected.Some? {
      var i: nat :| PromisedAt(replies, i)
                    && PromiseAt(replies, i) == Promise(selected.value.ballot, Some(selected.value.value));
      assert PromiseMsg(i, r, s.regs[r].lockId, PromiseAt(replies, i)) in s.promises;
    }
  }

  lemma StepValues(s: State, step: Step, values: iset<string>)
    requires ValuesIn(s, values) && Enabled(s, step)
    requires step.StartWrite? && s.regs[step.reg].selected.None? ==> step.payload in values
    ensures ValuesIn(Apply(s, step), values)
  {
    match step
    case FinishLock(r, replies, selected) => FinishLockValues(s, r, replies, selected, values);
    case StartWrite(r, l, payload) => WriteSends(s, r, l, payload);
    case _ =>
  }

  lemma MoreValues(s: State, values: iset<string>, more: iset<string>)
    requires ValuesIn(s, values) && values <= more
    ensures ValuesIn(s, more)
  {
  }

  ghost function SubmittedValues(run: seq<State>, j: nat): iset<string> {
    iset value | Submitted(run, j, value)
  }

  lemma SubmittedLonger(run: seq<State>, j: nat)
    ensures SubmittedValues(run, j) <= SubmittedValues(run, j + 1)
  {
    hide Wrote;
    forall value | Submitted(run, j, value) ensures Submitted(run, j + 1, value) {
      var i: nat, r: nat, l: nat :| i < j && Wrote(run, i, r, l, value);
      assert i < j + 1 && Wrote(run, i, r, l, value);
    }
  }

  lemma StepSubmits(run: seq<State>, j: nat, step: Step)
    requires j < |run| - 1 && Enabled(run[j], step) && run[j + 1] == Apply(run[j], step)
    ensures step.StartWrite? ==> step.reg < |run[j].regs|
    ensures step.StartWrite? && run[j].regs[step.reg].selected.None? ==> step.payload in SubmittedValues(run, j + 1)
  {
    if step.StartWrite? && run[j].regs[step.reg].selected.None? {
      assert Wrote(run, j, step.reg, step.lock, step.payload);
    }
  }

  lemma {:induction false} RunValues(run: seq<State>, j: nat)
    requires IsRun(run) && j < |run|
    ensures ValuesIn(run[j], SubmittedValues(run, j))
  {
    if j == 0 {
      PaxosSafety.RunStarts(run);
    } else {
      hide IsRun, Enabled, Apply, ValuesIn, SubmittedValues;
      RunValues(run, j - 1);
      SubmittedLonger(run, j - 1);
      MoreValues(run[j - 1], SubmittedValues(run, j - 1), SubmittedValues(run, j));
      var step := PaxosSafety.StepOf(run, j - 1);
      StepSubmits(run, j - 1, step);
      StepValues(run[j - 1], step, SubmittedValues(run, j));
    }
  }

  /** Validity: what an acceptor took was a caller's payload, written earlier in the run. */
  lemma VotesAreWritten(run: seq<State>, j: nat, v: Vote)
    requires IsRun(run) && j < |run| && v in run[j].votes
    ensures Submitted(run, j, v.value)
  {
    RunValues(run, j);
  }

  lemma ChosenIsWritten(run: seq<State>, j: nat, lock: nat, value: string)
    requires IsRun(run) && PaxosSafety.Majority(run[0]) && j < |run| && Chosen(run[j], lock, value)
    ensures Submitted(run, j, value)
  {
    PaxosSafety.RunInv(run, j);
    var q :| ChosenBy(run[j], q, lock, value);
    var a :| a in q;
    VotesAreWritten(run, j, Vote(a, lock, value));
  }

  /** With the threshold at all acceptors, every committed read returns some caller's payload. */
  lemma ReadsAreWritten(run: seq<State>, j: nat, r: Read)
    requires IsRun(run) && run[0].threshold >= |run[0].acceptors| > 0 && j < |run| && r in run[j].readLog
    ensures Submitted(run, j, r.value)
  {
    hide IsRun, Chosen;
    PaxosSafety.RunReadsOk(run, j);
    assert PaxosSafety.ChosenEver(run[j], r.value);
    var lock :| Chosen(run[j], lock, r.value);
    ChosenIsWritten(run, j, lock, r.value);
  }
}
