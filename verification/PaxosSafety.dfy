/** Invariants of the register protocol and what follows from them. */
module PaxosSafety {
  import opened Options
  import opened Ballots
  import opened Acceptor
  import opened Proposer
  import opened Paxos
  import opened Quorums

  // ---- Acceptors: promises and votes ----

  /** Promised ballots never fall below a promise or a vote already given. */
  ghost predicate PromisedBound(major: int, acceptors: seq<PaxosInstance>, promises: set<PromiseMsg>,
                                votes: set<Vote>) {
    && (forall m <- promises :: m.acc < |acceptors| && Le(BallotId(major, m.lock), acceptors[m.acc].promised))
    && (forall v <- votes :: v.acc < |acceptors| && Le(BallotId(major, v.lock), acceptors[v.acc].promised))
  }

  /** `p` is a vote of acceptor `a`, and no vote of `a` below ballot `below` is later. */
  ghost predicate LatestVote(major: int, votes: set<Vote>, a: nat, below: int, p: Promise) {
    && p.value.Some? && p.ballot.major == major && 0 <= p.ballot.minor < below
    && Vote(a, p.ballot.minor, p.value.value) in votes
    && forall v <- votes | v.acc == a && v.lock < below :: v.lock <= p.ballot.minor
  }

  /** What an acceptor stores is the latest of all its votes. */
  ghost predicate AcceptedIsLatest(major: int, acceptors: seq<PaxosInstance>, votes: set<Vote>) {
    forall i: nat | i < |acceptors| ::
      match acceptors[i].accepted
      case None => forall v <- votes :: v.acc != i
      case Some(p) =>
        && LatestVote(major, votes, i, p.ballot.minor + 1, p)
        && forall v <- votes | v.acc == i :: v.lock <= p.ballot.minor
  }

  /** A promise reported the latest vote below its ballot, and still does. */
  ghost predicate PromiseContents(major: int, promises: set<PromiseMsg>, votes: set<Vote>) {
    forall m <- promises ::
      if m.promise.value.None? then forall v <- votes | v.acc == m.acc :: v.lock >= m.lock
      else LatestVote(major, votes, m.acc, m.lock, m.promise)
  }

  /** No acceptor promises one ballot twice. */
  ghost predicate OnePromise(promises: set<PromiseMsg>) {
    forall m, m' | m in promises && m' in promises && m.acc == m'.acc && m.lock == m'.lock :: m == m'
  }

  ghost predicate AcceptorsOk(major: int, acceptors: seq<PaxosInstance>, promises: set<PromiseMsg>, votes: set<Vote>) {
    && PromisedBound(major, acceptors, promises, votes)
    && AcceptedIsLatest(major, acceptors, votes)
    && PromiseContents(major, promises, votes)
    && OnePromise(promises)
  }

  lemma PrepareKeepsAcceptors(s: State, r: nat, l: nat, a: nat)
    requires AcceptorsOk(s.major, s.acceptors, s.promises, s.votes) && Enabled(s, DeliverPrepare(r, l, a))
    ensures var s' := Apply(s, DeliverPrepare(r, l, a)); AcceptorsOk(s'.major, s'.acceptors, s'.promises, s'.votes)
  {
  }

  /** A new vote is at or above everything its acceptor promised or voted before. */
  lemma AcceptKeepsBound(s: State, m: AcceptMsg)
    requires PromisedBound(s.major, s.acceptors, s.promises, s.votes) && Enabled(s, DeliverAccept(m))
    ensures var s' := Apply(s, DeliverAccept(m));
            && PromisedBound(s'.major, s'.acceptors, s'.promises, s'.votes)
            && (s' != s ==> (forall v <- s.votes | v.acc == m.acc :: v.lock <= m.lock)
                            && (forall p <- s.promises | p.acc == m.acc :: p.lock <= m.lock))
  {
  }

  lemma AcceptKeepsLatest(s: State, m: AcceptMsg)
    requires AcceptedIsLatest(s.major, s.acceptors, s.votes) && Enabled(s, DeliverAccept(m))
    requires forall v <- s.votes | v.acc == m.acc :: v.lock <= m.lock
    ensures var s' := Apply(s, DeliverAccept(m)); AcceptedIsLatest(s'.major, s'.acceptors, s'.votes)
  {
    var s' := Apply(s, DeliverAccept(m));
    forall i: nat | i < |s'.acceptors| && i != m.acc
      ensures s'.acceptors[i] == s.acceptors[i]
    {
    }
    if s' != s {
      assert Vote(m.acc, m.lock, m.value) in s'.votes;
    }
  }

  lemma AcceptKeepsContents(s: State, m: AcceptMsg)
    requires PromiseContents(s.major, s.promises, s.votes) && Enabled(s, DeliverAccept(m))
    requires forall p <- s.promises | p.acc == m.acc :: p.lock <= m.lock
    ensures var s' := Apply(s, DeliverAccept(m)); PromiseContents(s'.major, s'.promises, s'.votes)
  {
  }

  lemma AcceptKeepsAcceptors(s: State, m: AcceptMsg)
    requires AcceptorsOk(s.major, s.acceptors, s.promises, s.votes) && Enabled(s, DeliverAccept(m))
    ensures var s' := Apply(s, DeliverAccept(m)); AcceptorsOk(s'.major, s'.acceptors, s'.promises, s'.votes)
  {
    hide PromisedBound, AcceptedIsLatest, PromiseContents, OnePromise;
    AcceptKeepsBound(s, m);
    if Apply(s, DeliverAccept(m)) != s {
      AcceptKeepsLatest(s, m);
      AcceptKeepsContents(s, m);
    }
  }

  // ---- Register objects: grants and writes ----

  ghost predicate PromisedTo(promises: set<PromiseMsg>, a: nat, r: nat, l: nat) {
    exists p :: PromiseMsg(a, r, l, p) in promises
  }

  /** Acceptor `a` promised to the holder of grant `g`, which saw what `a` reported. */
  ghost predicate Heard(promises: set<PromiseMsg>, g: Grant, a: nat) {
    exists p :: PromiseMsg(a, g.reg, g.lock, p) in promises
                && (p.value.Some? ==> g.selected.Some? && Le(p.ballot, g.selected.value.ballot))
  }

  /** What a successful `prepare` knew. */
  ghost predicate GrantOk(n: nat, threshold: nat, promises: set<PromiseMsg>, g: Grant) {
    && |g.quorum| >= threshold
    && (forall i <- g.quorum :: i < n && Heard(promises, g, i))
    && (g.selected.Some? ==>
          exists a :: PromiseMsg(a, g.reg, g.lock,
                      Promise(g.selected.value.ballot, Some(g.selected.value.value))) in promises)
  }

  ghost predicate GrantsOk(n: nat, threshold: nat, promises: set<PromiseMsg>, grants: set<Grant>) {
    forall g <- grants :: GrantOk(n, threshold, promises, g)
  }

  ghost predicate Granted(grants: set<Grant>, r: nat, l: nat) {
    exists g :: g in grants && g.reg == r && g.lock == l
  }

  ghost predicate Unwritten(writes: set<Write>, r: nat, l: nat) {
    forall w <- writes :: !(w.reg == r && w.lock == l)
  }

  ghost predicate RegisterOk(n: nat, promises: set<PromiseMsg>, grants: set<Grant>, writes: set<Write>, r: nat,
                             reg: Register) {
    && (forall i <- reg.targets :: i < n && PromisedTo(promises, i, r, reg.lockId))
    && (forall l <- reg.usable :: l <= reg.lockId && Granted(grants, r, l) && Unwritten(writes, r, l))
    && (reg.lockId in reg.usable ==> Grant(r, reg.lockId, reg.targets, reg.selected) in grants)
    && (reg.phase.Preparing? ==> Unwritten(writes, r, reg.lockId) && reg.targets == {} && reg.lockId !in reg.usable)
  }

  ghost predicate RegistersOk(n: nat, regs: seq<Register>, promises: set<PromiseMsg>, grants: set<Grant>,
                              writes: set<Write>) {
    forall r: nat | r < |regs| :: RegisterOk(n, promises, grants, writes, r, regs[r])
  }

  ghost predicate Backed(grants: set<Grant>, w: Write) {
    exists g :: g in grants && g.reg == w.reg && g.lock == w.lock
                && (g.selected.Some? ==> w.value == g.selected.value.value)
  }

  /** Every lock was used once, and a current write follows the value its lock selected. */
  ghost predicate WritesOk(regs: seq<Register>, grants: set<Grant>, writes: set<Write>) {
    && (forall w <- writes :: w.reg < |regs| && w.lock <= regs[w.reg].lockId)
    && (forall w, w' | w in writes && w' in writes && w.reg == w'.reg && w.lock == w'.lock :: w == w')
    && (forall w <- writes | w.current :: Backed(grants, w))
  }

  ghost predicate ObjectsOk(s: State) {
    && GrantsOk(|s.acceptors|, s.threshold, s.promises, s.grants)
    && RegistersOk(|s.acceptors|, s.regs, s.promises, s.grants, s.writes)
    && WritesOk(s.regs, s.grants, s.writes)
  }

  /** More promises and grants never hurt a register. */
  lemma RegisterKept(n: nat, promises: set<PromiseMsg>, promises': set<PromiseMsg>, grants: set<Grant>,
                     grants': set<Grant>,
                     writes: set<Write>, r: nat, reg: Register)
    requires RegisterOk(n, promises, grants, writes, r, reg) && promises <= promises' && grants <= grants'
    ensures RegisterOk(n, promises', grants', writes, r, reg)
  {
    forall i <- reg.targets ensures PromisedTo(promises', i, r, reg.lockId) {
      var p :| PromiseMsg(i, r, reg.lockId, p) in promises;
      assert PromiseMsg(i, r, reg.lockId, p) in promises';
    }
    forall l <- reg.usable ensures Granted(grants', r, l) {
      var g :| g in grants && g.reg == r && g.lock == l;
      assert g in grants';
    }
  }

  lemma GrantKept(n: nat, threshold: nat, promises: set<PromiseMsg>, promises': set<PromiseMsg>, g: Grant)
    requires GrantOk(n, threshold, promises, g) && promises <= promises'
    ensures GrantOk(n, threshold, promises', g)
  {
    forall i <- g.quorum ensures Heard(promises', g, i) {
      var p :| PromiseMsg(i, g.reg, g.lock, p) in promises
               && (p.value.Some? ==> g.selected.Some? && Le(p.ballot, g.selected.value.ballot));
      assert PromiseMsg(i, g.reg, g.lock, p) in promises';
    }
  }

  lemma PrepareKeepsObjects(s: State, r: nat, l: nat, a: nat)
    requires ObjectsOk(s) && Enabled(s, DeliverPrepare(r, l, a))
    ensures ObjectsOk(Apply(s, DeliverPrepare(r, l, a)))
  {
    var s' := Apply(s, DeliverPrepare(r, l, a));
    forall g <- s.grants ensures GrantOk(|s'.acceptors|, s'.threshold, s'.promises, g) {
      GrantKept(|s.acceptors|, s.threshold, s.promises, s'.promises, g);
    }
    forall r: nat | r < |s.regs| ensures RegisterOk(|s'.acceptors|, s'.promises, s'.grants, s'.writes, r, s'.regs[r]) {
      RegisterKept(|s.acceptors|, s.promises, s'.promises, s.grants, s'.grants, s.writes, r, s.regs[r]);
    }
  }

  lemma StartLockKeepsObjects(s: State, r: nat)
    requires ObjectsOk(s) && Enabled(s, StartLock(r))
    ensures ObjectsOk(Apply(s, StartLock(r)))
  {
    var s' := Apply(s, StartLock(r));
    assert forall q: nat | q < |s.regs| && q != r :: s'.regs[q] == s.regs[q];
    assert RegisterOk(|s.acceptors|, s.promises, s.grants, s.writes, r, s.regs[r]);
    assert RegisterOk(|s'.acceptors|, s'.promises, s'.grants, s'.writes, r, s'.regs[r]);
  }

  /** The replies a prepare collected are what its grant records. */
  lemma GrantFromReplies(s: State, r: nat, replies: Replies, selected: Option<Proposal>)
    requires Enabled(s, FinishLock(r, replies, selected)) && |Promising(replies)| >= s.threshold
    ensures GrantOk(|s.acceptors|, s.threshold, s.promises, Grant(r, s.regs[r].lockId, Promising(replies), selected))
  {
    var g := Grant(r, s.regs[r].lockId, Promising(replies), selected);
    forall i <- g.quorum ensures Heard(s.promises, g, i) {
      assert PromiseMsg(i, r, g.lock, PromiseAt(replies, i)) in s.promises;
    }
    if selected.Some? {
      var i: nat :| PromisedAt(replies, i)
                  && PromiseAt(replies, i) == Promise(selected.value.ballot, Some(selected.value.value));
      assert PromiseMsg(i, r, g.lock, PromiseAt(replies, i)) in s.promises;
    }
  }

  lemma FinishLockKeepsObjects(s: State, r: nat, replies: Replies, selected: Option<Proposal>)
    requires ObjectsOk(s) && Enabled(s, FinishLock(r, replies, selected))
    ensures ObjectsOk(Apply(s, FinishLock(r, replies, selected)))
  {
    var s' := Apply(s, FinishLock(r, replies, selected));
    assert RegisterOk(|s.acceptors|, s.promises, s.grants, s.writes, r, s.regs[r]);
    forall i <- Promising(replies) ensures PromisedTo(s.promises, i, r, s.regs[r].lockId) {
      assert PromiseMsg(i, r, s.regs[r].lockId, PromiseAt(replies, i)) in s.promises;
    }
    if |Promising(replies)| >= s.threshold {
      GrantFromReplies(s, r, replies, selected);
    }
    forall q: nat | q < |s.regs| ensures RegisterOk(|s'.acceptors|, s'.promises, s'.grants, s'.writes, q, s'.regs[q]) {
      RegisterKept(|s.acceptors|, s.promises, s'.promises, s.grants, s'.grants, s.writes, q, s.regs[q]);
    }
    forall w <- s'.writes | w.current ensures Backed(s'.grants, w) {
      var g :| g in s.grants && g.reg == w.reg && g.lock == w.lock
               && (g.selected.Some? ==> w.value == g.selected.value.value);
      assert g in s'.grants;
    }
  }

  lemma StartWriteKeepsObjects(s: State, r: nat, l: nat, payload: string)
    requires ObjectsOk(s) && Enabled(s, StartWrite(r, l, payload))
    ensures ObjectsOk(Apply(s, StartWrite(r, l, payload)))
  {
    var s' := Apply(s, StartWrite(r, l, payload));
    assert RegisterOk(|s.acceptors|, s.promises, s.grants, s.writes, r, s.regs[r]);
    var w := Write(r, l, ProposedValue(s.regs[r].selected, payload), l == s.regs[r].lockId);
    assert s'.writes == s.writes + {w};
    if w.current {
      assert Grant(r, l, s.regs[r].targets, s.regs[r].selected) in s.grants;
      assert Backed(s'.grants, w);
    }
  }

  lemma FinishWriteKeepsObjects(s: State, r: nat, heard: set<nat>)
    requires ObjectsOk(s) && Enabled(s, FinishWrite(r, heard))
    ensures ObjectsOk(Apply(s, FinishWrite(r, heard)))
  {
    var s' := Apply(s, FinishWrite(r, heard));
    assert RegisterOk(|s.acceptors|, s.promises, s.grants, s.writes, r, s.regs[r]);
    assert RegisterOk(|s'.acceptors|, s'.promises, s'.grants, s'.writes, r, s'.regs[r]);
    assert forall q: nat | q < |s.regs| && q != r :: s'.regs[q] == s.regs[q];
  }

  // ---- Accept messages, votes and commits ----

  /** Messages of a stale write meet only acceptors that promised more. */
  ghost predicate AcceptsOk(major: int, acceptors: seq<PaxosInstance>, accepts: set<AcceptMsg>, writes: set<Write>) {
    forall m <- accepts ::
      && m.acc < |acceptors|
      && (|| Write(m.reg, m.lock, m.value, true) in writes
          || (&& Write(m.reg, m.lock, m.value, false) in writes
              && Lt(BallotId(major, m.lock), acceptors[m.acc].promised)))
  }

  ghost predicate VoteBacked(writes: set<Write>, v: Vote) {
    exists r :: Write(r, v.lock, v.value, true) in writes
  }

  ghost predicate AckBacked(writes: set<Write>, votes: set<Vote>, k: AckMsg) {
    exists v :: Write(k.reg, k.lock, v, true) in writes && Vote(k.acc, k.lock, v) in votes
  }

  ghost predicate VotesOk(writes: set<Write>, votes: set<Vote>, acks: set<AckMsg>) {
    && (forall v <- votes :: VoteBacked(writes, v))
    && (forall k <- acks :: AckBacked(writes, votes, k))
  }

  ghost predicate SomeChosen(s: State, lock: nat) {
    exists v :: Chosen(s, lock, v)
  }

  ghost predicate CommitsOk(s: State) {
    && (forall m <- s.commits :: SomeChosen(s, m.lock))
    && (forall i | 0 <= i < |s.acceptors| && s.acceptors[i].committed :: exists l :: SomeChosen(s, l))
  }

  ghost predicate Inv(s: State) {
    && AcceptorsOk(s.major, s.acceptors, s.promises, s.votes)
    && ObjectsOk(s)
    && AcceptsOk(s.major, s.acceptors, s.accepts, s.writes)
    && VotesOk(s.writes, s.votes, s.acks)
    && CommitsOk(s)
  }

  /** Votes only accumulate, so a chosen value stays chosen. */
  lemma ChosenKept(s: State, s': State)
    requires s.votes <= s'.votes && s.threshold == s'.threshold && |s.acceptors| == |s'.acceptors|
    ensures forall l, v | Chosen(s, l, v) :: Chosen(s', l, v)
    ensures forall l | SomeChosen(s, l) :: SomeChosen(s', l)
  {
    forall l, v | Chosen(s, l, v)
      ensures Chosen(s', l, v)
    {
      var q :| ChosenBy(s, q, l, v);
      assert ChosenBy(s', q, l, v);
    }
  }

  lemma StartWriteKeepsAccepts(s: State, r: nat, l: nat, payload: string)
    requires Inv(s) && Enabled(s, StartWrite(r, l, payload))
    ensures var s' := Apply(s, StartWrite(r, l, payload));
            && AcceptsOk(s'.major, s'.acceptors, s'.accepts, s'.writes)
            && VotesOk(s'.writes, s'.votes, s'.acks)
  {
    var s' := Apply(s, StartWrite(r, l, payload));
    var reg := s.regs[r];
    assert RegisterOk(|s.acceptors|, s.promises, s.grants, s.writes, r, reg);
    if l < reg.lockId {
      forall i <- reg.targets ensures Lt(BallotId(s.major, l), s.acceptors[i].promised) {
        var p :| PromiseMsg(i, r, reg.lockId, p) in s.promises;
      }
    }
    forall v <- s.votes ensures VoteBacked(s'.writes, v) {
      var q :| Write(q, v.lock, v.value, true) in s.writes;
      assert Write(q, v.lock, v.value, true) in s'.writes;
    }
    forall k <- s.acks ensures AckBacked(s'.writes, s'.votes, k) {
      var v :| Write(k.reg, k.lock, v, true) in s.writes && Vote(k.acc, k.lock, v) in s.votes;
      assert Write(k.reg, k.lock, v, true) in s'.writes;
    }
  }

  lemma AcceptKeepsVotes(s: State, m: AcceptMsg)
    requires Inv(s) && Enabled(s, DeliverAccept(m))
    ensures var s' := Apply(s, DeliverAccept(m));
            && AcceptsOk(s'.major, s'.acceptors, s'.accepts, s'.writes)
            && VotesOk(s'.writes, s'.votes, s'.acks)
  {
    var s' := Apply(s, DeliverAccept(m));
    if s' != s {
      assert Write(m.reg, m.lock, m.value, true) in s.writes;
      forall k <- s'.acks ensures AckBacked(s'.writes, s'.votes, k) {
        if k in s.acks {
          var v :| Write(k.reg, k.lock, v, true) in s.writes && Vote(k.acc, k.lock, v) in s.votes;
          assert Vote(k.acc, k.lock, v) in s'.votes;
        } else {
          assert Vote(m.acc, m.lock, m.value) in s'.votes;
        }
      }
    }
  }

  /** A write that heard from a threshold of acceptors has chosen its value. */
  lemma FinishWriteChooses(s: State, r: nat, heard: set<nat>)
    requires Inv(s) && Enabled(s, FinishWrite(r, heard)) && |heard| >= s.threshold > 0
    ensures SomeChosen(s, s.regs[r].phase.lock)
  {
    var l := s.regs[r].phase.lock;
    var a :| a in heard;
    assert AckMsg(a, r, l) in s.acks;
    var v :| Write(r, l, v, true) in s.writes && Vote(a, l, v) in s.votes;
    forall i <- heard ensures i < |s.acceptors| && Vote(i, l, v) in s.votes {
      assert AckMsg(i, r, l) in s.acks;
      var u :| Write(r, l, u, true) in s.writes && Vote(i, l, u) in s.votes;
    }
    assert ChosenBy(s, heard, l, v);
    assert Chosen(s, l, v);
  }

  lemma PrepareKeepsAccepts(s: State, r: nat, l: nat, a: nat)
    requires AcceptsOk(s.major, s.acceptors, s.accepts, s.writes) && Enabled(s, DeliverPrepare(r, l, a))
    ensures var s' := Apply(s, DeliverPrepare(r, l, a)); AcceptsOk(s'.major, s'.acceptors, s'.accepts, s'.writes)
  {
  }

  lemma CommitKeepsAcceptors(s: State, m: CommitMsg)
    requires AcceptorsOk(s.major, s.acceptors, s.promises, s.votes) && Enabled(s, DeliverCommit(m))
    requires AcceptsOk(s.major, s.acceptors, s.accepts, s.writes)
    ensures var s' := Apply(s, DeliverCommit(m));
            && AcceptorsOk(s'.major, s'.acceptors, s'.promises, s'.votes)
            && AcceptsOk(s'.major, s'.acceptors, s'.accepts, s'.writes)
  {
  }

  lemma NewRegisterKeepsObjects(s: State)
    requires ObjectsOk(s)
    ensures ObjectsOk(Apply(s, NewRegister))
  {
  }

  lemma StepInv(s: State, step: Step)
    requires Inv(s) && Enabled(s, step) && s.threshold > 0
    ensures Inv(Apply(s, step))
  {
    hide AcceptorsOk, GrantsOk, RegistersOk, WritesOk, VotesOk, AcceptsOk;
    var s' := Apply(s, step);
    ChosenKept(s, s');
    match step
    case NewRegister => NewRegisterKeepsObjects(s);
    case StartLock(r) => StartLockKeepsObjects(s, r);
    case DeliverPrepare(r, l, a) =>
      PrepareKeepsAcceptors(s, r, l, a);
      PrepareKeepsObjects(s, r, l, a);
      PrepareKeepsAccepts(s, r, l, a);
    case FinishLock(r, replies, selected) => FinishLockKeepsObjects(s, r, replies, selected);
    case StartWrite(r, l, payload) =>
      StartWriteKeepsObjects(s, r, l, payload);
      StartWriteKeepsAccepts(s, r, l, payload);
    case DeliverAccept(m) => AcceptKeepsAcceptors(s, m); AcceptKeepsVotes(s, m);
    case FinishWrite(r, heard) =>
      FinishWriteKeepsObjects(s, r, heard);
      if |heard| >= s.threshold { FinishWriteChooses(s, r, heard); }
    case DeliverCommit(m) => CommitKeepsAcceptors(s, m);
    case ReadAt(a) =>
  }

  /** A threshold that any two quorums must share an acceptor under. */
  ghost predicate Majority(s: State) {
    2 * s.threshold > |s.acceptors|
  }

  lemma InitInv(s: State)
    requires Init(s)
    ensures Inv(s)
  {
  }

  lemma StepOf(run: seq<State>, i: nat) returns (step: Step)
    requires IsRun(run) && i < |run| - 1
    ensures Enabled(run[i], step) && run[i + 1] == Apply(run[i], step)
  {
    hide Enabled, Apply, Init;
    assert Next(run[i], run[i + 1]);
    step :| Enabled(run[i], step) && run[i + 1] == Apply(run[i], step);
  }

  lemma RunStarts(run: seq<State>)
    requires IsRun(run)
    ensures Init(run[0])
  {
  }

  /** Histories only grow, and the acceptors and the threshold stay. */
  ghost predicate Grows(s: State, s': State) {
    && s.votes <= s'.votes && s.grants <= s'.grants && s.writes <= s'.writes && s.readLog <= s'.readLog
    && s.threshold == s'.threshold && |s.acceptors| == |s'.acceptors|
  }

  lemma StepGrows(s: State, step: Step)
    requires Enabled(s, step)
    ensures Grows(s, Apply(s, step))
  {
  }

  lemma {:induction false} RunInv(run: seq<State>, i: nat)
    requires IsRun(run) && Majority(run[0]) && i < |run|
    ensures Inv(run[i]) && Majority(run[i])
    ensures run[i].threshold == run[0].threshold && |run[i].acceptors| == |run[0].acceptors|
  {
    hide Inv, Init, IsRun, Enabled, Apply;
    if i == 0 {
      RunStarts(run);
      InitInv(run[0]);
    } else {
      RunInv(run, i - 1);
      var step := StepOf(run, i - 1);
      StepInv(run[i - 1], step);
      StepGrows(run[i - 1], step);
    }
  }

  lemma {:induction false} RunGrows(run: seq<State>, i: nat, j: nat)
    requires IsRun(run) && i <= j < |run|
    ensures Grows(run[i], run[j])
    decreases j
  {
    if i < j {
      hide IsRun, Enabled, Apply;
      RunGrows(run, i, j - 1);
      var step := StepOf(run, j - 1);
      StepGrows(run[j - 1], step);
    }
  }

  // ---- Agreement ----

  /** At most one register object is granted a given ballot, although all of them may try it. */
  lemma OneGrantee(s: State, g: Grant, g': Grant)
    requires Inv(s) && Majority(s)
    requires g in s.grants && g' in s.grants && g.lock == g'.lock
    ensures g.reg == g'.reg
  {
    var i := QuorumsMeet(|s.acceptors|, g.quorum, g'.quorum);
    assert Heard(s.promises, g, i) && Heard(s.promises, g', i);
  }

  /** All votes at one ballot carry one value. */
  lemma OneValuePerBallot(s: State, v: Vote, v': Vote)
    requires Inv(s) && Majority(s)
    requires v in s.votes && v' in s.votes && v.lock == v'.lock
    ensures v.value == v'.value
  {
    var r :| Write(r, v.lock, v.value, true) in s.writes;
    var r' :| Write(r', v'.lock, v'.value, true) in s.writes;
    var w, w' := Write(r, v.lock, v.value, true), Write(r', v'.lock, v'.value, true);
    assert Backed(s.grants, w) && Backed(s.grants, w');
    var g :| g in s.grants && g.reg == w.reg && g.lock == w.lock;
    var g' :| g' in s.grants && g'.reg == w'.reg && g'.lock == w'.lock;
    OneGrantee(s, g, g');
  }

  /** A grant above a chosen ballot selected a vote cast at that ballot or between the two. */
  lemma GrantSeesChosen(s: State, g: Grant, lock: nat, value: string) returns (u: Vote)
    requires Inv(s) && Majority(s) && Chosen(s, lock, value)
    requires g in s.grants && lock < g.lock
    ensures u in s.votes && lock <= u.lock < g.lock
    ensures g.selected.Some? && u.value == g.selected.value.value
  {
    var q :| ChosenBy(s, q, lock, value);
    assert GrantOk(|s.acceptors|, s.threshold, s.promises, g);
    hide GrantsOk, RegistersOk, WritesOk, VotesOk, AcceptsOk, CommitsOk, PromisedBound, AcceptedIsLatest, OnePromise;
    var i := QuorumsMeet(|s.acceptors|, q, g.quorum);
    assert Vote(i, lock, value) in s.votes;
    assert Heard(s.promises, g, i);
    var p :| PromiseMsg(i, g.reg, g.lock, p) in s.promises
             && (p.value.Some? ==> g.selected.Some? && Le(p.ballot, g.selected.value.ballot));
    var sel := g.selected.value;
    var a :| PromiseMsg(a, g.reg, g.lock, Promise(sel.ballot, Some(sel.value))) in s.promises;
    u := Vote(a, sel.ballot.minor, sel.value);
  }

  /** Every vote above a chosen ballot is for the chosen value. */
  lemma {:induction false} VotesFollow(s: State, lock: nat, value: string, v: Vote)
    requires Inv(s) && Majority(s) && Chosen(s, lock, value)
    requires v in s.votes && lock <= v.lock
    ensures v.value == value
    decreases v.lock
  {
    var q :| ChosenBy(s, q, lock, value);
    if lock == v.lock {
      var i :| i in q;
      OneValuePerBallot(s, v, Vote(i, lock, value));
    } else {
      var r :| Write(r, v.lock, v.value, true) in s.writes;
      assert Backed(s.grants, Write(r, v.lock, v.value, true));
      var g :| g in s.grants && g.reg == r && g.lock == v.lock
               && (g.selected.Some? ==> v.value == g.selected.value.value);
      var u := GrantSeesChosen(s, g, lock, value);
      VotesFollow(s, lock, value, u);
    }
  }

  lemma ChosenAgree(s: State, lock: nat, value: string, lock': nat, value': string)
    requires Inv(s) && Majority(s) && Chosen(s, lock, value) && Chosen(s, lock', value')
    ensures value == value'
  {
    if lock > lock' {
      ChosenAgree(s, lock', value', lock, value);
    } else {
      var q :| ChosenBy(s, q, lock', value');
      var i :| i in q;
      VotesFollow(s, lock, value, Vote(i, lock', value'));
    }
  }

  /** Paxos agreement: whatever is chosen at any two points of a run is one value. */
  lemma Agreement(run: seq<State>, i: nat, lock: nat, value: string, j: nat, lock': nat, value': string)
    requires IsRun(run) && Majority(run[0]) && i < |run| && j < |run|
    requires Chosen(run[i], lock, value) && Chosen(run[j], lock', value')
    ensures value == value'
  {
    var last := |run| - 1;
    RunInv(run, last);
    RunGrows(run, i, last);
    RunGrows(run, j, last);
    ChosenKept(run[i], run[last]);
    ChosenKept(run[j], run[last]);
    ChosenAgree(run[last], lock, value, lock', value');
  }

  /** Each lock of a register object was granted at most once. */
  ghost predicate GrantsOnce(regs: seq<Register>, grants: set<Grant>) {
    && (forall g <- grants :: g.reg < |regs| && g.lock <= regs[g.reg].lockId)
    && (forall g <- grants | regs[g.reg].phase.Preparing? :: g.lock < regs[g.reg].lockId)
    && (forall g, g' | g in grants && g' in grants && g.reg == g'.reg && g.lock == g'.lock :: g == g')
  }

  lemma StepGrantsOnce(s: State, step: Step)
    requires GrantsOnce(s.regs, s.grants) && Enabled(s, step)
    ensures var s' := Apply(s, step); GrantsOnce(s'.regs, s'.grants)
  {
  }

  lemma {:induction false} RunGrantsOnce(run: seq<State>, i: nat)
    requires IsRun(run) && i < |run|
    ensures GrantsOnce(run[i].regs, run[i].grants)
  {
    if i == 0 {
      RunStarts(run);
    } else {
      hide IsRun, Enabled, Apply, GrantsOnce;
      RunGrantsOnce(run, i - 1);
      var step := StepOf(run, i - 1);
      StepGrantsOnce(run[i - 1], step);
    }
  }

  /** Ballot exclusivity over a run: a ballot is granted once, to one register object. */
  lemma BallotExclusivity(run: seq<State>, i: nat, g: Grant, j: nat, g': Grant)
    requires IsRun(run) && Majority(run[0]) && i < |run| && j < |run|
    requires g in run[i].grants && g' in run[j].grants && g.lock == g'.lock
    ensures g == g'
  {
    var last := |run| - 1;
    RunInv(run, last);
    RunGrows(run, i, last);
    RunGrows(run, j, last);
    OneGrantee(run[last], g, g');
    RunGrantsOnce(run, last);
  }

  // ---- Committed reads, when every acceptor must take part ----

  ghost predicate ReadsOk(s: State) {
    forall r <- s.readLog :: ChosenEver(s, r.value)
  }

  ghost predicate ChosenEver(s: State, value: string) {
    exists l :: Chosen(s, l, value)
  }

  /** With the threshold at all acceptors, a committed acceptor holds the chosen value. */
  lemma CommittedIsChosen(s: State, a: nat) returns (lock: nat)
    requires Inv(s) && Majority(s) && s.threshold >= |s.acceptors|
    requires a < |s.acceptors| && s.acceptors[a].committed
    ensures CommittedValue(s.acceptors[a]).Some?
    ensures Chosen(s, lock, CommittedValue(s.acceptors[a]).value)
  {
    lock :| SomeChosen(s, lock);
    var value :| Chosen(s, lock, value);
    var q :| ChosenBy(s, q, lock, value);
    SetBound(|s.acceptors|, q + {a});
    assert |q + {a}| + |q * {a}| == |q| + 1;
    assert a in q * {a};
    assert Vote(a, lock, value) in s.votes;
    var p := s.acceptors[a].accepted.value;
    VotesFollow(s, lock, value, Vote(a, p.ballot.minor, p.value.value));
  }

  /** Reads made earlier stay good, whatever the step. */
  lemma OldReadsOk(s: State, step: Step)
    requires ReadsOk(s) && Enabled(s, step)
    ensures forall r <- s.readLog :: ChosenEver(Apply(s, step), r.value)
  {
    ChosenKept(s, Apply(s, step));
  }

  lemma StepReadsOk(s: State, step: Step)
    requires Inv(s) && Majority(s) && s.threshold >= |s.acceptors| && ReadsOk(s) && Enabled(s, step)
    ensures ReadsOk(Apply(s, step))
  {
    OldReadsOk(s, step);
    match step
    case ReadAt(a) =>
      var l := CommittedIsChosen(s, a);
      ChosenKept(s, Apply(s, step));
      assert ChosenEver(Apply(s, step), CommittedValue(s.acceptors[a]).value);
    case _ =>
      assert Apply(s, step).readLog == s.readLog;
  }

  lemma {:induction false} RunReadsOk(run: seq<State>, i: nat)
    requires IsRun(run) && Majority(run[0]) && run[0].threshold >= |run[0].acceptors| && i < |run|
    ensures ReadsOk(run[i])
  {
    if i == 0 {
      RunStarts(run);
    } else {
      hide IsRun, Inv, Enabled, Apply, ReadsOk;
      RunReadsOk(run, i - 1);
      RunInv(run, i - 1);
      var step := StepOf(run, i - 1);
      StepReadsOk(run[i - 1], step);
    }
  }

  /** Write-once: any two committed reads, anywhere and at any time, return one value. */
  lemma WriteOnceReads(run: seq<State>, i: nat, r: Read, j: nat, r': Read)
    requires IsRun(run) && run[0].threshold >= |run[0].acceptors| > 0
    requires i < |run| && r in run[i].readLog && j < |run| && r' in run[j].readLog
    ensures r.value == r'.value
  {
    RunReadsOk(run, i);
    RunReadsOk(run, j);
    var l :| Chosen(run[i], l, r.value);
    var l' :| Chosen(run[j], l', r'.value);
    Agreement(run, i, l, r.value, j, l', r'.value);
  }

  // ---- Stale locks ----

  /**
   * A write with a lock that is not the last one tried reaches no acceptor:
   * at every later point of the run its messages change nothing when
   * delivered, nobody acknowledges it, and it never sends a commit.
   */
  lemma StaleWriteIsHarmless(run: seq<State>, i: nat, r: nat, l: nat, payload: string, j: nat)
    requires IsRun(run) && Majority(run[0]) && i < j < |run|
    requires Enabled(run[i], StartWrite(r, l, payload)) && run[i + 1] == Apply(run[i], StartWrite(r, l, payload))
    requires l < run[i].regs[r].lockId
    ensures forall m <- run[j].accepts | m.reg == r && m.lock == l && m.acc < |run[j].acceptors| ::
              Apply(run[j], DeliverAccept(m)) == run[j]
    ensures forall k <- run[j].acks :: !(k.reg == r && k.lock == l)
    ensures forall heard | Enabled(run[j], FinishWrite(r, heard)) && run[j].regs[r].phase.lock == l ::
              heard == {} && Apply(run[j], FinishWrite(r, heard)).commits == run[j].commits
  {
    var w := Write(r, l, ProposedValue(run[i].regs[r].selected, payload), false);
    assert w in run[i + 1].writes;
    hide Inv, IsRun, Init;
    RunInv(run, j);
    RunGrows(run, i + 1, j);
    StaleWriteUnheard(run[j], w);
    forall m <- run[j].accepts | m.reg == r && m.lock == l && m.acc < |run[j].acceptors|
      ensures Apply(run[j], DeliverAccept(m)) == run[j]
    {
      StaleAcceptRefused(run[j], w, m);
    }
    forall heard | Enabled(run[j], FinishWrite(r, heard)) && run[j].regs[r].phase.lock == l
      ensures heard == {}
    {
      assert forall a <- heard :: AckMsg(a, r, l) in run[j].acks;
    }
  }

  lemma StaleWriteUnheard(s: State, w: Write)
    requires WritesOk(s.regs, s.grants, s.writes) && VotesOk(s.writes, s.votes, s.acks)
    requires w in s.writes && !w.current
    ensures forall k <- s.acks :: !(k.reg == w.reg && k.lock == w.lock)
  {
    forall k <- s.acks ensures !(k.reg == w.reg && k.lock == w.lock) {
      assert AckBacked(s.writes, s.votes, k);
      var v :| Write(k.reg, k.lock, v, true) in s.writes;
    }
  }

  lemma StaleAcceptRefused(s: State, w: Write, m: AcceptMsg)
    requires WritesOk(s.regs, s.grants, s.writes) && AcceptsOk(s.major, s.acceptors, s.accepts, s.writes)
    requires w in s.writes && !w.current
    requires m in s.accepts && m.reg == w.reg && m.lock == w.lock && m.acc < |s.acceptors|
    ensures Apply(s, DeliverAccept(m)) == s
  {
  }
}
