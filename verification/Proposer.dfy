/**
 * The proposer's local work (wor/paxos/ProposerImpl.h) and the lock counter of
 * the register that drives it (wor/paxos/PaxosWriteOnceRegister.h).  A reply
 * that was lost or timed out is `None`.  Sending and delivering messages are
 * the steps of module Paxos; the loops over the collected replies are here.
 */
module Proposer {
  import opened Options
  import opened Ballots
  import opened Acceptor

  type Replies = seq<Option<PrepareReply>>

  predicate PromisedAt(replies: Replies, i: nat) {
    i < |replies| && replies[i].Some? && replies[i].value.Promised?
  }

  function PromiseAt(replies: Replies, i: nat): Promise
    requires PromisedAt(replies, i)
  {
    replies[i].value.promise
  }

  /** The acceptors that promised. */
  function Promising(replies: Replies): set<nat> {
    set i: nat | i < |replies| && PromisedAt(replies, i)
  }

  /** Some promising acceptor reported this proposal as accepted. */
  ghost predicate Reported(replies: Replies, p: Proposal) {
    exists i: nat :: PromisedAt(replies, i) && PromiseAt(replies, i) == Promise(p.ballot, Some(p.value))
  }

  /** `selected` is a highest-ballot value among the promises, or none was reported. */
  ghost predicate Highest(replies: Replies, selected: Option<Proposal>) {
    match selected
    case None =>
      forall i: nat | PromisedAt(replies, i) :: PromiseAt(replies, i).value.None?
    case Some(p) =>
      && Reported(replies, p)
      && (forall i: nat | PromisedAt(replies, i) && PromiseAt(replies, i).value.Some? ::
            Le(PromiseAt(replies, i).ballot, p.ballot))
  }

  /** The value a write really proposes: a selected value wins over the caller's. */
  function ProposedValue(selected: Option<Proposal>, payload: string): string {
    if selected.Some? then selected.value.value else payload
  }

  ghost predicate Increasing(s: seq<nat>) {
    forall i, j | 0 <= i < j < |s| :: s[i] < s[j]
  }

  lemma {:induction false} IncreasingSize(s: seq<nat>, members: set<nat>)
    requires Increasing(s) && forall i :: i in members <==> i in s
    ensures |members| == |s|
  {
    if s == [] {
      assert members == {};
    } else {
      var last := s[|s| - 1];
      assert s == s[..|s| - 1] + [last];
      assert last !in s[..|s| - 1];
      IncreasingSize(s[..|s| - 1], members - {last});
    }
  }

  /** The counting loop of `prepare`: who promised, and which values they reported. */
  method Tally(replies: Replies) returns (promising: seq<nat>, proposals: seq<Proposal>)
    ensures Increasing(promising) && |promising| == |Promising(replies)|
    ensures forall i :: i in promising <==> i in Promising(replies)
    ensures forall p <- proposals :: Reported(replies, p)
    ensures forall i: nat | PromisedAt(replies, i) && PromiseAt(replies, i).value.Some? ::
              Proposal(PromiseAt(replies, i).ballot, PromiseAt(replies, i).value.value) in proposals
  {
    promising, proposals := [], [];
    for index := 0 to |replies|
      invariant Increasing(promising)
      invariant forall i :: i in promising <==> 0 <= i < index && PromisedAt(replies, i)
      invariant forall p <- proposals :: Reported(replies, p)
      invariant forall i: nat | i < index && PromisedAt(replies, i) && PromiseAt(replies, i).value.Some? ::
        Proposal(PromiseAt(replies, i).ballot, PromiseAt(replies, i).value.value) in proposals
    {
      if replies[index].Some? && replies[index].value.Promised? {
        var promise := replies[index].value.promise;
        if promise.value.Some? {
          assert PromisedAt(replies, index);
          proposals := proposals + [Proposal(promise.ballot, promise.value.value)];
        }
        assert forall k | 0 <= k < |promising| :: promising[k] in promising;
        promising := promising + [index];
      }
    }
    IncreasingSize(promising, Promising(replies));
  }

  /** The selection loop of `prepare`: the first proposal with the highest ballot. */
  method SelectHighest(proposals: seq<Proposal>) returns (selected: Option<Proposal>)
    ensures selected.None? <==> proposals == []
    ensures selected.Some? ==> selected.value in proposals
    ensures selected.Some? ==> forall p <- proposals :: Le(p.ballot, selected.value.ballot)
  {
    selected := None;
    for k := 0 to |proposals|
      invariant selected.None? <==> k == 0
      invariant selected.Some? ==> selected.value in proposals
      invariant selected.Some? ==> forall j | 0 <= j < k :: Le(proposals[j].ballot, selected.value.ballot)
    {
      if selected.None? || (selected.Some? && Lt(selected.value.ballot, proposals[k].ballot)) {
        selected := Some(proposals[k]);
      }
    }
  }

  class ProposerState {
    const majority: nat
    const acceptorCount: nat
    var proposeAcceptors: seq<nat>
    var selectedProposal: Option<Proposal>

    constructor (majority: nat, acceptorCount: nat)
      ensures this.majority == majority && this.acceptorCount == acceptorCount
      ensures proposeAcceptors == [] && selectedProposal == None
    {
      this.majority, this.acceptorCount := majority, acceptorCount;
      proposeAcceptors, selectedProposal := [], None;
    }

    /** The acceptors to propose to, as a set. */
    ghost function Targets(): set<nat>
      reads this
    {
      set i | i in proposeAcceptors
    }

    /**
     * Everything `prepare` does once the replies are in.  When the promises
     * fall short, the targets have changed but the selected proposal is the
     * one left over from an earlier call.
     */
    method CollectPromises(replies: Replies) returns (ok: bool)
      requires |replies| == acceptorCount
      modifies this
      ensures Targets() == Promising(replies) && Increasing(proposeAcceptors)
      ensures ok <==> |Promising(replies)| >= majority
      ensures ok ==> Highest(replies, selectedProposal)
      ensures !ok ==> selectedProposal == old(selectedProposal)
    {
      proposeAcceptors := [];
      var promising, proposals := Tally(replies);
      proposeAcceptors := promising;
      if |promising| < majority {
        return false;
      }
      selectedProposal := SelectHighest(proposals);
      return true;
    }

    /** The first loop of `propose`: enough accepts, in any order of replies, or not. */
    method EnoughAccepts(replies: map<nat, bool>) returns (ok: bool)
      requires Increasing(proposeAcceptors)
      ensures ok <==> |set i | i in Targets() && i in replies && replies[i]| >= majority
    {
      var successfulProposals := 0;
      ghost var heard: set<nat> := {};
      for k := 0 to |proposeAcceptors|
        invariant heard == set i | i in proposeAcceptors[..k] && i in replies && replies[i]
        invariant successfulProposals == |heard|
      {
        var acceptor := proposeAcceptors[k];
        assert proposeAcceptors[..k + 1] == proposeAcceptors[..k] + [acceptor];
        assert acceptor !in heard;
        if acceptor in replies && replies[acceptor] {
          successfulProposals := successfulProposals + 1;
          heard := heard + {acceptor};
        }
      }
      assert proposeAcceptors[..|proposeAcceptors|] == proposeAcceptors;
      assert heard == set i | i in Targets() && i in replies && replies[i];
      return successfulProposals >= majority;
    }
  }

  /** `getCommittedValue` over all acceptors: the first one that answers with a value. */
  method FirstCommitted(answers: seq<Option<string>>) returns (value: Option<string>)
    ensures value.None? <==> forall i | 0 <= i < |answers| :: answers[i].None?
    ensures value.Some? ==>
      exists i :: 0 <= i < |answers| && answers[i] == value && forall j | 0 <= j < i :: answers[j].None?
  {
    for i := 0 to |answers|
      invariant forall j | 0 <= j < i :: answers[j].None?
    {
      if answers[i].Some? {
        return answers[i];
      }
    }
    return None;
  }

  /** The lock counter of one register object; every counter starts at zero. */
  class RegisterState {
    const majorId: int
    var lockId: nat

    constructor (registerId: int)
      ensures majorId == registerId && lockId == 0
    {
      majorId, lockId := registerId, 0;
    }

    /** Each attempt takes a ballot above every ballot this object used before. */
    method NextBallot() returns (ballot: BallotId)
      modifies this
      ensures lockId == old(lockId) + 1 && ballot == BallotId(majorId, lockId)
      ensures forall l: nat | l <= old(lockId) :: Lt(BallotId(majorId, l), ballot)
    {
      lockId := lockId + 1;
      ballot := BallotId(majorId, lockId);
    }
  }
}
