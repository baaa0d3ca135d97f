/**
 * One Paxos acceptor (wor/paxos/LocalAcceptor.cc).  The functions give the
 * meaning of one call on one instance; the class keeps the instances in its
 * key-value store and is proved against those functions.
 */
module Acceptor {
  import opened Options
  import opened Ballots

  /** `value` is absent in the reply of an acceptor that has accepted nothing. */
  datatype Promise = Promise(ballot: BallotId, value: Option<string>)

  datatype Proposal = Proposal(ballot: BallotId, value: string)

  datatype PrepareReply = Rejected | Promised(promise: Promise)

  datatype PaxosInstance = PaxosInstance(id: string,
                                         promised: BallotId,
                                         accepted: Option<Promise>,
                                         committed: bool)

  /** Nothing accepted or committed yet. */
  function FreshInstance(id: string): (p: PaxosInstance)
    ensures p.id == id && p.accepted == None && !p.committed
  {
    PaxosInstance(id, BallotId(-1, -1), None, false)
  }

  /** No ballot of a register is refused by a fresh instance. */
  lemma FreshGrantsAll(id: string, ballot: BallotId)
    requires ballot.major >= 0
    ensures Prepare(FreshInstance(id), ballot).1 == Promised(Promise(ballot, None))
  {
  }

  /** A prepare is refused unless its ballot is strictly above the promised one. */
  function Prepare(p: PaxosInstance, ballot: BallotId): (r: (PaxosInstance, PrepareReply))
    ensures r.1.Promised? <==> Lt(p.promised, ballot)
    ensures r.0.promised == if Lt(p.promised, ballot) then ballot else p.promised
    ensures r.1.Promised? ==> r.1.promise == if p.accepted.Some? then p.accepted.value else Promise(ballot, None)
    ensures r.0.id == p.id && r.0.accepted == p.accepted && r.0.committed == p.committed
  {
    if Le(ballot, p.promised) then
      (p, Rejected)
    else
      var q := p.(promised := ballot);
      if q.accepted.Some? then
        (q, Promised(q.accepted.value))
      else
        (q, Promised(Promise(ballot, None)))
  }

  /** An accept is taken at the promised ballot or above, and raises the promise. */
  function Accept(p: PaxosInstance, proposal: Proposal): (r: (PaxosInstance, bool))
    ensures Le(p.promised, r.0.promised) && r.0.committed == p.committed
    ensures r.1 <==> !Lt(proposal.ballot, p.promised)
    ensures !r.1 ==> r.0 == p
    ensures r.1 ==> r.0.promised == proposal.ballot
    ensures r.1 ==> r.0.accepted == Some(Promise(proposal.ballot, Some(proposal.value)))
  {
    if Lt(proposal.ballot, p.promised) then
      (p, false)
    else
      (p.(promised := proposal.ballot,
          accepted := Some(Promise(proposal.ballot, Some(proposal.value)))), true)
  }

  /** Commit looks at no ballot at all, and only the first one answers true. */
  function Commit(p: PaxosInstance): (r: (PaxosInstance, bool))
    ensures r.1 <==> !p.committed
    ensures r.0.committed
    ensures r.0.id == p.id && r.0.promised == p.promised && r.0.accepted == p.accepted
  {
    if p.committed then (p, false) else (p.(committed := true), true)
  }

  /** A committed instance without an accepted value reads as the empty string. */
  function CommittedValue(p: PaxosInstance): (value: Option<string>)
    ensures value.Some? <==> p.committed
    ensures p.committed && p.accepted.Some? && p.accepted.value.value.Some? ==> value == p.accepted.value.value
    ensures p.committed && p.accepted == None ==> value == Some("")
  {
    if !p.committed then None
    else if p.accepted.Some? && p.accepted.value.value.Some? then p.accepted.value.value
    else Some("")
  }

  function Lookup(store: map<string, PaxosInstance>, id: string): (p: PaxosInstance)
    ensures id in store ==> p == store[id]
    ensures id !in store ==> p == FreshInstance(id)
  {
    if id in store then store[id] else FreshInstance(id)
  }

  /** Every stored instance is filed under its own id. */
  ghost predicate FiledById(store: map<string, PaxosInstance>) {
    forall id <- store :: store[id].id == id
  }

  class LocalAcceptor {
    var kvStore: map<string, PaxosInstance>

    ghost predicate Valid()
      reads this
    {
      FiledById(kvStore)
    }

    constructor ()
      ensures Valid() && kvStore == map[]
    {
      kvStore := map[];
    }

    /** Reads an instance, storing a fresh one on first use. */
    method GetOrCreate(id: string) returns (instance: PaxosInstance)
      requires Valid()
      modifies this
      ensures Valid()
      ensures instance == Lookup(old(kvStore), id)
      ensures kvStore == old(kvStore)[id := instance]
      ensures id in old(kvStore) ==> instance == old(kvStore)[id]
      ensures id !in old(kvStore) ==> instance.accepted == None && !instance.committed
    {
      if id in kvStore {
        instance := kvStore[id];
      } else {
        instance := FreshInstance(id);
        kvStore := kvStore[id := instance];
      }
    }

    method PrepareCall(id: string, ballot: BallotId) returns (reply: PrepareReply)
      requires Valid()
      modifies this
      ensures Valid()
      ensures var before := Lookup(old(kvStore), id);
              && reply == Prepare(before, ballot).1
              && kvStore == old(kvStore)[id := Prepare(before, ballot).0]
              && (reply.Promised? <==> Lt(before.promised, ballot))
              && kvStore[id].accepted == before.accepted
              && (reply.Promised? ==> kvStore[id].promised == ballot)
              && (reply.Promised? && before.accepted.Some? ==> reply.promise == before.accepted.value)
              && (reply.Promised? && before.accepted.None? ==> reply.promise == Promise(ballot, None))
    {
      var instance := GetOrCreate(id);
      if Le(ballot, instance.promised) {
        return Rejected;
      }
      instance := instance.(promised := ballot);
      kvStore := kvStore[instance.id := instance];
      if instance.accepted.Some? {
        return Promised(instance.accepted.value);
      }
      return Promised(Promise(ballot, None));
    }

    method AcceptCall(id: string, proposal: Proposal) returns (ok: bool)
      requires Valid()
      modifies this
      ensures Valid()
      ensures var before := Lookup(old(kvStore), id);
              && ok == Accept(before, proposal).1
              && kvStore == old(kvStore)[id := Accept(before, proposal).0]
              && (ok <==> !Lt(proposal.ballot, before.promised))
              && (ok ==> kvStore[id].promised == proposal.ballot)
              && (ok ==> kvStore[id].accepted == Some(Promise(proposal.ballot, Some(proposal.value))))
              && (!ok ==> kvStore[id] == before)
    {
      var instance := GetOrCreate(id);
      if Lt(proposal.ballot, instance.promised) {
        return false;
      }
      instance := instance.(promised := proposal.ballot);
      instance := instance.(accepted := Some(Promise(proposal.ballot, Some(proposal.value))));
      kvStore := kvStore[instance.id := instance];
      return true;
    }

    method CommitCall(id: string) returns (first: bool)
      requires Valid()
      modifies this
      ensures Valid()
      ensures var before := Lookup(old(kvStore), id);
              && first == Commit(before).1
              && kvStore == old(kvStore)[id := Commit(before).0]
              && first == !before.committed && kvStore[id].committed
              && kvStore[id].accepted == before.accepted && kvStore[id].promised == before.promised
    {
      var instance := GetOrCreate(id);
      if !instance.committed {
        instance := instance.(committed := true);
        kvStore := kvStore[instance.id := instance];
        return true;
      }
      return false;
    }

    method GetCommittedValue(id: string) returns (value: Option<string>)
      requires Valid()
      modifies this
      ensures Valid()
      ensures var before := Lookup(old(kvStore), id);
              && value == CommittedValue(before) && (value.Some? <==> before.committed)
              && kvStore == old(kvStore)[id := before]
    {
      var instance := GetOrCreate(id);
      if instance.committed {
        if instance.accepted.Some? && instance.accepted.value.value.Some? {
          return instance.accepted.value.value;
        }
        return Some("");
      }
      return None;
    }
  }
}
