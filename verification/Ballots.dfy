/** Ballot ids and their order (wor/paxos/Common.cc). */
module Ballots {
  datatype BallotId = BallotId(major: int, minor: int)

  predicate Le(x: BallotId, y: BallotId) {
    if x.major == y.major then x.minor <= y.minor else x.major <= y.major
  }

  predicate Lt(x: BallotId, y: BallotId) {
    if x.major == y.major then x.minor < y.minor else x.major < y.major
  }

  /** The two hand-written operators are the two halves of one total order. */
  lemma TotalOrder(x: BallotId, y: BallotId, z: BallotId)
    ensures Lt(x, y) <==> !Le(y, x)
    ensures Le(x, y) <==> Lt(x, y) || x == y
    ensures Le(x, y) && Le(y, x) ==> x == y
    ensures Le(x, y) && Le(y, z) ==> Le(x, z)
    ensures Lt(x, y) && Le(y, z) ==> Lt(x, z)
    ensures Le(x, y) && Lt(y, z) ==> Lt(x, z)
  {
  }
}
