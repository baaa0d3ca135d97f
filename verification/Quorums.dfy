/** Counting arguments about sets of nodes numbered below `n`. */
module Quorums {

  lemma {:induction false} SetBound(n: nat, q: set<nat>)
    requires forall i <- q :: i < n
    ensures |q| <= n
  {
    if n == 0 {
      assert q == {};
    } else {
      SetBound(n - 1, q - {n - 1});
    }
  }

  /** Two sets that together outnumber all nodes overlap. */
  lemma QuorumsMeet(n: nat, q: set<nat>, q': set<nat>) returns (i: nat)
    requires forall i <- q + q' :: i < n
    requires |q| + |q'| > n
    ensures i in q && i in q'
  {
    SetBound(n, q + q');
    assert |q + q'| + |q * q'| == |q| + |q'|;
    i :| i in q * q';
  }

  /** The first `k` nodes. */
  ghost function Upto(k: nat): (r: set<nat>)
    ensures (forall i: nat :: i in r <==> i < k) && |r| == k
  {
    if k == 0 then {} else Upto(k - 1) + {k - 1}
  }

  /** `m` nodes above the first `q`. */
  lemma Beyond(q: nat, m: nat) returns (nodes: set<nat>)
    ensures |nodes| == m && forall i: nat :: i in nodes <==> q <= i < q + m
  {
    nodes := Upto(q + m) - Upto(q);
    assert Upto(q + m) == nodes + Upto(q);
    assert nodes !! Upto(q);
  }
}
