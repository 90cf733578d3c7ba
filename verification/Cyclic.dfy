/** Positions that go round: the last one is followed by the first. */
module Cyclic {

  function Succ(j: nat, n: nat): nat {
    if j + 1 == n then 0 else j + 1
  }

  lemma NextIndex(i: nat, n: nat)
    requires i < n
    ensures (i + 1) % n == Succ(i, n)
  {
  }
}
