/** The faulty pairs a node has recorded: an unordered relation that only grows. */
module Certification {

  /** A pair is stored with the smaller id first. */
  function Ordered(i: int, j: int): (int, int) {
    if i > j then (j, i) else (i, j)
  }

  predicate Faulty(fp: set<(int, int)>, i: int, j: int) {
    Ordered(i, j) in fp
  }

  class CertificationProtocol {
    var fp: set<(int, int)>

    constructor ()
      ensures fp == {}
    {
      fp := {};
    }

    /** Records the pair in both orders and forgets none. */
    method AddFaultyPair(i: int, j: int)
      modifies this
      ensures fp == old(fp) + {Ordered(i, j)}
      ensures forall a, b :: Faulty(fp, a, b) <==> Faulty(old(fp), a, b) || (a, b) == (i, j) || (a, b) == (j, i)
    {
      var a, b := i, j;
      if a > b {
        a, b := b, a;
      }
      fp := fp + {(a, b)};
    }

    method IsFaultyPair(i: int, j: int) returns (r: bool)
      ensures r == Faulty(fp, i, j) == Faulty(fp, j, i)
    {
      var a, b := i, j;
      if a > b {
        a, b := b, a;
      }
      r := (a, b) in fp;
    }
  }
}
