/** Products over sets of integers, independent of any order. */
module Products {
  import opened Quorums
  import opened Modular

  ghost function Choose(s: set<int>): (j: int)
    requires s != {}
    ensures j in s
  {
    assert exists j :: j in s by { var j := Pick(s); }
    var j :| j in s;
    j
  }

  /** The product of `x - m` over the members `m` of `s`. */
  ghost function Pi(s: set<int>, x: int): int
    decreases |s|
  {
    if s == {} then 1
    else
      var m := Choose(s);
      (x - m) * Pi(s - {m}, x)
  }

  lemma {:induction false} PiSplit(s: set<int>, m: int, x: int)
    requires m in s
    ensures Pi(s, x) == (x - m) * Pi(s - {m}, x)
    decreases |s|
  {
    var k := Choose(s);
    if k != m {
      var rest := s - {k} - {m};
      assert rest == s - {m} - {k};
      assert Pi(s - {k}, x) == (x - m) * Pi(rest, x) by { PiSplit(s - {k}, m, x); }
      assert Pi(s - {m}, x) == (x - k) * Pi(rest, x) by { PiSplit(s - {m}, k, x); }
      MulSwap(x - k, x - m, Pi(rest, x));
    }
  }

  lemma {:induction false} PiNonzero(p: int, s: set<int>, x: int)
    requires Prime(p) && forall m :: m in s ==> !Cong(p, x - m, 0)
    ensures !Cong(p, Pi(s, x), 0)
    decreases |s|
  {
    if s == {} {
      if Cong(p, 1, 0) {
        CongSmall(p, 1, 0);
      }
    } else {
      var m := Choose(s);
      PiNonzero(p, s - {m}, x);
      NonzeroProduct(p, x - m, Pi(s - {m}, x));
    }
  }
}
