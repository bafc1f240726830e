/** Lagrange interpolation at 0, as nested accumulator loops over lists of points and values. */
module Interpolation {
  import opened Modular
  import opened Products
  import opened Lagrange
  import opened Sharing
  import opened Bivariate

  /** The first `m` points, as a set. */
  ghost function Prefix(xs: seq<int>, m: nat): (s: set<int>)
    requires m <= |xs|
  {
    if m == 0 then {} else Prefix(xs, m - 1) + {xs[m - 1]}
  }

  lemma {:induction false} InPrefix(xs: seq<int>, m: nat)
    requires m <= |xs|
    ensures forall x :: x in Prefix(xs, m) <==> exists i :: 0 <= i < m && xs[i] == x
  {
    if m > 0 {
      InPrefix(xs, m - 1);
    }
  }

  /** The value listed beside each of the first `m` points. */
  ghost function Table(xs: seq<int>, ys: seq<int>, m: nat): (y: map<int, int>)
    requires m <= |xs| <= |ys|
  {
    if m == 0 then map[] else Table(xs, ys, m - 1)[xs[m - 1] := ys[m - 1]]
  }

  ghost predicate Distinct(p: int, xs: seq<int>)
    requires p > 0
  {
    forall i, j :: 0 <= i < |xs| && 0 <= j < |xs| && i != j ==> !Cong(p, xs[i] - xs[j], 0)
  }

  lemma DistinctPoints(p: int, xs: seq<int>)
    requires p > 0 && Distinct(p, xs)
    ensures forall i, j :: 0 <= i < |xs| && 0 <= j < |xs| && i != j ==> xs[i] != xs[j]
  {
    CongSame(p, 0, 0);
  }

  lemma {:induction false} TableAt(p: int, xs: seq<int>, ys: seq<int>, m: nat, i: nat)
    requires p > 0 && Distinct(p, xs) && i < m <= |xs| <= |ys|
    ensures At(Table(xs, ys, m), xs[i]) == ys[i]
    decreases m
  {
    if i < m - 1 {
      DistinctPoints(p, xs);
      TableAt(p, xs, ys, m - 1, i);
    }
  }

  lemma {:induction false} PrefixCount(p: int, xs: seq<int>, m: nat)
    requires p > 0 && Distinct(p, xs) && m <= |xs|
    ensures |Prefix(xs, m)| == m
  {
    if m > 0 {
      PrefixCount(p, xs, m - 1);
      InPrefix(xs, m - 1);
      DistinctPoints(p, xs);
    }
  }

  lemma PrefixApart(p: int, xs: seq<int>)
    requires p > 0 && Distinct(p, xs)
    ensures Apart(p, Prefix(xs, |xs|))
  {
    InPrefix(xs, |xs|);
  }

  /** One factor of a basis product, reduced. */
  lemma FactorReduces(p: int, r: int, s: set<int>, x: int, v: int)
    requires p > 0 && x !in s && Cong(p, r, Pi(s, v))
    ensures Cong(p, (r * (v - x)) % p, Pi(s + {x}, v))
  {
    PiSplit(s + {x}, x, v);
    assert s + {x} - {x} == s;
    CongScale(p, v - x, r, Pi(s, v));
    CongMod(p, r * (v - x));
    CongTrans(p, (r * (v - x)) % p, (v - x) * r, (v - x) * Pi(s, v));
  }

  ghost function Others(xs: seq<int>, j: nat, m: nat): set<int>
    requires j < |xs| && m <= |xs|
  {
    Prefix(xs, m) - {xs[j]}
  }

  /** The next point is new among the others, unless it is the point left out. */
  lemma NextOther(p: int, xs: seq<int>, j: nat, m: nat)
    requires p > 0 && Distinct(p, xs) && j < |xs| && m < |xs|
    ensures m == j ==> Others(xs, j, m + 1) == Others(xs, j, m)
    ensures m != j ==> Others(xs, j, m + 1) == Others(xs, j, m) + {xs[m]} && xs[m] !in Others(xs, j, m)
  {
    InPrefix(xs, m);
    DistinctPoints(p, xs);
  }

  lemma BasisStep(p: int, xs: seq<int>, j: nat, m: nat, r: int, v: int)
    requires p > 0 && Distinct(p, xs) && j < |xs| && m < |xs| && Cong(p, r, Pi(Others(xs, j, m), v))
    ensures m == j ==> Cong(p, r, Pi(Others(xs, j, m + 1), v))
    ensures m != j ==> Cong(p, (r * (v - xs[m])) % p, Pi(Others(xs, j, m + 1), v))
  {
    NextOther(p, xs, j, m);
    if m != j {
      FactorReduces(p, r, Others(xs, j, m), xs[m], v);
    }
  }

  /** Numerator and denominator of the basis polynomial of point `j` at 0. */
  method Basis(p: int, xs: seq<int>, j: nat) returns (num: int, den: int)
    requires p > 1 && Distinct(p, xs) && j < |xs|
    ensures 0 <= num < p && Cong(p, num, Pi(Prefix(xs, |xs|) - {xs[j]}, 0))
    ensures 0 <= den < p && Cong(p, den, Pi(Prefix(xs, |xs|) - {xs[j]}, xs[j]))
  {
    num := 1;
    den := 1;
    CongSame(p, 1, 1);
    var m := 0;
    while m < |xs|
      invariant 0 <= m <= |xs|
      invariant 0 <= num < p && Cong(p, num, Pi(Others(xs, j, m), 0))
      invariant 0 <= den < p && Cong(p, den, Pi(Others(xs, j, m), xs[j]))
    {
      BasisStep(p, xs, j, m, num, 0);
      BasisStep(p, xs, j, m, den, xs[j]);
      if m == j {
        m := m + 1;
        continue;
      }
      num := (num * (0 - xs[m])) % p;
      den := (den * (xs[j] - xs[m])) % p;
      m := m + 1;
    }
  }

  lemma InverseOfResidue(p: int, den: int, d: int)
    requires 0 <= den < p && Cong(p, den, d)
    ensures Inverse(p, den) == Inverse(p, d)
  {
    ResidueIs(p, den, d);
    ResidueIs(p, den, den) by { CongSame(p, den, den); }
  }

  /** One summand, reduced after each product. */
  lemma TermReduces(p: int, r: int, sum: int, y: int, num: int, n: int, inv: int)
    requires p > 0 && Cong(p, r, sum) && Cong(p, num, n)
    ensures Cong(p, (r + (((y * num) % p) * inv) % p) % p, n * inv * y + sum)
  {
    var a := (y * num) % p;
    CongMod(p, y * num);
    CongScale(p, y, num, n);
    CongTrans(p, a, y * num, y * n);
    CongScale(p, inv, a, y * n);
    MulSwap(inv, y, n);
    MulSwap(y, inv, n);
    CongMod(p, a * inv);
    CongTrans(p, (a * inv) % p, inv * a, inv * (y * n));
    AddReduced(p, r, sum, (a * inv) % p, inv * (y * n));
    TermAlgebra(n, inv, y);
  }

  lemma TermAlgebra(n: int, inv: int, y: int)
    ensures inv * (y * n) == n * inv * y
  {
  }

  lemma AddReduced(p: int, r: int, sum: int, term: int, v: int)
    requires p > 0 && Cong(p, r, sum) && Cong(p, term, v)
    ensures Cong(p, (r + term) % p, v + sum)
  {
    CongAdd(p, term, v, r, sum);
    CongMod(p, r + term);
    CongTrans(p, (r + term) % p, r + term, v + sum);
  }

  ghost function Partial(p: int, xs: seq<int>, ys: seq<int>, j: nat): int
    requires j <= |xs| <= |ys|
  {
    Dot(Prefix(xs, j), Weights(p, Prefix(xs, |xs|)), Table(xs, ys, |xs|))
  }

  lemma NextPartial(p: int, xs: seq<int>, ys: seq<int>, j: nat)
    requires p > 0 && Distinct(p, xs) && j < |xs| <= |ys|
    ensures Partial(p, xs, ys, j + 1) == Weight(p, Prefix(xs, |xs|), xs[j]) * ys[j] + Partial(p, xs, ys, j)
  {
    var w, y := Weights(p, Prefix(xs, |xs|)), Table(xs, ys, |xs|);
    DistinctPoints(p, xs);
    InPrefix(xs, j);
    InPrefix(xs, |xs|);
    TableAt(p, xs, ys, |xs|, j);
    DotSplit(Prefix(xs, j + 1), w, y, xs[j]);
    assert Prefix(xs, j + 1) - {xs[j]} == Prefix(xs, j);
    assert At(w, xs[j]) == Weight(p, Prefix(xs, |xs|), xs[j]);
  }

  /** The value at 0 of the polynomial through the points. */
  method InterpolateAtZero(p: int, xs: seq<int>, ys: seq<int>) returns (r: int)
    requires Prime(p) && |xs| <= |ys| && Distinct(p, xs)
    ensures r == Interp(p, Prefix(xs, |xs|), Table(xs, ys, |xs|)) % p
  {
    r := 0;
    CongSame(p, 0, 0);
    var j := 0;
    while j < |xs|
      invariant 0 <= j <= |xs|
      invariant 0 <= r < p && Cong(p, r, Partial(p, xs, ys, j))
    {
      ghost var rest := Prefix(xs, |xs|) - {xs[j]};
      var num, den := Basis(p, xs, j);
      InverseOfResidue(p, den, Pi(rest, xs[j]));
      TermReduces(p, r, Partial(p, xs, ys, j), ys[j], num, Pi(rest, 0), Inverse(p, den));
      NextPartial(p, xs, ys, j);
      var term := (ys[j] * num) % p;
      term := (term * Inverse(p, den)) % p;
      r := (r + term) % p;
      j := j + 1;
    }
    if r < 0 {
      r := r + p;
    }
    ResidueIs(p, r, Partial(p, xs, ys, |xs|));
  }

  /** Values of a polynomial with no more coefficients than points give back its constant term. */
  lemma ExactOnValues(p: int, xs: seq<int>, ys: seq<int>, c: seq<int>)
    requires Prime(p) && Distinct(p, xs) && 0 < |xs| <= |ys| && |c| <= |xs|
    requires forall i :: 0 <= i < |xs| ==> Cong(p, ys[i], Eval(c, xs[i]))
    ensures Interp(p, Prefix(xs, |xs|), Table(xs, ys, |xs|)) % p == Eval(c, 0) % p
  {
    var s, y := Prefix(xs, |xs|), Table(xs, ys, |xs|);
    PrefixCount(p, xs, |xs|);
    PrefixApart(p, xs);
    InPrefix(xs, |xs|);
    forall x | x in s ensures Cong(p, At(y, x), At(Values(s, c), x)) {
      var i :| 0 <= i < |xs| && xs[i] == x;
      TableAt(p, xs, ys, |xs|, i);
    }
    DotCong(p, s, Weights(p, s), y, Values(s, c));
    InterpolationIsExact(p, s, c);
    CongTrans(p, Interp(p, s, y), Interp(p, s, Values(s, c)), Eval(c, 0));
    CongResidues(p, Interp(p, s, y), Eval(c, 0));
  }

  /** Interpolating lists is interpolating the slices they were taken from. */
  lemma ListsOfSlices(p: int, xs: seq<int>, ys: seq<int>, f: map<int, seq<int>>)
    requires Prime(p) && Distinct(p, xs) && |xs| <= |ys|
    requires forall i :: 0 <= i < |xs| ==> ys[i] == Eval(Slice(f, xs[i]), 0) % p
    ensures Cong(p, Interp(p, Prefix(xs, |xs|), Table(xs, ys, |xs|)),
                 Interp(p, Prefix(xs, |xs|), Zeros(Prefix(xs, |xs|), f)))
  {
    var s, y := Prefix(xs, |xs|), Table(xs, ys, |xs|);
    InPrefix(xs, |xs|);
    forall x | x in s ensures Cong(p, At(y, x), At(Zeros(s, f), x)) {
      var i :| 0 <= i < |xs| && xs[i] == x;
      TableAt(p, xs, ys, |xs|, i);
      CongMod(p, Eval(Slice(f, x), 0));
    }
    DotCong(p, s, Weights(p, s), y, Zeros(s, f));
  }

  /** Sharing a secret and interpolating the slices of any `t + 1` nodes gives the secret back. */
  lemma ShareReconstruct(p: int, c: seq<seq<int>>, f: map<int, seq<int>>, xs: seq<int>, ys: seq<int>)
    requires Prime(p) && Distinct(p, xs) && c != [] && Rectangular(c, |c|) && |c| <= |xs| <= |ys|
    requires forall i :: 0 <= i < |xs| ==> SliceOf(p, c, xs[i], Slice(f, xs[i]))
    requires forall i :: 0 <= i < |xs| ==> ys[i] == Eval(Slice(f, xs[i]), 0) % p
    ensures Interp(p, Prefix(xs, |xs|), Table(xs, ys, |xs|)) % p == c[0][0] % p
  {
    var s := Prefix(xs, |xs|);
    PrefixCount(p, xs, |xs|);
    PrefixApart(p, xs);
    ListsOfSlices(p, xs, ys, f);
    forall k | k in s ensures SliceOf(p, c, k, Slice(f, k)) {
      InPrefix(xs, |xs|);
      var i :| 0 <= i < |xs| && xs[i] == k;
    }
    SlicesGiveSecret(p, c, s, f);
    var r := Interp(p, s, Table(xs, ys, |xs|));
    CongTrans(p, r, Interp(p, s, Zeros(s, f)), c[0][0]);
    CongResidues(p, r, c[0][0]);
  }
}
