/** Bivariate polynomials as coefficient matrices, and their slices. */
module Bivariate {
  import opened Modular
  import opened Lagrange
  import opened Sharing

  /** Row `i` holds the coefficients of `x^i * y^0`, `x^i * y^1`, ...; all rows have `m` entries. */
  ghost predicate Rectangular(c: seq<seq<int>>, m: nat) {
    forall i :: 0 <= i < |c| ==> |c[i]| == m
  }

  ghost predicate Symmetric(c: seq<seq<int>>) {
    && Rectangular(c, |c|)
    && forall i, j :: 0 <= i < |c| && 0 <= j < |c| ==> c[i][j] == c[j][i]
  }

  /** The values of the rows at `y`. */
  ghost function RowValues(c: seq<seq<int>>, y: int): (v: seq<int>)
    ensures |v| == |c| && forall i :: 0 <= i < |c| ==> v[i] == Eval(c[i], y)
  {
    if c == [] then [] else [Eval(c[0], y)] + RowValues(c[1..], y)
  }

  /** `F(x, y)`: the sum of `c[i][j] * x^i * y^j`. */
  ghost function BiEval(c: seq<seq<int>>, x: int, y: int): int {
    Eval(RowValues(c, y), x)
  }

  ghost function Column(c: seq<seq<int>>, m: nat, j: nat): (v: seq<int>)
    requires Rectangular(c, m) && j < m
    ensures |v| == |c| && forall i :: 0 <= i < |c| ==> v[i] == c[i][j]
  {
    if c == [] then [] else [c[0][j]] + Column(c[1..], m, j)
  }

  /** `a + x * b`, coefficient by coefficient. */
  ghost function Blend(a: seq<int>, x: int, b: seq<int>): (v: seq<int>)
    requires |a| == |b|
    ensures |v| == |a| && forall j :: 0 <= j < |a| ==> v[j] == a[j] + x * b[j]
  {
    if a == [] then [] else [a[0] + x * b[0]] + Blend(a[1..], x, b[1..])
  }

  /** The slice `F(x, .)`: its coefficients are the columns' values at `x`. */
  ghost function SliceAt(c: seq<seq<int>>, m: nat, x: int): (v: seq<int>)
    requires Rectangular(c, m)
    ensures |v| == m
  {
    if c == [] then seq(m, j => 0) else Blend(c[0], x, SliceAt(c[1..], m, x))
  }

  lemma {:induction false} SliceCoefficient(c: seq<seq<int>>, m: nat, x: int, j: nat)
    requires Rectangular(c, m) && j < m
    ensures SliceAt(c, m, x)[j] == Eval(Column(c, m, j), x)
  {
    if c != [] {
      SliceCoefficient(c[1..], m, x, j);
      assert Column(c, m, j)[1..] == Column(c[1..], m, j);
    }
  }

  lemma {:induction false} EvalZeros(c: seq<int>, y: int)
    requires forall j :: 0 <= j < |c| ==> c[j] == 0
    ensures Eval(c, y) == 0
  {
    if c != [] {
      EvalZeros(c[1..], y);
    }
  }

  lemma {:induction false} EvalBlend(a: seq<int>, x: int, b: seq<int>, y: int)
    requires |a| == |b|
    ensures Eval(Blend(a, x, b), y) == Eval(a, y) + x * Eval(b, y)
  {
    if a != [] {
      EvalBlend(a[1..], x, b[1..], y);
      assert Blend(a, x, b)[1..] == Blend(a[1..], x, b[1..]);
      BlendAlgebra(a[0], b[0], x, y, Eval(a[1..], y), Eval(b[1..], y));
    }
  }

  lemma BlendAlgebra(a0: int, b0: int, x: int, y: int, ra: int, rb: int)
    ensures a0 + x * b0 + y * (ra + x * rb) == a0 + y * ra + x * (b0 + y * rb)
  {
  }

  /** A slice evaluates to the bivariate polynomial. */
  lemma {:induction false} SliceIsBiEval(c: seq<seq<int>>, m: nat, x: int, y: int)
    requires Rectangular(c, m)
    ensures Eval(SliceAt(c, m, x), y) == BiEval(c, x, y)
  {
    if c == [] {
      EvalZeros(SliceAt(c, m, x), y);
    } else {
      SliceIsBiEval(c[1..], m, x, y);
      EvalBlend(c[0], x, SliceAt(c[1..], m, x), y);
      assert RowValues(c, y)[1..] == RowValues(c[1..], y);
    }
  }

  /** A symmetric matrix gives a symmetric polynomial. */
  lemma SymmetricValues(c: seq<seq<int>>, x: int, y: int)
    requires Symmetric(c)
    ensures BiEval(c, x, y) == BiEval(c, y, x)
  {
    var m := |c|;
    SliceIsBiEval(c, m, x, y);
    forall j | 0 <= j < m ensures SliceAt(c, m, x)[j] == RowValues(c, x)[j] {
      SliceCoefficient(c, m, x, j);
      assert Column(c, m, j) == c[j];
    }
    assert SliceAt(c, m, x) == RowValues(c, x);
  }

  /** `f` has the coefficients of the slice `F(x, .)` modulo `p`. */
  ghost predicate SliceOf(p: int, c: seq<seq<int>>, x: int, f: seq<int>)
    requires p > 0 && Rectangular(c, |c|)
  {
    |f| == |c| && forall j :: 0 <= j < |c| ==> Cong(p, f[j], Eval(Column(c, |c|, j), x))
  }

  lemma {:induction false} EvalCong(p: int, a: seq<int>, b: seq<int>, y: int)
    requires p > 0 && |a| == |b| && forall j :: 0 <= j < |a| ==> Cong(p, a[j], b[j])
    ensures Cong(p, Eval(a, y), Eval(b, y))
  {
    if a == [] {
      CongSame(p, 0, 0);
    } else {
      EvalCong(p, a[1..], b[1..], y);
      CongScale(p, y, Eval(a[1..], y), Eval(b[1..], y));
      CongAdd(p, a[0], b[0], y * Eval(a[1..], y), y * Eval(b[1..], y));
    }
  }

  /** The slice dealt to node `k` has the value `F(k, y)` at `y`. */
  lemma SliceValue(p: int, c: seq<seq<int>>, k: int, f: seq<int>, y: int)
    requires p > 0 && Rectangular(c, |c|) && SliceOf(p, c, k, f)
    ensures Cong(p, Eval(f, y), BiEval(c, k, y))
  {
    var m := |c|;
    forall j | 0 <= j < m ensures Cong(p, f[j], SliceAt(c, m, k)[j]) {
      SliceCoefficient(c, m, k, j);
    }
    EvalCong(p, f, SliceAt(c, m, k), y);
    SliceIsBiEval(c, m, k, y);
  }

  /** Slices of one symmetric polynomial agree with each other. */
  lemma SlicesAgree(p: int, c: seq<seq<int>>, f: map<int, seq<int>>, k: int, j: int)
    requires p > 0 && Symmetric(c) && SliceOf(p, c, k, Slice(f, k)) && SliceOf(p, c, j, Slice(f, j))
    ensures Agree(p, f, k, j)
  {
    SliceValue(p, c, k, Slice(f, k), j);
    SliceValue(p, c, j, Slice(f, j), k);
    SymmetricValues(c, k, j);
    CongSym(p, Eval(Slice(f, j), k), BiEval(c, j, k));
    CongTrans(p, Eval(Slice(f, k), j), BiEval(c, k, j), Eval(Slice(f, j), k));
  }

  /** Slices of one polynomial, taken at any `|c|` points, give back `F(0, 0)`. */
  lemma SlicesGiveSecret(p: int, c: seq<seq<int>>, s: set<int>, f: map<int, seq<int>>)
    requires Prime(p) && c != [] && Rectangular(c, |c|) && Points(p, s, |c|)
    requires forall k :: k in s ==> SliceOf(p, c, k, Slice(f, k))
    ensures Cong(p, Interp(p, s, Zeros(s, f)), c[0][0])
  {
    var first := Column(c, |c|, 0);
    forall k | k in s ensures Cong(p, At(Zeros(s, f), k), At(Values(s, first), k)) {
      ConstantTerm(Slice(f, k));
    }
    DotCong(p, s, Weights(p, s), Zeros(s, f), Values(s, first));
    InterpolationIsExact(p, s, first);
    ConstantTerm(first);
    CongTrans(p, Interp(p, s, Zeros(s, f)), Interp(p, s, Values(s, first)), c[0][0]);
  }

  lemma ConstantTerm(c: seq<int>)
    requires c != []
    ensures Eval(c, 0) == c[0]
  {
  }
}
