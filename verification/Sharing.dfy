/** Reconstruction from slices that pairwise agree: which points are used does not matter. */
module Sharing {
  import opened Modular
  import opened Products
  import opened Lagrange

  /** The slice of node `i`; a node without one counts as the zero polynomial. */
  function Slice(f: map<int, seq<int>>, i: int): seq<int> {
    if i in f then f[i] else []
  }

  /** The slices' values at 0. */
  ghost function Zeros(s: set<int>, f: map<int, seq<int>>): map<int, int> {
    map i | i in s :: Eval(Slice(f, i), 0)
  }

  /** The slices of `i` and `j` agree on their common point. */
  ghost predicate Agree(p: int, f: map<int, seq<int>>, i: int, j: int)
    requires p > 0
  {
    Cong(p, Eval(Slice(f, i), j), Eval(Slice(f, j), i))
  }

  ghost function RowSums(u: set<int>, w: set<int>, ww: map<int, int>, f: map<int, seq<int>>): map<int, int> {
    map i | i in u :: Dot(w, ww, Values(w, Slice(f, i)))
  }

  ghost function CrossValues(u: set<int>, f: map<int, seq<int>>, j: int): map<int, int> {
    map i | i in u :: Eval(Slice(f, i), j)
  }

  /** The columns' sums over the part `v` of the rows `u`. */
  ghost function ColumnSums(v: set<int>, u: set<int>, w: set<int>, uw: map<int, int>,
                            f: map<int, seq<int>>): map<int, int> {
    map j | j in w :: Dot(v, uw, CrossValues(u, f, j))
  }

  lemma DotZero(s: set<int>, w: map<int, int>, x: map<int, int>)
    requires forall j :: j in s ==> At(x, j) == 0
    ensures Dot(s, w, x) == 0
  {
    DotLinear(s, w, 2, x, x, x);
  }

  /** The weighted double sum over the matrix of values, by rows or by columns. */
  lemma {:induction false} DoubleSum(v: set<int>, u: set<int>, w: set<int>, uw: map<int, int>, ww: map<int, int>,
                                     f: map<int, seq<int>>)
    requires v <= u
    ensures Dot(v, uw, RowSums(u, w, ww, f)) == Dot(w, ww, ColumnSums(v, u, w, uw, f))
    decreases |v|
  {
    var all := ColumnSums(v, u, w, uw, f);
    if v == {} {
      DotZero(w, ww, all);
    } else {
      var i := Choose(v);
      var rest := ColumnSums(v - {i}, u, w, uw, f);
      DoubleSum(v - {i}, u, w, uw, ww, f);
      DotLinear(w, ww, At(uw, i), Values(w, Slice(f, i)), rest, all);
    }
  }

  /** `s` is usable as a set of points for slices of at most `size` coefficients. */
  ghost predicate Points(p: int, s: set<int>, size: nat)
    requires p > 0
  {
    Apart(p, s) && s != {} && size <= |s|
  }

  ghost predicate Sized(s: set<int>, f: map<int, seq<int>>, size: nat) {
    forall i :: i in s ==> |Slice(f, i)| <= size
  }

  lemma RowsGiveZeros(p: int, u: set<int>, w: set<int>, uw: map<int, int>, f: map<int, seq<int>>, size: nat)
    requires Prime(p) && Points(p, w, size) && Sized(u, f, size)
    ensures Cong(p, Dot(u, uw, RowSums(u, w, Weights(p, w), f)), Dot(u, uw, Zeros(u, f)))
  {
    var rows, zeros := RowSums(u, w, Weights(p, w), f), Zeros(u, f);
    forall i | i in u ensures Cong(p, At(rows, i), At(zeros, i)) {
      InterpolationIsExact(p, w, Slice(f, i));
    }
    DotCong(p, u, uw, rows, zeros);
  }

  lemma ColumnGivesZero(p: int, u: set<int>, f: map<int, seq<int>>, j: int, size: nat)
    requires Prime(p) && Points(p, u, size) && |Slice(f, j)| <= size
    requires forall i :: i in u ==> Agree(p, f, i, j)
    ensures Cong(p, Interp(p, u, CrossValues(u, f, j)), Eval(Slice(f, j), 0))
  {
    var column, values := CrossValues(u, f, j), Values(u, Slice(f, j));
    forall i | i in u ensures Cong(p, At(column, i), At(values, i)) {
      assert Agree(p, f, i, j);
    }
    DotCong(p, u, Weights(p, u), column, values);
    InterpolationIsExact(p, u, Slice(f, j));
    CongTrans(p, Interp(p, u, column), Interp(p, u, values), Eval(Slice(f, j), 0));
  }

  lemma ColumnsGiveZeros(p: int, u: set<int>, w: set<int>, ww: map<int, int>, f: map<int, seq<int>>, size: nat)
    requires Prime(p) && Points(p, u, size) && Sized(w, f, size)
    requires forall i, j :: i in u && j in w ==> Agree(p, f, i, j)
    ensures Cong(p, Dot(w, ww, ColumnSums(u, u, w, Weights(p, u), f)), Dot(w, ww, Zeros(w, f)))
  {
    var columns, zeros := ColumnSums(u, u, w, Weights(p, u), f), Zeros(w, f);
    forall j | j in w ensures Cong(p, At(columns, j), At(zeros, j)) {
      ColumnGivesZero(p, u, f, j, size);
    }
    DotCong(p, w, ww, columns, zeros);
  }

  /** Two sets of points whose slices agree across give the same value at 0. */
  lemma SubsetIndependence(p: int, u: set<int>, w: set<int>, f: map<int, seq<int>>, size: nat)
    requires Prime(p) && Points(p, u, size) && Points(p, w, size) && Sized(u + w, f, size)
    requires forall i, j :: i in u && j in w ==> Agree(p, f, i, j)
    ensures Cong(p, Interp(p, u, Zeros(u, f)), Interp(p, w, Zeros(w, f)))
  {
    var uw, ww := Weights(p, u), Weights(p, w);
    RowsGiveZeros(p, u, w, uw, f, size);
    DoubleSum(u, u, w, uw, ww, f);
    ColumnsGiveZeros(p, u, w, ww, f, size);
    Chain(p, Dot(u, uw, Zeros(u, f)), Dot(u, uw, RowSums(u, w, ww, f)), Dot(w, ww, Zeros(w, f)));
  }

  lemma Chain(p: int, a: int, b: int, c: int)
    requires p > 0 && Cong(p, b, a) && Cong(p, b, c)
    ensures Cong(p, a, c)
  {
    CongSym(p, b, a);
    CongTrans(p, a, b, c);
  }
}
