/** Polynomials as coefficient lists, and Lagrange interpolation at 0 modulo a prime. */
module Lagrange {
  import opened Modular
  import opened Products

  /** `c[0] + c[1] * x + c[2] * x * x + ...`, over the integers. */
  function Eval(c: seq<int>, x: int): int {
    if c == [] then 0 else c[0] + x * Eval(c[1..], x)
  }

  /** The quotient of `c` by `x - a`. */
  function Quotient(c: seq<int>, a: int): (q: seq<int>)
    ensures |q| == (if c == [] then 0 else |c| - 1)
  {
    if |c| <= 1 then [] else [Eval(c[1..], a)] + Quotient(c[1..], a)
  }

  lemma {:induction false} DivisionByRoot(c: seq<int>, a: int, x: int)
    ensures Eval(c, x) == Eval(c, a) + (x - a) * Eval(Quotient(c, a), x)
  {
    if |c| > 1 {
      var r := c[1..];
      DivisionByRoot(r, a, x);
      var q := Quotient(r, a);
      assert Quotient(c, a)[1..] == q;
      HornerStep(x, a, Eval(r, a), Eval(q, x));
    } else {
      assert |c| == 1 ==> c[1..] == [];
    }
  }

  lemma HornerStep(x: int, a: int, ra: int, qx: int)
    ensures x * (ra + (x - a) * qx) == a * ra + (x - a) * (ra + x * qx)
  {
  }

  // ------------------------------------------------------------- weighted sums

  function At(y: map<int, int>, j: int): int {
    if j in y then y[j] else 0
  }

  /** The weighted sum of the values `y` over the points `s`. */
  ghost function Dot(s: set<int>, w: map<int, int>, y: map<int, int>): int
    decreases |s|
  {
    if s == {} then 0
    else
      var j := Choose(s);
      At(w, j) * At(y, j) + Dot(s - {j}, w, y)
  }

  /** Any point can be split off first. */
  lemma {:induction false} DotSplit(s: set<int>, w: map<int, int>, y: map<int, int>, j: int)
    requires j in s
    ensures Dot(s, w, y) == At(w, j) * At(y, j) + Dot(s - {j}, w, y)
    decreases |s|
  {
    var k := Choose(s);
    if k != j {
      DotSplit(s - {k}, w, y, j);
      DotSplit(s - {j}, w, y, k);
      assert s - {k} - {j} == s - {j} - {k};
    }
  }

  lemma {:induction false} DotCong(p: int, s: set<int>, w: map<int, int>, y: map<int, int>, z: map<int, int>)
    requires p > 0 && forall j :: j in s ==> Cong(p, At(y, j), At(z, j))
    ensures Cong(p, Dot(s, w, y), Dot(s, w, z))
    decreases |s|
  {
    if s == {} {
      CongSame(p, 0, 0);
    } else {
      var j := Choose(s);
      DotCong(p, s - {j}, w, y, z);
      CongScale(p, At(w, j), At(y, j), At(z, j));
      CongAdd(p, At(w, j) * At(y, j), At(w, j) * At(z, j), Dot(s - {j}, w, y), Dot(s - {j}, w, z));
    }
  }

  lemma {:induction false} DotLinear(s: set<int>, w: map<int, int>, a: int,
                                     y: map<int, int>, z: map<int, int>, x: map<int, int>)
    requires forall j :: j in s ==> At(x, j) == a * At(y, j) + At(z, j)
    ensures Dot(s, w, x) == a * Dot(s, w, y) + Dot(s, w, z)
    decreases |s|
  {
    if s == {} {
    } else {
      var j := Choose(s);
      DotLinear(s - {j}, w, a, y, z, x);
      MulAdd(At(w, j), a * At(y, j), At(z, j));
      MulSwap(At(w, j), a, At(y, j));
      MulAdd(a, At(w, j) * At(y, j), Dot(s - {j}, w, y));
    }
  }

  /** Weights `w'` for one point less: a factor `j - i` turns into a factor `-i`. */
  ghost predicate Drops(p: int, s: set<int>, i: int, w: map<int, int>, w': map<int, int>)
    requires p > 0
  {
    forall j :: j in s && j != i ==> Cong(p, (j - i) * At(w, j), (-i) * At(w', j))
  }

  lemma {:induction false} DotDrop(p: int, s: set<int>, i: int, w: map<int, int>, w': map<int, int>,
                                   z: map<int, int>, x: map<int, int>)
    requires p > 0 && i !in s && Drops(p, s, i, w, w')
    requires forall j :: j in s ==> At(x, j) == (j - i) * At(z, j)
    ensures Cong(p, Dot(s, w, x), (-i) * Dot(s, w', z))
    decreases |s|
  {
    if s == {} {
      CongSame(p, 0, 0);
    } else {
      var j := Choose(s);
      DotDrop(p, s - {j}, i, w, w', z, x);
      DropTerm(p, j - i, At(z, j), At(w, j), -i, At(w', j));
      MulAdd(-i, At(w', j) * At(z, j), Dot(s - {j}, w', z));
      CongAdd(p, At(w, j) * At(x, j), (-i) * (At(w', j) * At(z, j)),
              Dot(s - {j}, w, x), (-i) * Dot(s - {j}, w', z));
    }
  }

  lemma DropTerm(p: int, d: int, z: int, w: int, e: int, w': int)
    requires p > 0 && Cong(p, d * w, e * w')
    ensures Cong(p, w * (d * z), e * (w' * z))
  {
    CongScale(p, z, d * w, e * w');
    Rotate(z, d, w);
    Rotate(z, e, w');
    MulSwap(d, w, z);
  }

  lemma Rotate(z: int, d: int, w: int)
    ensures z * (d * w) == d * (w * z)
  {
    MulSwap(z, d, w);
  }

  // -------------------------------------------------------------- interpolation

  /** The weight of point `j` among the points `s`: the Lagrange basis polynomial of `j` at 0. */
  ghost function Weight(p: int, s: set<int>, j: int): int {
    Pi(s - {j}, 0) * Inverse(p, Pi(s - {j}, j))
  }

  ghost function Weights(p: int, s: set<int>): map<int, int> {
    map j | j in s :: Weight(p, s, j)
  }

  /** Lagrange interpolation at 0 of the values `y` at the points `s`. */
  ghost function Interp(p: int, s: set<int>, y: map<int, int>): int {
    Dot(s, Weights(p, s), y)
  }

  ghost function Values(s: set<int>, c: seq<int>): map<int, int> {
    map j | j in s :: Eval(c, j)
  }

  ghost function Ones(s: set<int>): map<int, int> {
    map j | j in s :: 1
  }

  ghost function Shifted(s: set<int>, a: int): map<int, int> {
    map j | j in s :: j - a
  }

  /** The points are distinct modulo `p`. */
  ghost predicate Apart(p: int, s: set<int>)
    requires p > 0
  {
    forall i, j :: i in s && j in s && i != j ==> !Cong(p, i - j, 0)
  }

  lemma InverseOfProduct(p: int, a: int, d: int, v: int, w: int)
    requires Prime(p) && !Cong(p, d, 0) && Cong(p, a * d * v, 1) && Cong(p, d * w, 1)
    ensures Cong(p, a * v, w)
  {
    MulSwap(d, a, v);
    MulAssoc(a, d, v);
    CongSym(p, d * w, 1);
    CongTrans(p, d * (a * v), 1, d * w);
    Cancel(p, d, a * v, w);
  }

  lemma WeightAlgebra(p: int, d: int, e: int, n: int, v: int, w: int)
    requires p > 0 && Cong(p, d * v, w)
    ensures Cong(p, d * (e * n * v), e * (n * w))
  {
    CongScale(p, e * n, d * v, w);
    MulSwap(d, e * n, v);
    MulAssoc(e, n, w);
  }

  lemma WeightDrop(p: int, s: set<int>, i: int, j: int)
    requires Prime(p) && Apart(p, s) && i in s && j in s && i != j
    ensures Cong(p, (j - i) * Weight(p, s, j), (-i) * Weight(p, s - {i}, j))
  {
    var t := s - {i} - {j};
    assert s - {j} - {i} == t;
    var n, d := Pi(t, 0), Pi(t, j);
    assert Pi(s - {j}, 0) == (0 - i) * n by { PiSplit(s - {j}, i, 0); }
    assert Pi(s - {j}, j) == (j - i) * d by { PiSplit(s - {j}, i, j); }
    PiNonzero(p, t, j);
    WeightsByParts(p, j - i, -i, n, d);
  }

  lemma WeightsByParts(p: int, a: int, e: int, n: int, d: int)
    requires Prime(p) && !Cong(p, a, 0) && !Cong(p, d, 0)
    ensures Cong(p, a * (e * n * Inverse(p, a * d)), e * (n * Inverse(p, d)))
  {
    NonzeroProduct(p, a, d);
    InverseWorks(p, a * d);
    InverseWorks(p, d);
    InverseOfProduct(p, a, d, Inverse(p, a * d), Inverse(p, d));
    WeightAlgebra(p, a, e, n, Inverse(p, a * d), Inverse(p, d));
  }

  lemma WeightsDrop(p: int, s: set<int>, i: int)
    requires Prime(p) && Apart(p, s) && i in s
    ensures Drops(p, s, i, Weights(p, s), Weights(p, s - {i}))
  {
    forall j | j in s && j != i
      ensures Cong(p, (j - i) * At(Weights(p, s), j), (-i) * At(Weights(p, s - {i}), j))
    {
      WeightDrop(p, s, i, j);
    }
  }

  /** A value that vanishes at `i` is interpolated from the other points. */
  lemma DropPoint(p: int, s: set<int>, i: int, w: map<int, int>, w': map<int, int>,
                  z: map<int, int>, x: map<int, int>)
    requires p > 0 && i in s && Drops(p, s, i, w, w')
    requires forall j :: j in s ==> At(x, j) == (j - i) * At(z, j)
    ensures Cong(p, Dot(s, w, x), (-i) * Dot(s - {i}, w', z))
  {
    assert At(x, i) == 0;
    assert Dot(s, w, x) == Dot(s - {i}, w, x) by { DotSplit(s, w, x, i); }
    DotDrop(p, s - {i}, i, w, w', z, x);
  }

  lemma ApartPair(p: int, s: set<int>, a: int, b: int)
    requires p > 0 && Apart(p, s) && a in s && b in s && a != b
    ensures !Cong(p, b - a, 0)
  {
  }

  /** The weights of any nonempty set of points add up to 1. */
  lemma {:induction false} WeightsSumToOne(p: int, s: set<int>)
    requires Prime(p) && Apart(p, s) && s != {}
    ensures Cong(p, Interp(p, s, Ones(s)), 1)
    decreases |s|, 1
  {
    var a := Choose(s);
    if s - {a} == {} {
      SinglePoint(p, s, a);
    } else {
      var b := Choose(s - {a});
      assert a in s - {b};
      PointsFrom(p, s, a);
      PointsFrom(p, s, b);
      ApartPair(p, s, a, b);
      TwoPoints(p, s, Weights(p, s), a, b);
    }
  }

  /** Interpolating `x - a` gives `-a`, by induction on the number of points. */
  lemma {:induction false} PointsFrom(p: int, s: set<int>, a: int)
    requires Prime(p) && Apart(p, s) && a in s && s - {a} != {}
    ensures Cong(p, Interp(p, s, Shifted(s, a)), -a)
    decreases |s|, 0
  {
    WeightsSumToOne(p, s - {a});
    WeightsDrop(p, s, a);
    DropOnes(p, s, a, Weights(p, s), Weights(p, s - {a}));
  }

  lemma DropOnes(p: int, s: set<int>, a: int, w: map<int, int>, w': map<int, int>)
    requires p > 0 && a in s && Drops(p, s, a, w, w') && Cong(p, Dot(s - {a}, w', Ones(s - {a})), 1)
    ensures Cong(p, Dot(s, w, Shifted(s, a)), -a)
  {
    var t := s - {a};
    forall j | j in s ensures At(Shifted(s, a), j) == (j - a) * At(Ones(t), j) {
    }
    DropPoint(p, s, a, w, w', Ones(t), Shifted(s, a));
    CongScale(p, -a, Dot(t, w', Ones(t)), 1);
    CongTrans(p, Dot(s, w, Shifted(s, a)), (-a) * Dot(t, w', Ones(t)), -a);
  }

  lemma SinglePoint(p: int, s: set<int>, a: int)
    requires Prime(p) && a in s && s - {a} == {}
    ensures Cong(p, Interp(p, s, Ones(s)), 1)
  {
    DotSplit(s, Weights(p, s), Ones(s), a);
    PiNonzero(p, {}, a);
    InverseWorks(p, 1);
  }

  /** Two points `a` and `b` with known sums of `x - a` and `x - b` fix the sum of the weights. */
  lemma TwoPoints(p: int, s: set<int>, w: map<int, int>, a: int, b: int)
    requires Prime(p) && !Cong(p, b - a, 0)
    requires Cong(p, Dot(s, w, Shifted(s, a)), -a) && Cong(p, Dot(s, w, Shifted(s, b)), -b)
    ensures Cong(p, Dot(s, w, Ones(s)), 1)
  {
    DotLinear(s, w, b - a, Ones(s), Shifted(s, b), Shifted(s, a));
    CombineTwo(p, a, b, Dot(s, w, Ones(s)), Dot(s, w, Shifted(s, a)), Dot(s, w, Shifted(s, b)));
  }

  lemma CombineTwo(p: int, a: int, b: int, total: int, ia: int, ib: int)
    requires Prime(p) && !Cong(p, b - a, 0)
    requires ia == (b - a) * total + ib && Cong(p, ia, -a) && Cong(p, ib, -b)
    ensures Cong(p, total, 1)
  {
    var k := CongElim(p, ia, -a);
    var l := CongElim(p, ib, -b);
    CongIntro(p, (b - a) * total, (b - a) * 1, k - l);
    Cancel(p, b - a, total, 1);
  }

  /** Lagrange: a polynomial with at most as many coefficients as there are points is recovered at 0. */
  lemma {:induction false} InterpolationIsExact(p: int, s: set<int>, c: seq<int>)
    requires Prime(p) && Apart(p, s) && s != {} && |c| <= |s|
    ensures Cong(p, Interp(p, s, Values(s, c)), Eval(c, 0))
    decreases |s|
  {
    var i := Choose(s);
    var q := Quotient(c, i);
    var t := s - {i};
    WeightsSumToOne(p, s);
    if t == {} {
      assert |s| == |t| + 1;
      CongSame(p, Interp(p, t, Values(t, q)), Eval(q, 0));
    } else {
      InterpolationIsExact(p, t, q);
    }
    WeightsDrop(p, s, i);
    DropDegree(p, s, i, c, Weights(p, s), Weights(p, t));
  }

  ghost function Product(s: set<int>, i: int, q: seq<int>): map<int, int> {
    map j | j in s :: (j - i) * Eval(q, j)
  }

  /** The values of `c` are those of its quotient by `x - i`, times `x - i`, plus a constant. */
  lemma SplitValues(s: set<int>, i: int, c: seq<int>, w: map<int, int>)
    ensures Dot(s, w, Values(s, c)) == Eval(c, i) * Dot(s, w, Ones(s)) + Dot(s, w, Product(s, i, Quotient(c, i)))
  {
    var q := Quotient(c, i);
    forall j | j in s
      ensures At(Values(s, c), j) == Eval(c, i) * At(Ones(s), j) + At(Product(s, i, q), j)
    {
      DivisionByRoot(c, i, j);
    }
    DotLinear(s, w, Eval(c, i), Ones(s), Product(s, i, q), Values(s, c));
  }

  lemma DropProduct(p: int, s: set<int>, i: int, w: map<int, int>, w': map<int, int>, q: seq<int>)
    requires p > 0 && i in s && Drops(p, s, i, w, w')
    ensures Cong(p, Dot(s, w, Product(s, i, q)), (-i) * Dot(s - {i}, w', Values(s - {i}, q)))
  {
    var z := Values(s - {i}, q);
    forall j | j in s ensures At(Product(s, i, q), j) == (j - i) * At(z, j) {
    }
    DropPoint(p, s, i, w, w', z, Product(s, i, q));
  }

  /** One point and one degree less. */
  lemma DropDegree(p: int, s: set<int>, i: int, c: seq<int>, w: map<int, int>, w': map<int, int>)
    requires p > 0 && i in s && Drops(p, s, i, w, w') && Cong(p, Dot(s, w, Ones(s)), 1)
    requires Cong(p, Dot(s - {i}, w', Values(s - {i}, Quotient(c, i))), Eval(Quotient(c, i), 0))
    ensures Cong(p, Dot(s, w, Values(s, c)), Eval(c, 0))
  {
    var t, q := s - {i}, Quotient(c, i);
    SplitValues(s, i, c, w);
    DropProduct(p, s, i, w, w', q);
    DivisionByRoot(c, i, 0);
    AddParts(p, Eval(c, i), i, Dot(s, w, Ones(s)), Dot(s, w, Product(s, i, q)), Dot(t, w', Values(t, q)), Eval(q, 0));
  }

  lemma AddParts(p: int, ci: int, i: int, one: int, v: int, z: int, q0: int)
    requires p > 0 && Cong(p, one, 1) && Cong(p, v, (-i) * z) && Cong(p, z, q0)
    ensures Cong(p, ci * one + v, ci + (0 - i) * q0)
  {
    CongScale(p, ci, one, 1);
    CongScale(p, -i, z, q0);
    CongTrans(p, v, (-i) * z, (-i) * q0);
    CongAdd(p, ci * one, ci, v, (-i) * q0);
  }
}
