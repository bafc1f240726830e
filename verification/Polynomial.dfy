/** Polynomials over a prime field: evaluation, random symmetric polynomials, slices, interpolation at 0. */
module Polynomial {
  import opened Quorums
  import opened Modular
  import opened Lagrange
  import opened Bivariate

  // ----------------------------------------------------------------- evaluation

  function Pow(x: int, k: nat): int {
    if k == 0 then 1 else x * Pow(x, k - 1)
  }

  /** The sum of `c[i] * x^i` for `i` below `k`. */
  ghost function PowerSum(c: seq<int>, x: int, k: nat): int
    requires k <= |c|
  {
    if k == 0 then 0 else PowerSum(c, x, k - 1) + c[k - 1] * Pow(x, k - 1)
  }

  lemma {:induction false} PowerSumShift(c: seq<int>, x: int, k: nat)
    requires 0 < k <= |c|
    ensures PowerSum(c, x, k) == c[0] + x * PowerSum(c[1..], x, k - 1)
  {
    if k > 1 {
      PowerSumShift(c, x, k - 1);
      MulSwap(c[k - 1], x, Pow(x, k - 2));
    }
  }

  /** Nested evaluation is the sum of powers. */
  lemma {:induction false} EvalIsPowerSum(c: seq<int>, x: int)
    ensures Eval(c, x) == PowerSum(c, x, |c|)
  {
    if c != [] {
      EvalIsPowerSum(c[1..], x);
      PowerSumShift(c, x, |c|);
    }
  }

  lemma HornerReduces(p: int, r: int, x: int, a: int, rest: int)
    requires p > 0 && Cong(p, r, rest)
    ensures Cong(p, (r * x + a) % p, a + x * rest)
  {
    CongScale(p, x, r, rest);
    CongSame(p, a, a);
    CongAdd(p, a, a, x * r, x * rest);
    CongMod(p, r * x + a);
    CongTrans(p, (r * x + a) % p, a + x * r, a + x * rest);
  }

  /** Horner's rule, reducing at every step. */
  method Evaluate(p: int, c: seq<int>, x: int) returns (r: int)
    requires p > 0
    ensures 0 <= r < p && r == Eval(c, x) % p
  {
    r := 0;
    var i := |c|;
    CongSame(p, 0, 0);
    while i > 0
      invariant 0 <= i <= |c|
      invariant 0 <= r < p
      invariant Cong(p, r, Eval(c[i..], x))
    {
      i := i - 1;
      assert c[i..][1..] == c[i + 1..];
      HornerReduces(p, r, x, c[i], Eval(c[i + 1..], x));
      r := (r * x + c[i]) % p;
    }
    assert c[0..] == c;
    ResidueIs(p, r, Eval(c, x));
  }

  // ------------------------------------------------------- symmetric polynomials

  /** How many entries of the lower triangle come before row `i`. */
  function Triangle(i: nat): nat {
    if i == 0 then 0 else Triangle(i - 1) + i
  }

  /** The entry in row `i`, column `j <= i`: the secret first, then the random draws in order. */
  function Entry(secret: int, draws: seq<int>, i: nat, j: nat): int {
    var k := Triangle(i) + j - 1;
    if i == 0 then secret else if 0 <= k < |draws| then draws[k] else 0
  }

  ghost function RowOf(a: array2<int>, i: nat, k: nat): (v: seq<int>)
    requires i < a.Length0 && k <= a.Length1
    reads a
    ensures |v| == k && forall j :: 0 <= j < k ==> v[j] == a[i, j]
  {
    if k == 0 then [] else RowOf(a, i, k - 1) + [a[i, k - 1]]
  }

  ghost function RowsOf(a: array2<int>, k: nat): (v: seq<seq<int>>)
    requires k <= a.Length0
    reads a
    ensures |v| == k && forall i :: 0 <= i < k ==> v[i] == RowOf(a, i, a.Length1)
  {
    if k == 0 then [] else RowsOf(a, k - 1) + [RowOf(a, k - 1, a.Length1)]
  }

  class SymmetricPolynomial {
    const coeffs: array2<int>
    const degree: nat

    constructor (coeffs: array2<int>, degree: nat)
      ensures this.coeffs == coeffs && this.degree == degree
    {
      this.coeffs := coeffs;
      this.degree := degree;
    }

    ghost predicate Valid() {
      coeffs.Length0 == degree + 1 && coeffs.Length1 == degree + 1
    }

    ghost function Matrix(): (c: seq<seq<int>>)
      requires Valid()
      reads coeffs
      ensures |c| == degree + 1 && Rectangular(c, degree + 1)
      ensures forall i, j :: 0 <= i <= degree && 0 <= j <= degree ==> c[i][j] == coeffs[i, j]
    {
      RowsOf(coeffs, degree + 1)
    }

    /** The slice `F(k, .)`: each coefficient accumulates one column, with reduced powers of `k`. */
    method GetUnivariate(p: int, k: int) returns (f: seq<int>)
      requires Valid() && p > 0
      ensures SliceOf(p, Matrix(), k, f) && forall j :: 0 <= j < |f| ==> 0 <= f[j] < p
    {
      ghost var c := Matrix();
      var poly := new int[degree + 1];
      var j := 0;
      while j <= degree
        invariant 0 <= j <= degree + 1
        invariant Matrix() == c
        invariant forall b :: 0 <= b < j ==> 0 <= poly[b] < p && Cong(p, poly[b], Eval(Column(c, degree + 1, b), k))
      {
        var coeff := ColumnValue(p, k, j);
        poly[j] := coeff;
        j := j + 1;
      }
      f := poly[..];
    }

    method ColumnValue(p: int, k: int, j: nat) returns (r: int)
      requires Valid() && p > 0 && j <= degree
      ensures 0 <= r < p && Cong(p, r, Eval(Column(Matrix(), degree + 1, j), k))
    {
      ghost var column := Column(Matrix(), degree + 1, j);
      r := 0;
      var i := 0;
      CongSame(p, 0, 0);
      while i <= degree
        invariant 0 <= i <= degree + 1
        invariant 0 <= r < p && Cong(p, r, PowerSum(column, k, i))
      {
        TermReduces(p, r, PowerSum(column, k, i), coeffs[i, j], Pow(k, i));
        var term := (coeffs[i, j] * (Pow(k, i) % p)) % p;
        r := (r + term) % p;
        i := i + 1;
      }
      EvalIsPowerSum(column, k);
    }
  }

  lemma TermReduces(p: int, r: int, sum: int, c: int, pow: int)
    requires p > 0 && Cong(p, r, sum)
    ensures Cong(p, (r + (c * (pow % p)) % p) % p, sum + c * pow)
  {
    var term := c * (pow % p);
    CongMod(p, pow);
    CongScale(p, c, pow % p, pow);
    CongMod(p, term);
    CongTrans(p, term % p, term, c * pow);
    CongAdd(p, r, sum, term % p, c * pow);
    CongMod(p, r + term % p);
    CongTrans(p, (r + term % p) % p, r + term % p, sum + c * pow);
  }

  /**
   Fills the lower triangle with the draws and mirrors it. The source of randomness is the list of its
   answers; a list that is too short stands for a draw that fails.
   */
  method NewRandomSymmetric(degree: nat, secret: int, draws: seq<int>) returns (r: Option<SymmetricPolynomial>)
    ensures r.None? <==> |draws| < Triangle(degree + 1) - 1
    ensures r.Some? ==> fresh(r.value) && fresh(r.value.coeffs) && r.value.Valid() && r.value.degree == degree
    ensures r.Some? ==> Symmetric(r.value.Matrix()) && r.value.Matrix()[0][0] == secret
    ensures r.Some? ==> forall i, j :: 0 <= j <= i <= degree ==> r.value.Matrix()[i][j] == Entry(secret, draws, i, j)
  {
    var coeffs := new int[degree + 1, degree + 1];
    coeffs[0, 0] := secret;
    var used := 0;
    var i := 0;
    while i <= degree
      invariant 0 <= i <= degree + 1
      invariant used == (if i == 0 then 0 else Triangle(i) - 1) <= |draws|
      invariant i == 0 ==> coeffs[0, 0] == secret
      invariant forall a, b :: 0 <= b <= a < i ==>
        coeffs[a, b] == Entry(secret, draws, a, b) && coeffs[b, a] == Entry(secret, draws, a, b)
    {
      var j := 0;
      while j <= i
        invariant 0 <= j <= i + 1
        invariant used == (if i == 0 then 0 else Triangle(i) + j - 1) <= |draws|
        invariant i == 0 ==> coeffs[0, 0] == secret
        invariant forall a, b :: 0 <= b <= a < i ==>
          coeffs[a, b] == Entry(secret, draws, a, b) && coeffs[b, a] == Entry(secret, draws, a, b)
        invariant forall b :: 0 <= b < j ==>
          coeffs[i, b] == Entry(secret, draws, i, b) && coeffs[b, i] == Entry(secret, draws, i, b)
      {
        if i == 0 && j == 0 {
          j := j + 1;
          continue;
        }
        if used == |draws| {
          TriangleGrows(i, degree);
          return None;
        }
        var value := draws[used];
        used := used + 1;
        coeffs[i, j] := value;
        coeffs[j, i] := value;
        j := j + 1;
      }
      i := i + 1;
    }
    var sp := new SymmetricPolynomial(coeffs, degree);
    r := Some(sp);
  }

  lemma {:induction false} TriangleIs(i: nat)
    ensures 2 * Triangle(i) == i * (i + 1)
  {
    if i > 0 {
      TriangleIs(i - 1);
    }
  }

  /** Each entry below the first row is the draw at its own place in the order of the rows, which exists. */
  lemma EntryReads(secret: int, draws: seq<int>, degree: nat, i: nat, j: nat)
    requires j <= i <= degree && i > 0 && |draws| >= Triangle(degree + 1) - 1
    ensures 0 <= i * (i + 1) / 2 + j - 1 < |draws|
    ensures Entry(secret, draws, i, j) == draws[i * (i + 1) / 2 + j - 1]
  {
    TriangleIs(i);
    TriangleGrows(i, degree);
    TrianglePositive(i);
  }

  lemma TrianglePositive(i: nat)
    requires i > 0
    ensures Triangle(i) >= 1
  {
  }

  lemma {:induction false} TriangleGrows(i: nat, k: nat)
    requires i <= k
    ensures Triangle(i) <= Triangle(k) && Triangle(i) + i + 1 <= Triangle(k + 1)
    decreases k
  {
    if i < k {
      TriangleGrows(i, k - 1);
    }
  }
}
