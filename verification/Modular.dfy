/** Congruence modulo `p`, and inverses when `p` is prime. */
module Modular {

  lemma MulAdd(a: int, x: int, y: int)
    ensures a * (x + y) == a * x + a * y
  {
  }

  lemma MulAssoc(a: int, b: int, c: int)
    ensures a * (b * c) == a * b * c
  {
  }

  /** The outer factors of a nested product can be exchanged. */
  lemma MulSwap(a: int, b: int, c: int)
    ensures a * (b * c) == b * (a * c)
  {
  }

  /** `a` and `b` differ by a multiple of `p`: taking `p` away from the larger one ends at equality. */
  ghost predicate Cong(p: int, a: int, b: int)
    requires p > 0
    decreases if a >= b then a - b else b - a
  {
    if a - b >= p then Cong(p, a - p, b)
    else if b - a >= p then Cong(p, a, b - p)
    else a == b
  }

  lemma {:induction false} CongIntro(p: int, a: int, b: int, k: int)
    requires p > 0 && a - b == k * p
    ensures Cong(p, a, b)
    decreases if k >= 0 then k else -k
  {
    if k > 0 {
      CongIntro(p, a - p, b, k - 1);
    } else if k < 0 {
      CongIntro(p, a, b - p, k + 1);
    }
  }

  lemma {:induction false} CongElim(p: int, a: int, b: int) returns (k: int)
    requires p > 0 && Cong(p, a, b)
    ensures a - b == k * p
    decreases if a >= b then a - b else b - a
  {
    if a - b >= p {
      k := CongElim(p, a - p, b);
      k := k + 1;
    } else if b - a >= p {
      k := CongElim(p, a, b - p);
      k := k - 1;
    } else {
      k := 0;
    }
  }

  lemma CongSame(p: int, a: int, b: int)
    requires p > 0 && a == b
    ensures Cong(p, a, b)
  {
    CongIntro(p, a, b, 0);
  }

  lemma CongSym(p: int, a: int, b: int)
    requires p > 0 && Cong(p, a, b)
    ensures Cong(p, b, a)
  {
    var k := CongElim(p, a, b);
    CongIntro(p, b, a, -k);
  }

  lemma CongTrans(p: int, a: int, b: int, c: int)
    requires p > 0 && Cong(p, a, b) && Cong(p, b, c)
    ensures Cong(p, a, c)
  {
    var k := CongElim(p, a, b);
    var l := CongElim(p, b, c);
    CongIntro(p, a, c, k + l);
  }

  lemma CongAdd(p: int, a: int, a': int, b: int, b': int)
    requires p > 0 && Cong(p, a, a') && Cong(p, b, b')
    ensures Cong(p, a + b, a' + b')
  {
    var k := CongElim(p, a, a');
    var l := CongElim(p, b, b');
    CongIntro(p, a + b, a' + b', k + l);
  }

  lemma CongTimes(p: int, a: int, a': int, b: int, b': int)
    requires p > 0 && Cong(p, a, a') && Cong(p, b, b')
    ensures Cong(p, a * b, a' * b')
  {
    var k := CongElim(p, a, a');
    var l := CongElim(p, b, b');
    MulShift(p, a', b', k, l);
    CongIntro(p, a * b, a' * b', k * b' + l * a' + k * l * p);
  }

  lemma MulShift(p: int, a: int, b: int, k: int, l: int)
    ensures (a + k * p) * (b + l * p) - a * b == (k * b + l * a + k * l * p) * p
  {
  }

  lemma CongScale(p: int, c: int, a: int, a': int)
    requires p > 0 && Cong(p, a, a')
    ensures Cong(p, c * a, c * a')
  {
    CongSame(p, c, c);
    CongTimes(p, c, c, a, a');
  }

  // ------------------------------------------------------------------- residues

  lemma CongMod(p: int, a: int)
    requires p > 0
    ensures Cong(p, a % p, a)
  {
    CongIntro(p, a % p, a, -(a / p));
  }

  lemma SmallMultiple(p: int, k: int)
    requires p > 0 && -p < k * p < p
    ensures k == 0
  {
  }

  /** Congruent residues are equal. */
  lemma CongSmall(p: int, a: int, b: int)
    requires 0 <= a < p && 0 <= b < p && Cong(p, a, b)
    ensures a == b
  {
    var k := CongElim(p, a, b);
    SmallMultiple(p, k);
  }

  lemma CongResidues(p: int, a: int, b: int)
    requires p > 0 && Cong(p, a, b)
    ensures a % p == b % p
  {
    CongMod(p, a);
    CongMod(p, b);
    CongTrans(p, a % p, a, b);
    CongSym(p, b % p, b);
    CongTrans(p, a % p, b, b % p);
    CongSmall(p, a % p, b % p);
  }

  lemma ResidueIs(p: int, r: int, a: int)
    requires 0 <= r < p && Cong(p, r, a)
    ensures r == a % p
  {
    CongMod(p, a);
    CongSym(p, a % p, a);
    CongTrans(p, r, a, a % p);
    CongSmall(p, r, a % p);
  }

  lemma ResiduesCong(p: int, a: int, b: int)
    requires p > 0 && a % p == b % p
    ensures Cong(p, a, b)
  {
    CongMod(p, a);
    CongMod(p, b);
    CongSym(p, a % p, a);
    CongTrans(p, a, a % p, b);
  }

  // ------------------------------------------------------------------- inverses

  ghost predicate Divides(d: int, a: int) {
    exists k: int :: a == k * d
  }

  ghost predicate Prime(p: int) {
    p > 1 && forall d :: 1 < d < p ==> !Divides(d, p)
  }

  lemma DividesIntro(d: int, a: int, k: int)
    requires a == k * d
    ensures Divides(d, a)
  {
  }

  lemma DividesElim(d: int, a: int) returns (k: int)
    requires Divides(d, a)
    ensures a == k * d
  {
    k :| a == k * d;
  }

  lemma DividesComb(d: int, a: int, b: int, q: int)
    requires Divides(d, a) && Divides(d, b)
    ensures Divides(d, q * a + b)
  {
    var k := DividesElim(d, a);
    var l := DividesElim(d, b);
    MulAssoc(q, k, d);
    DividesIntro(d, q * a + b, q * k + l);
  }

  /** Extended Euclid: `(g, x, y)` with `a * x + b * y == g`. */
  function ExtGcd(a: nat, b: nat): (r: (nat, int, int))
    ensures a * r.1 + b * r.2 == r.0
    ensures a > 0 || b > 0 ==> r.0 > 0
    decreases b
  {
    if b == 0 then (a, 1, 0)
    else
      var (g, x, y) := ExtGcd(b, a % b);
      EuclidStep(a, b, x, y, g);
      (g, y, x - (a / b) * y)
  }

  lemma EuclidStep(a: nat, b: nat, x: int, y: int, g: int)
    requires b > 0 && b * x + (a % b) * y == g
    ensures a * y + b * (x - (a / b) * y) == g
  {
    var q, r := a / b, a % b;
    assert a == q * b + r;
    assert (q * b + r) * y == q * b * y + r * y;
    assert b * (x - q * y) == b * x - q * b * y;
  }

  lemma {:induction false} GcdDivides(a: nat, b: nat)
    ensures Divides(ExtGcd(a, b).0, a) && Divides(ExtGcd(a, b).0, b)
    decreases b
  {
    var g := ExtGcd(a, b).0;
    if b == 0 {
      DividesIntro(a, a, 1);
      DividesIntro(a, 0, 0);
    } else {
      GcdDivides(b, a % b);
      DividesComb(g, b, a % b, a / b);
    }
  }

  /** The inverse of `a` modulo `p`, as a residue. */
  function Inverse(p: int, a: int): int {
    if p <= 0 then 0 else ExtGcd(a % p, p).1 % p
  }

  lemma InverseWorks(p: int, a: int)
    requires Prime(p) && !Cong(p, a, 0)
    ensures Cong(p, a * Inverse(p, a), 1) && 0 <= Inverse(p, a) < p
  {
    var r := a % p;
    var (g, x, y) := ExtGcd(r, p);
    GcdDivides(r, p);
    GcdIsOne(p, a, g);
    BezoutInverse(p, a, x, y);
  }

  lemma BezoutInverse(p: int, a: int, x: int, y: int)
    requires p > 0 && (a % p) * x + p * y == 1
    ensures Cong(p, a * (x % p), 1)
  {
    var r := a % p;
    CongIntro(p, r * x, 1, -y);
    CongMod(p, a);
    CongMod(p, x);
    CongSym(p, r, a);
    CongTimes(p, a, r, x % p, x);
    CongTrans(p, a * (x % p), r * x, 1);
  }

  lemma DivisorBound(d: int, a: int)
    requires Divides(d, a) && a > 0
    ensures d <= a
  {
    var k := DividesElim(d, a);
    if d > a {
      SmallMultiple(d, k);
    }
  }

  lemma GcdIsOne(p: int, a: int, g: nat)
    requires Prime(p) && !Cong(p, a, 0) && Divides(g, a % p) && Divides(g, p) && g > 0
    ensures g == 1
  {
    DivisorBound(g, p);
    if g == p {
      var l := DividesElim(p, a % p);
      SmallMultiple(p, l);
      CongMod(p, a);
      CongSym(p, a % p, a);
    }
  }

  /** A factor that is not zero modulo a prime can be cancelled. */
  lemma Cancel(p: int, a: int, b: int, c: int)
    requires Prime(p) && !Cong(p, a, 0) && Cong(p, a * b, a * c)
    ensures Cong(p, b, c)
  {
    InverseWorks(p, a);
    CancelWith(p, a, b, c, Inverse(p, a));
  }

  lemma CancelWith(p: int, a: int, b: int, c: int, i: int)
    requires p > 0 && Cong(p, a * i, 1) && Cong(p, a * b, a * c)
    ensures Cong(p, b, c)
  {
    CongScale(p, i, a * b, a * c);
    Unscale(p, i, a, b);
    Unscale(p, i, a, c);
    CongSym(p, i * (a * b), b);
    CongTrans(p, b, i * (a * b), i * (a * c));
    CongTrans(p, b, i * (a * c), c);
  }

  lemma Unscale(p: int, i: int, a: int, b: int)
    requires p > 0 && Cong(p, a * i, 1)
    ensures Cong(p, i * (a * b), b)
  {
    Regroup(i, a, b);
    CongScale(p, b, a * i, 1);
  }

  lemma Regroup(i: int, a: int, b: int)
    ensures i * (a * b) == b * (a * i)
  {
  }

  /** A product is zero modulo a prime only if a factor is. */
  lemma NonzeroProduct(p: int, a: int, b: int)
    requires Prime(p) && !Cong(p, a, 0) && !Cong(p, b, 0)
    ensures !Cong(p, a * b, 0)
  {
    if Cong(p, a * b, 0) {
      Cancel(p, a, b, 0);
    }
  }
}
