/** Commitment holds for every behaviour of the faulty nodes exactly when `n > 4t`. */
module CommitmentLimit {
  import opened Quorums
  import opened Modular
  import opened Products
  import opened Lagrange
  import opened Sharing
  import opened Bivariate
  import opened Commitment

  /** Two reconstructions of one instance; the honest nodes taking part confirmed each other's slices. */
  ghost predicate Setting(p: int, cfg: Config, dealt: map<int, seq<int>>, a: Reconstruction, b: Reconstruction)
    requires p > 0
  {
    && Accepted(p, cfg, dealt, a) && Accepted(p, cfg, dealt, b)
    && Clique(p, HonestPoints(cfg, a) + HonestPoints(cfg, b), dealt)
  }

  /** No choice of faulty nodes, dealt slices and revealed polynomials makes two reconstructions differ. */
  ghost predicate Committed(p: int, n: nat, t: nat, ids: set<int>)
    requires p > 0
  {
    forall byz: set<int>, dealt: map<int, seq<int>>, a: Reconstruction, b: Reconstruction ::
      Config(n, t, ids, byz).Valid() && Setting(p, Config(n, t, ids, byz), dealt, a, b)
      ==> Cong(p, Secret(p, a), Secret(p, b))
  }

  /** The ids are distinct and not zero modulo `p`. */
  ghost predicate GoodIds(p: int, ids: set<int>)
    requires p > 0
  {
    Apart(p, ids) && forall i :: i in ids ==> !Cong(p, 0 - i, 0)
  }

  /** The coefficients of the product of `x - h` over the members `h` of `s`. */
  ghost function Roots(s: set<int>): (c: seq<int>)
    ensures |c| == |s| + 1
    decreases |s|
  {
    if s == {} then [1]
    else
      var h := Choose(s);
      var r := Roots(s - {h});
      Blend([0] + r, -h, r + [0])
  }

  lemma {:induction false} EvalPad(c: seq<int>, x: int)
    ensures Eval(c + [0], x) == Eval(c, x)
  {
    if c != [] {
      EvalPad(c[1..], x);
      assert (c + [0])[1..] == c[1..] + [0];
    }
  }

  lemma EvalShift(c: seq<int>, x: int)
    ensures Eval([0] + c, x) == x * Eval(c, x)
  {
    assert ([0] + c)[1..] == c;
  }

  lemma {:induction false} RootsAre(s: set<int>, x: int)
    ensures Eval(Roots(s), x) == Pi(s, x)
    decreases |s|
  {
    if s != {} {
      var h := Choose(s);
      var r := Roots(s - {h});
      RootsAre(s - {h}, x);
      EvalBlend([0] + r, -h, r + [0], x);
      EvalPad(r, x);
      EvalShift(r, x);
    }
  }

  lemma PiAtRoot(s: set<int>, h: int)
    requires h in s
    ensures Pi(s, h) == 0
  {
    PiSplit(s, h, h);
  }

  /** `c` times every coefficient. */
  ghost function Scaled(c: int, f: seq<int>): (g: seq<int>)
    ensures |g| == |f|
  {
    Blend(seq(|f|, i => 0), c, f)
  }

  lemma EvalScaled(c: int, f: seq<int>, x: int)
    ensures Eval(Scaled(c, f), x) == c * Eval(f, x)
  {
    var zeros := seq(|f|, i => 0);
    EvalBlend(zeros, c, f, x);
    EvalZeros(zeros, x);
  }

  /** What the nodes `liars` reveal: slices of the product of `(x - h)(y - h)`, which vanishes at every `h` kept. */
  ghost function Forged(liars: set<int>, kept: set<int>): map<int, seq<int>> {
    map b | b in liars :: Scaled(Pi(kept, b), Roots(kept))
  }

  lemma ForgedValue(liars: set<int>, kept: set<int>, i: int, x: int)
    requires i in liars || i in kept
    requires liars !! kept
    ensures Eval(Slice(Forged(liars, kept), i), x) == Pi(kept, i) * Pi(kept, x)
  {
    if i in liars {
      EvalScaled(Pi(kept, i), Roots(kept), x);
      RootsAre(kept, x);
    } else {
      PiAtRoot(kept, i);
    }
  }

  lemma ForgedClique(p: int, liars: set<int>, kept: set<int>)
    requires p > 0 && liars !! kept
    ensures Clique(p, liars + kept, Forged(liars, kept))
  {
    forall i, j | i in liars + kept && j in liars + kept ensures Agree(p, Forged(liars, kept), i, j) {
      ForgedValue(liars, kept, i, j);
      ForgedValue(liars, kept, j, i);
      CongSame(p, Pi(kept, i) * Pi(kept, j), Pi(kept, j) * Pi(kept, i));
    }
  }

  /** The forged values at 0 lie on one polynomial. */
  lemma ForgedZeros(liars: set<int>, kept: set<int>)
    requires liars !! kept
    ensures Zeros(liars + kept, Forged(liars, kept)) == Values(liars + kept, Scaled(Pi(kept, 0), Roots(kept)))
  {
    forall i | i in liars + kept
      ensures Eval(Slice(Forged(liars, kept), i), 0) == Eval(Scaled(Pi(kept, 0), Roots(kept)), i)
    {
      ForgedValue(liars, kept, i, 0);
      EvalScaled(Pi(kept, 0), Roots(kept), i);
      RootsAre(kept, i);
    }
  }

  /** The forged slices reconstruct to the square of the product of the kept ids. */
  lemma ForgedSecret(p: int, liars: set<int>, kept: set<int>)
    requires Prime(p) && liars !! kept && liars != {} && Apart(p, liars + kept)
    ensures Cong(p, Secret(p, Reconstruction(liars + kept, Forged(liars, kept))), Pi(kept, 0) * Pi(kept, 0))
  {
    var c := Scaled(Pi(kept, 0), Roots(kept));
    ForgedZeros(liars, kept);
    assert |liars + kept| == |liars| + |kept|;
    InterpolationIsExact(p, liars + kept, c);
    assert Eval(c, 0) == Pi(kept, 0) * Pi(kept, 0) by {
      EvalScaled(Pi(kept, 0), Roots(kept), 0);
      RootsAre(kept, 0);
    }
  }

  lemma ForgedNonzero(p: int, kept: set<int>)
    requires Prime(p) && forall h :: h in kept ==> !Cong(p, 0 - h, 0)
    ensures !Cong(p, Pi(kept, 0) * Pi(kept, 0), 0)
  {
    PiNonzero(p, kept, 0);
    NonzeroProduct(p, Pi(kept, 0), Pi(kept, 0));
  }

  /** With `3t < n <= 4t` honest nodes holding the zero polynomial can reconstruct two different values. */
  lemma CommitmentFails(p: int, n: nat, t: nat, ids: set<int>)
    returns (byz: set<int>, dealt: map<int, seq<int>>, a: Reconstruction, b: Reconstruction)
    requires Prime(p) && GoodIds(p, ids) && |ids| == n && 3 * t < n <= 4 * t
    ensures Config(n, t, ids, byz).Valid() && Setting(p, Config(n, t, ids, byz), dealt, a, b)
    ensures !Cong(p, Secret(p, a), Secret(p, b))
  {
    byz := TakeBetween({}, ids, t);
    DifferenceCount(ids, byz);
    var kept := TakeBetween({}, ids - byz, n - 3 * t);
    var cfg := Config(n, t, ids, byz);
    dealt := map[];
    a := Reconstruction(byz + kept, Forged(byz, kept));
    b := Reconstruction(ids - byz, map[]);
    ForgedClique(p, byz, kept);
    assert |byz + kept| == |byz| + |kept|;
    AllZero(p, cfg);
    ForgedAccepted(p, cfg, kept);
    ForgedSecret(p, byz, kept);
    ForgedNonzero(p, kept);
    if Cong(p, Secret(p, a), 0) {
      CongSym(p, Secret(p, a), Pi(kept, 0) * Pi(kept, 0));
      CongTrans(p, Pi(kept, 0) * Pi(kept, 0), Secret(p, a), 0);
    }
  }

  lemma ForgedAccepted(p: int, cfg: Config, kept: set<int>)
    requires p > 0 && cfg.n <= 4 * cfg.t && |cfg.byz| == cfg.t && cfg.Valid()
    requires kept <= cfg.Honest() && |kept| == cfg.n - 3 * cfg.t
    requires Clique(p, cfg.byz + kept, Forged(cfg.byz, kept))
    ensures Accepted(p, cfg, map[], Reconstruction(cfg.byz + kept, Forged(cfg.byz, kept)))
  {
    assert |cfg.byz + kept| == |cfg.byz| + |kept|;
  }

  /** Honest nodes that all hold the zero polynomial reconstruct 0. */
  lemma AllZero(p: int, cfg: Config)
    requires p > 0 && cfg.Valid()
    ensures Accepted(p, cfg, map[], Reconstruction(cfg.Honest(), map[]))
    ensures Clique(p, cfg.Honest(), map[])
    ensures Secret(p, Reconstruction(cfg.Honest(), map[])) == 0
  {
    HonestCount(cfg);
    forall i, j | i in cfg.Honest() && j in cfg.Honest() ensures Agree(p, map[], i, j) {
      CongSame(p, 0, 0);
    }
    DotZero(cfg.Honest(), Weights(p, cfg.Honest()), Zeros(cfg.Honest(), map[]));
  }

  lemma CommitmentHolds(p: int, cfg: Config, dealt: map<int, seq<int>>, a: Reconstruction, b: Reconstruction)
    requires Prime(p) && cfg.Valid() && Apart(p, cfg.ids) && cfg.n > 4 * cfg.t
    requires Setting(p, cfg, dealt, a, b)
    ensures Cong(p, Secret(p, a), Secret(p, b))
  {
    ManyHonest(p, cfg, dealt, a);
    ManyHonest(p, cfg, dealt, b);
    CommitmentByHonest(p, cfg, dealt, a, b);
  }

  /** Commitment holds against every behaviour exactly when `n > 4t`. */
  lemma CommitmentExactly(p: int, n: nat, t: nat, ids: set<int>)
    requires Prime(p) && GoodIds(p, ids) && |ids| == n && n > 3 * t
    ensures Committed(p, n, t, ids) <==> n > 4 * t
  {
    if n > 4 * t {
      forall byz: set<int>, dealt: map<int, seq<int>>, a: Reconstruction, b: Reconstruction |
        Config(n, t, ids, byz).Valid() && Setting(p, Config(n, t, ids, byz), dealt, a, b)
      {
        CommitmentHolds(p, Config(n, t, ids, byz), dealt, a, b);
      }
    } else {
      var byz, dealt, a, b := CommitmentFails(p, n, t, ids);
    }
  }
}
