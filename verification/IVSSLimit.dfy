/** Over runs: all honest outputs of an instance are equal, and are the dealt secret, exactly when `n > 4t`. */
module IVSSLimit {
  import opened Quorums
  import opened Modular
  import opened Products
  import opened Lagrange
  import opened Sharing
  import opened Bivariate
  import opened Commitment
  import opened CommitmentLimit
  import opened IVSSRuns
  import opened IVSSSchedule
  import opened IVSSPlans
  import opened IVSSTheorems

  // ------------------------------------------------------------- the polynomials

  function Flat(size: nat): seq<int> {
    seq(size, i => 0)
  }

  function FlatMatrix(size: nat): seq<seq<int>> {
    seq(size, i => Flat(size))
  }

  lemma FlatSecret(p: int, size: nat)
    requires p > 0 && size > 0
    ensures FlatMatrix(size) != [] && FlatMatrix(size)[0] != [] && FlatMatrix(size)[0][0] % p == 0
  {
  }

  /** Honest nodes hold the zero polynomial; the others reveal slices of `Forged`. */
  ghost function Mixed(cfg: Config, kept: set<int>): map<int, seq<int>> {
    map i | i in cfg.ids :: if i in cfg.byz then Scaled(Pi(kept, i), Roots(kept)) else Flat(cfg.t + 1)
  }

  lemma FlatIsZero(size: nat, x: int)
    ensures Eval(Flat(size), x) == 0
  {
    EvalZeros(Flat(size), x);
  }

  lemma FlatSlice(p: int, size: nat, x: int)
    requires p > 0
    ensures Symmetric(FlatMatrix(size)) && SliceOf(p, FlatMatrix(size), x, Flat(size))
  {
    var c := FlatMatrix(size);
    forall j | 0 <= j < size ensures Cong(p, Flat(size)[j], Eval(Column(c, size, j), x)) {
      EvalZeros(Column(c, size, j), x);
      CongSame(p, 0, 0);
    }
  }

  /** The nodes of `byz` and `kept` look as in `Forged`. */
  lemma MixedIsForged(cfg: Config, kept: set<int>, i: int, x: int)
    requires cfg.byz <= cfg.ids && kept <= cfg.Honest() && i in cfg.byz + kept
    ensures Eval(Slice(Mixed(cfg, kept), i), x) == Eval(Slice(Forged(cfg.byz, kept), i), x)
  {
    if i in kept {
      FlatIsZero(cfg.t + 1, x);
    }
  }

  lemma MixedClique(p: int, cfg: Config, kept: set<int>)
    requires p > 0 && cfg.byz <= cfg.ids && kept <= cfg.Honest()
    ensures Clique(p, cfg.byz + kept, Mixed(cfg, kept))
  {
    ForgedClique(p, cfg.byz, kept);
    forall i, j | i in cfg.byz + kept && j in cfg.byz + kept ensures Agree(p, Mixed(cfg, kept), i, j) {
      assert Agree(p, Forged(cfg.byz, kept), i, j);
      MixedIsForged(cfg, kept, i, j);
      MixedIsForged(cfg, kept, j, i);
    }
  }

  lemma HonestAgree(p: int, cfg: Config, kept: set<int>)
    requires p > 0 && cfg.byz <= cfg.ids
    ensures Clique(p, cfg.Honest(), Mixed(cfg, kept))
  {
    forall i, j | i in cfg.Honest() && j in cfg.Honest() ensures Agree(p, Mixed(cfg, kept), i, j) {
      FlatIsZero(cfg.t + 1, i);
      FlatIsZero(cfg.t + 1, j);
      CongSame(p, 0, 0);
    }
  }

  lemma HonestValue(p: int, cfg: Config, kept: set<int>)
    requires p > 0 && cfg.byz <= cfg.ids
    ensures ValueOf(p, Mixed(cfg, kept), cfg.Honest()) == 0
  {
    var h, f := cfg.Honest(), Mixed(cfg, kept);
    FlatIsZero(cfg.t + 1, 0);
    forall i | i in h ensures Zeros(h, f)[i] == 0 {
      assert Slice(f, i) == Flat(cfg.t + 1);
    }
    DotZero(h, Weights(p, h), Zeros(h, f));
  }

  lemma MixedZeros(cfg: Config, kept: set<int>)
    requires cfg.byz <= cfg.ids && kept <= cfg.Honest()
    ensures Zeros(cfg.byz + kept, Mixed(cfg, kept)) == Zeros(cfg.byz + kept, Forged(cfg.byz, kept))
  {
    var s := cfg.byz + kept;
    forall i | i in s ensures Zeros(s, Mixed(cfg, kept))[i] == Zeros(s, Forged(cfg.byz, kept))[i] {
      MixedIsForged(cfg, kept, i, 0);
    }
  }

  lemma NonzeroResidue(p: int, a: int, b: int)
    requires p > 0 && Cong(p, a, b) && !Cong(p, b, 0)
    ensures a % p != 0
  {
    CongResidues(p, a, b);
    if b % p == 0 {
      ResiduesCong(p, b, 0);
    }
  }

  lemma ForgedValueOf(p: int, cfg: Config, kept: set<int>)
    requires Prime(p) && GoodIds(p, cfg.ids) && cfg.byz <= cfg.ids && kept <= cfg.Honest() && cfg.byz != {}
    ensures ValueOf(p, Mixed(cfg, kept), cfg.byz + kept) != 0
  {
    var r := Reconstruction(cfg.byz + kept, Forged(cfg.byz, kept));
    MixedZeros(cfg, kept);
    ForgedSecret(p, cfg.byz, kept);
    ForgedNonzero(p, kept);
    NonzeroResidue(p, Secret(p, r), Pi(kept, 0) * Pi(kept, 0));
  }

  // -------------------------------------------------------------------- the run

  ghost function Forging(cfg: Config, kept: set<int>, members: seq<int>, u: int): Plan {
    Plan(u, Mixed(cfg, kept), members,
         map k | k in cfg.Honest() :: if k == u then cfg.byz + kept else cfg.Honest())
  }

  lemma MayHoldFlat(net: Net, dealing: Option<seq<seq<int>>>, k: int)
    requires net.p > 0 && (dealing.Some? ==> dealing.value == FlatMatrix(net.cfg.t + 1))
    ensures MayHold(net, dealing, k, Flat(net.cfg.t + 1))
  {
    FlatSlice(net.p, net.cfg.t + 1, k);
  }

  lemma ForgingShares(net: Net, kept: set<int>, dealing: Option<seq<seq<int>>>)
    requires net.Valid() && kept <= net.H() && |kept| <= net.cfg.t
    requires dealing.Some? ==> dealing.value == FlatMatrix(net.cfg.t + 1)
    ensures Shares(net, dealing, Mixed(net.cfg, kept))
  {
    HonestAgree(net.p, net.cfg, kept);
    FlatSlice(net.p, net.cfg.t + 1, 0);
    forall k | k in net.H() {
      MayHoldFlat(net, dealing, k);
    }
  }

  lemma ForgingReads(net: Net, kept: set<int>, members: seq<int>, u: int)
    requires net.Valid() && kept <= net.H() && |net.cfg.byz| == net.cfg.t && |kept| == net.cfg.n - 3 * net.cfg.t
    ensures Reads(net, Mixed(net.cfg, kept), Forging(net.cfg, kept, members, u).read)
  {
    MixedClique(net.p, net.cfg, kept);
    HonestAgree(net.p, net.cfg, kept);
    HonestCount(net.cfg);
    assert |net.cfg.byz + kept| == |net.cfg.byz| + |kept|;
  }

  lemma ForgingRead(cfg: Config, kept: set<int>, members: seq<int>, u: int, k: int)
    requires u in cfg.Honest() && k in cfg.Honest() && u != k
    ensures var pl := Forging(cfg, kept, members, u);
            && pl.polys == Mixed(cfg, kept) && u in pl.read && k in pl.read
            && pl.read[u] == cfg.byz + kept && pl.read[k] == cfg.Honest()
  {
  }

  lemma Casting(n: nat, t: nat, ids: set<int>) returns (byz: set<int>, kept: set<int>, u: int, k: int)
    requires |ids| == n && 3 * t < n <= 4 * t
    ensures Config(n, t, ids, byz).Valid() && |byz| == t && byz != {} && kept <= ids - byz && |kept| == n - 3 * t
    ensures u in ids - byz && k in ids - byz && u != k
  {
    byz := TakeBetween({}, ids, t);
    DifferenceCount(ids, byz);
    kept := TakeBetween({}, ids - byz, n - 3 * t);
    u := Pick(ids - byz);
    k := MemberOutside(ids - byz, {u});
  }

  lemma ForgingFits(net: Net, kept: set<int>, u: int, dealing: Option<seq<seq<int>>>) returns (members: seq<int>)
    requires net.Valid() && (forall i :: i in net.cfg.ids ==> 1 <= i <= net.cfg.n) && kept <= net.H()
    requires |net.cfg.byz| == net.cfg.t && |kept| == net.cfg.n - 3 * net.cfg.t && net.cfg.n <= 4 * net.cfg.t
    requires dealing.Some? ==> dealing.value == FlatMatrix(net.cfg.t + 1)
    ensures Fits(net, dealing, Forging(net.cfg, kept, members, u))
  {
    members := Listing(net.cfg.ids);
    ForgingShares(net, kept, dealing);
    ForgingReads(net, kept, members, u);
  }

  /** With `3t < n <= 4t` some run makes two honest nodes output different values. */
  lemma TwoSecrets(p: int, n: nat, t: nat, ids: set<int>, key: string, dealing: Option<seq<seq<int>>>)
    returns (byz: set<int>, w: World, u: int, k: int, v: int)
    requires Prime(p) && GoodIds(p, ids) && |ids| == n && (forall i :: i in ids ==> 1 <= i <= n) && 3 * t < n <= 4 * t
    requires dealing.Some? ==> dealing.value == FlatMatrix(t + 1)
    ensures Outputs(Net(Config(n, t, ids, byz), p), w, key, u, v) && v != 0
    ensures Outputs(Net(Config(n, t, ids, byz), p), w, key, k, 0)
    ensures w.insts[key].dealing == dealing
  {
    var kept;
    byz, kept, u, k := Casting(n, t, ids);
    var net := Net(Config(n, t, ids, byz), p);
    var members := ForgingFits(net, kept, u, dealing);
    w := Realised(net, key, dealing, Forging(net.cfg, kept, members, u));
    v := ValueOf(p, Mixed(net.cfg, kept), byz + kept);
    ForgedValueOf(p, net.cfg, kept);
    HonestValue(p, net.cfg, kept);
    ForgingRead(net.cfg, kept, members, u, k);
  }

  // ------------------------------------------------------------------- the limit

  /** In every run all honest nodes output the same value for an instance. */
  ghost predicate OneOutput(p: int, n: nat, t: nat, ids: set<int>)
    requires p > 0
  {
    forall byz, w, key, k, k', v, v' ::
      Outputs(Net(Config(n, t, ids, byz), p), w, key, k, v) && Outputs(Net(Config(n, t, ids, byz), p), w, key, k', v')
      ==> v == v'
  }

  /** In every run whose dealer follows the code all honest nodes output the dealt secret. */
  ghost predicate DealtOutput(p: int, n: nat, t: nat, ids: set<int>)
    requires p > 0
  {
    forall byz, w, key, k, v ::
      Outputs(Net(Config(n, t, ids, byz), p), w, key, k, v) && w.insts[key].dealing.Some?
      ==> var c := w.insts[key].dealing.value; c != [] && c[0] != [] && v == c[0][0] % p
  }

  /** Commitment holds in all runs exactly when `n > 4t`. */
  lemma OneOutputExactly(p: int, n: nat, t: nat, ids: set<int>)
    requires Prime(p) && GoodIds(p, ids) && |ids| == n && n > 3 * t && forall i :: i in ids ==> 1 <= i <= n
    ensures OneOutput(p, n, t, ids) <==> n > 4 * t
  {
    if n > 4 * t {
      forall byz, w, key, k, k', v, v' | Outputs(Net(Config(n, t, ids, byz), p), w, key, k, v)
                                         && Outputs(Net(Config(n, t, ids, byz), p), w, key, k', v')
      {
        CommitmentOverRuns(Net(Config(n, t, ids, byz), p), w, key, k, k', v, v');
      }
    } else {
      var byz, w, u, k, v := TwoSecrets(p, n, t, ids, "", None);
    }
  }

  /** A dealer that follows the code gets its secret out of all runs exactly when `n > 4t`. */
  lemma DealtOutputExactly(p: int, n: nat, t: nat, ids: set<int>)
    requires Prime(p) && GoodIds(p, ids) && |ids| == n && n > 3 * t && forall i :: i in ids ==> 1 <= i <= n
    ensures DealtOutput(p, n, t, ids) <==> n > 4 * t
  {
    if n > 4 * t {
      forall byz, w, key, k, v | Outputs(Net(Config(n, t, ids, byz), p), w, key, k, v) && w.insts[key].dealing.Some?
        ensures var c := w.insts[key].dealing.value; c != [] && c[0] != [] && v == c[0][0] % p
      {
        HonestDealerOverRuns(Net(Config(n, t, ids, byz), p), w, key, k, v);
      }
    } else {
      var byz, w, u, k, v := TwoSecrets(p, n, t, ids, "", Some(FlatMatrix(t + 1)));
      FlatSecret(p, t + 1);
    }
  }
}
