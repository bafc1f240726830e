/** What a set of mutually confirmed nodes commits the dealer to. */
module Commitment {
  import opened Quorums
  import opened Modular
  import opened Lagrange
  import opened Sharing
  import opened Bivariate

  /**
   A reconstruction: the interpolation set `points`, and the revealed polynomial of each member.
   */
  datatype Reconstruction = Reconstruction(points: set<int>, polys: map<int, seq<int>>)

  ghost predicate Clique(p: int, s: set<int>, f: map<int, seq<int>>)
    requires p > 0
  {
    forall i, j :: i in s && j in s ==> Agree(p, f, i, j)
  }

  /** Members of `honest` reveal the slice they were dealt. */
  ghost predicate Truthful(s: set<int>, honest: set<int>, f: map<int, seq<int>>, dealt: map<int, seq<int>>) {
    forall i :: i in s && i in honest ==> Slice(f, i) == Slice(dealt, i)
  }

  /** What `checkInterpolationSet` guarantees of the set it interpolates from, given who is honest. */
  ghost predicate Accepted(p: int, cfg: Config, dealt: map<int, seq<int>>, r: Reconstruction)
    requires p > 0
  {
    && r.points <= cfg.ids && |r.points| >= cfg.n - 2 * cfg.t
    && Clique(p, r.points, r.polys) && Sized(r.points, r.polys, cfg.t + 1)
    && Truthful(r.points, cfg.Honest(), r.polys, dealt)
  }

  /** The value a reconstruction outputs, up to multiples of `p`. */
  ghost function Secret(p: int, r: Reconstruction): int {
    Interp(p, r.points, Zeros(r.points, r.polys))
  }

  ghost function HonestPoints(cfg: Config, r: Reconstruction): set<int> {
    r.points * cfg.Honest()
  }

  /** Enough honest members decide the value of the whole set. */
  lemma HonestPartDecides(p: int, u: set<int>, h: set<int>, f: map<int, seq<int>>, dealt: map<int, seq<int>>, size: nat)
    requires Prime(p) && Apart(p, u) && h <= u && 0 < size <= |h|
    requires Clique(p, u, f) && Sized(u, f, size) && Truthful(u, h, f, dealt)
    ensures Cong(p, Interp(p, u, Zeros(u, f)), Interp(p, h, Zeros(h, dealt)))
  {
    SubsetCount(h, u);
    assert u + h == u;
    SubsetIndependence(p, u, h, f, size);
    assert Zeros(h, f) == Zeros(h, dealt);
  }

  /** Two reconstructions with enough honest members each output the same value. */
  lemma CommitmentByHonest(p: int, cfg: Config, dealt: map<int, seq<int>>, a: Reconstruction, b: Reconstruction)
    requires Prime(p) && cfg.Valid() && Apart(p, cfg.ids)
    requires Accepted(p, cfg, dealt, a) && Accepted(p, cfg, dealt, b)
    requires Clique(p, HonestPoints(cfg, a) + HonestPoints(cfg, b), dealt)
    requires |HonestPoints(cfg, a)| >= cfg.t + 1 && |HonestPoints(cfg, b)| >= cfg.t + 1
    ensures Cong(p, Secret(p, a), Secret(p, b))
  {
    var ha, hb := HonestPoints(cfg, a), HonestPoints(cfg, b);
    HonestPartDecides(p, a.points, ha, a.polys, dealt, cfg.t + 1);
    HonestPartDecides(p, b.points, hb, b.polys, dealt, cfg.t + 1);
    HonestSized(cfg, dealt, a, b);
    SubsetIndependence(p, ha, hb, dealt, cfg.t + 1);
    CongSym(p, Secret(p, b), Interp(p, hb, Zeros(hb, dealt)));
    CongTrans(p, Secret(p, a), Interp(p, ha, Zeros(ha, dealt)), Interp(p, hb, Zeros(hb, dealt)));
    CongTrans(p, Secret(p, a), Interp(p, hb, Zeros(hb, dealt)), Secret(p, b));
  }

  lemma HonestSized(cfg: Config, dealt: map<int, seq<int>>, a: Reconstruction, b: Reconstruction)
    requires Sized(a.points, a.polys, cfg.t + 1) && Sized(b.points, b.polys, cfg.t + 1)
    requires Truthful(a.points, cfg.Honest(), a.polys, dealt) && Truthful(b.points, cfg.Honest(), b.polys, dealt)
    ensures Sized(HonestPoints(cfg, a) + HonestPoints(cfg, b), dealt, cfg.t + 1)
  {
    forall i | i in HonestPoints(cfg, a) + HonestPoints(cfg, b) ensures |Slice(dealt, i)| <= cfg.t + 1 {
      if i in a.points {
        assert Slice(a.polys, i) == Slice(dealt, i);
      } else {
        assert Slice(b.polys, i) == Slice(dealt, i);
      }
    }
  }

  /** With `n > 4t` every interpolation set has enough honest members. */
  lemma ManyHonest(p: int, cfg: Config, dealt: map<int, seq<int>>, r: Reconstruction)
    requires p > 0 && cfg.Valid() && Accepted(p, cfg, dealt, r) && cfg.n > 4 * cfg.t
    ensures |HonestPoints(cfg, r)| >= cfg.t + 1
  {
    var faulty := r.points * cfg.byz;
    SubsetCount(faulty, cfg.byz);
    assert r.points - faulty == HonestPoints(cfg, r);
    DifferenceCount(r.points, faulty);
  }

  /** An honest dealer's secret is what everyone reconstructs. */
  lemma HonestDealer(p: int, cfg: Config, c: seq<seq<int>>, dealt: map<int, seq<int>>, r: Reconstruction)
    requires Prime(p) && cfg.Valid() && Apart(p, cfg.ids) && Accepted(p, cfg, dealt, r)
    requires |c| == cfg.t + 1 && Symmetric(c)
    requires forall k :: k in HonestPoints(cfg, r) ==> SliceOf(p, c, k, Slice(dealt, k))
    requires |HonestPoints(cfg, r)| >= cfg.t + 1
    ensures Cong(p, Secret(p, r), c[0][0])
  {
    var h := HonestPoints(cfg, r);
    HonestPartDecides(p, r.points, h, r.polys, dealt, cfg.t + 1);
    SlicesGiveSecret(p, c, h, dealt);
    CongTrans(p, Secret(p, r), Interp(p, h, Zeros(h, dealt)), c[0][0]);
  }
}
