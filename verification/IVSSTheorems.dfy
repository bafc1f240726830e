/** Verifiable secret sharing: what holds in every reachable state. */
module IVSSTheorems {
  import opened Modular
  import opened Lagrange
  import opened Sharing
  import opened Bivariate
  import opened Commitment
  import opened CommitmentLimit
  import opened Certification
  import opened IVSS
  import opened IVSSNode
  import opened IVSSRuns
  import opened IVSSGrowth
  import opened IVSSMoves
  import opened IVSSDeliveries

  // ------------------------------------------------------------------ induction

  lemma ReactionIsGood(net: Net, fp: map<int, set<(int, int)>>, s: Sys, e: Event)
    requires net.Valid() && fp.Keys == net.H() && SysInv(net, fp, s) && Enabled(net, s, e) && !e.Post?
    ensures var r := Reaction(net, fp[e.k], s, e); GoodMove(net, s, fp[e.k] + r.blamed, e.k, r)
  {
    assert NodeOk(net, s, fp[e.k], e.k, s.nodes[e.k]);
    assert fp[e.k] + {} == fp[e.k];
    match e
    case Deal(k, from, poly, order) => DealMove(net, s, fp[k], k, from, poly, order);
    case Sampled(k, from, value) => SampleMove(net, s, fp[k], k, from, value);
    case Begin(k) => BeginMove(net, s, fp[k], k);
    case Deliver(k, x, order) => DeliveryIsGood(net, fp, s, k, x, order);
  }

  lemma DeliveryIsGood(net: Net, fp: map<int, set<(int, int)>>, s: Sys, k: int, x: Payload, order: seq<int>)
    requires net.Valid() && fp.Keys == net.H() && SysInv(net, fp, s) && Enabled(net, s, Deliver(k, x, order))
    ensures var r := CastEffect(net.cfg.n, net.cfg.t, net.p, k, fp[k], s.nodes[k].inst, x, order);
            GoodMove(net, s, fp[k] + r.blamed, k, r)
  {
    assert NodeOk(net, s, fp[k], k, s.nodes[k]);
    assert fp[k] + {} == fp[k];
    match x
    case Equal(i, j) => EqualMove(net, s, fp[k], k, i, j);
    case MSet(m) => MSetMove(net, s, fp[k], k, m);
    case Reveal(i, f) => RevealMove(net, s, fp[k], k, i, f, order);
    case Ready(i) => ReadyMove(net, s, fp[k], k, i);
  }

  lemma ReactionBlames(net: Net, fp: map<int, set<(int, int)>>, s: Sys, e: Event)
    requires net.Valid() && fp.Keys == net.H() && SysInv(net, fp, s) && Enabled(net, s, e) && !e.Post?
    requires FpSound(net, fp[e.k])
    ensures FpSound(net, fp[e.k] + Reaction(net, fp[e.k], s, e).blamed)
  {
    var r := Reaction(net, fp[e.k], s, e);
    assert NodeOk(net, s, fp[e.k], e.k, s.nodes[e.k]);
    if e.Deliver? && e.payload.Reveal? {
      RevealBlames(net, s, fp[e.k], e.k, e.payload.sender, e.payload.poly, e.order);
    } else {
      OnlyRevealsBlame(net, fp[e.k], s, e);
      assert fp[e.k] + r.blamed == fp[e.k];
    }
  }

  lemma OnlyRevealsBlame(net: Net, fp: set<(int, int)>, s: Sys, e: Event)
    requires net.p > 0 && Enabled(net, s, e) && !e.Post? && !(e.Deliver? && e.payload.Reveal?)
    ensures Reaction(net, fp, s, e).blamed == {}
  {
  }

  lemma MoveInv(net: Net, w: World, key: string, k: int, r: Effect)
    requires net.Valid() && Inv(net, w) && key in w.insts && k in net.H()
    requires FpSound(net, w.fp[k] + r.blamed) && SysInv(net, w.fp, w.insts[key])
    requires GoodMove(net, w.insts[key], w.fp[k] + r.blamed, k, r)
    ensures Inv(net, World(w.fp[k := w.fp[k] + r.blamed], w.insts[key := Moved(w.insts[key], k, r)]))
  {
    AllMove(net, w.fp, w.insts, key, k, r);
    FpMove(net, w.fp, k, w.fp[k] + r.blamed);
  }

  lemma FpMove(net: Net, fp: map<int, set<(int, int)>>, k: int, more: set<(int, int)>)
    requires fp.Keys == net.H() && k in net.H() && FpSound(net, more) && AllFpSound(net, fp)
    ensures fp[k := more].Keys == net.H() && AllFpSound(net, fp[k := more])
  {
    var fp' := fp[k := more];
    forall j | j in fp' ensures FpSound(net, fp'[j]) {
      if j != k {
        assert fp'[j] == fp[j];
      }
    }
  }

  lemma AllMove(net: Net, fp: map<int, set<(int, int)>>, insts: map<string, Sys>, key: string, k: int, r: Effect)
    requires net.Valid() && fp.Keys == net.H() && k in net.H() && key in insts && AllSound(net, fp, insts)
    requires SysInv(net, fp, insts[key]) && GoodMove(net, insts[key], fp[k] + r.blamed, k, r)
    ensures AllSound(net, fp[k := fp[k] + r.blamed], insts[key := Moved(insts[key], k, r)])
  {
    AllGrow(net, fp, insts, k, r.blamed);
    MoveKeeps(net, fp, insts[key], k, r);
    AllPut(net, fp[k := fp[k] + r.blamed], insts, key, Moved(insts[key], k, r));
  }

  lemma AllGrow(net: Net, fp: map<int, set<(int, int)>>, insts: map<string, Sys>, k: int, blamed: set<(int, int)>)
    requires net.p > 0 && fp.Keys == net.H() && k in net.H() && AllSound(net, fp, insts)
    ensures fp[k := fp[k] + blamed].Keys == net.H() && AllSound(net, fp[k := fp[k] + blamed], insts)
  {
    var fp' := fp[k := fp[k] + blamed];
    assert fp'.Keys == net.H();
    forall key | key in insts ensures SysInv(net, fp', insts[key]) {
      OtherInstance(net, fp, insts[key], k, blamed);
    }
  }

  lemma AllPut(net: Net, fp: map<int, set<(int, int)>>, insts: map<string, Sys>, key: string, s: Sys)
    requires net.p > 0 && fp.Keys == net.H() && AllSound(net, fp, insts) && SysInv(net, fp, s)
    ensures AllSound(net, fp, insts[key := s])
  {
  }

  lemma PostInv(net: Net, w: World, key: string, x: Payload)
    requires net.Valid() && Inv(net, w) && key in w.insts && MayPost(net, w.insts[key], x)
    ensures Inv(net, w.(insts := w.insts[key := w.insts[key].(board := w.insts[key].board + {x})]))
  {
    PostKeeps(net, w.fp, w.insts[key], x);
  }

  lemma StepInv(net: Net, w: World, key: string, e: Event)
    requires net.Valid() && Inv(net, w) && CanStep(net, w, key, e)
    ensures Inv(net, Step(net, w, key, e))
  {
    if e.Post? {
      PostInv(net, w, key, e.payload);
    } else {
      ReactionIsGood(net, w.fp, w.insts[key], e);
      ReactionBlames(net, w.fp, w.insts[key], e);
      MoveInv(net, w, key, e.k, Reaction(net, w.fp[e.k], w.insts[key], e));
    }
  }

  lemma {:induction false} RunInv(net: Net, w: World, steps: seq<(string, Event)>, w': World)
    requires net.Valid() && Inv(net, w) && Run(net, w, steps, w')
    ensures Inv(net, w')
    decreases |steps|
  {
    if steps != [] {
      StepInv(net, w, steps[0].0, steps[0].1);
      RunInv(net, Step(net, w, steps[0].0, steps[0].1), steps[1..], w');
    }
  }

  lemma InitInv(net: Net, w: World)
    requires net.Valid() && Init(net, w)
    ensures Inv(net, w)
  {
    forall key | key in w.insts {
      InitSysInv(net, w.fp, w.insts[key]);
    }
  }

  lemma InitSysInv(net: Net, fp: map<int, set<(int, int)>>, s: Sys)
    requires net.Valid() && fp.Keys == net.H() && InitSys(net, s)
    ensures SysInv(net, fp, s)
  {
    forall k | k in s.nodes ensures NodeOk(net, s, fp[k], k, s.nodes[k]) {
      assert s.nodes[k].inst.equals == {};
    }
  }

  ghost predicate Reachable(net: Net, w: World)
    requires net.p > 0
  {
    exists w0, steps :: Init(net, w0) && Run(net, w0, steps, w)
  }

  lemma ReachableInv(net: Net, w: World)
    requires net.Valid() && Reachable(net, w)
    ensures Inv(net, w)
  {
    var w0, steps :| Init(net, w0) && Run(net, w0, steps, w);
    InitInv(net, w0);
    RunInv(net, w0, steps, w);
  }

  // ------------------------------------------------------------------- theorems

  /** No honest node ever marks a pair of honest nodes as faulty, whoever deals and whatever is revealed. */
  lemma FaultyPairSoundness(net: Net, w: World, k: int, i: int, j: int)
    requires net.Valid() && Reachable(net, w) && k in net.H() && i in net.H() && j in net.H()
    ensures k in w.fp && !Faulty(w.fp[k], i, j)
  {
    ReachableInv(net, w);
    assert FpSound(net, w.fp[k]);
  }

  /** The slices the honest nodes hold. */
  ghost function Held(net: Net, s: Sys): map<int, seq<int>> {
    map k | k in s.nodes && s.nodes[k].inst.received.Some? :: s.nodes[k].inst.received.value
  }

  lemma ConsistentClique(p: int, polys: map<int, seq<int>>, valid: seq<int>)
    requires p > 0 && AllConsistent(p, polys, valid)
    ensures Clique(p, Elems(valid), polys)
  {
    forall i, j | i in Elems(valid) && j in Elems(valid) ensures Agree(p, polys, i, j) {
      var a :| 0 <= a < |valid| && valid[a] == i;
      var b :| 0 <= b < |valid| && valid[b] == j;
      assert Consistent(p, polys, valid[a], valid[b]);
      ConsistentAgree(p, polys, i, j);
    }
  }

  /** What a revealed polynomial on the board says about its sender. */
  lemma RevealedMember(net: Net, s: Sys, polys: map<int, seq<int>>, valid: seq<int>, i: int)
    requires net.Valid() && s.nodes.Keys == net.H() && BoardOk(net, s) && i in Elems(valid)
    requires forall a :: 0 <= a < |valid| ==> valid[a] in polys && Reveal(valid[a], polys[valid[a]]) in s.board
    ensures i in net.cfg.ids && |Slice(polys, i)| <= net.cfg.t + 1
    ensures i in net.H() ==> Slice(polys, i) == Slice(Held(net, s), i)
  {
    var a :| 0 <= a < |valid| && valid[a] == i;
    assert Justified(net, s, Reveal(i, polys[i]));
  }

  lemma RevealedSet(net: Net, s: Sys, polys: map<int, seq<int>>, valid: seq<int>)
    requires net.Valid() && s.nodes.Keys == net.H() && BoardOk(net, s)
    requires forall a :: 0 <= a < |valid| ==> valid[a] in polys && Reveal(valid[a], polys[valid[a]]) in s.board
    ensures Elems(valid) <= net.cfg.ids && Sized(Elems(valid), polys, net.cfg.t + 1)
    ensures Truthful(Elems(valid), net.H(), polys, Held(net, s))
  {
    forall i | i in Elems(valid) {
      RevealedMember(net, s, polys, valid, i);
    }
  }

  /** An earned value comes from an interpolation set that was accepted. */
  lemma EarnedIsAccepted(net: Net, s: Sys, v: int, polys: map<int, seq<int>>, valid: seq<int>, m: seq<int>)
    requires net.Valid() && s.nodes.Keys == net.H() && BoardOk(net, s) && EarnedBy(net, s.board, v, polys, valid, m)
    ensures Accepted(net.p, net.cfg, Held(net, s), Reconstruction(Elems(valid), polys))
    ensures v == Secret(net.p, Reconstruction(Elems(valid), polys)) % net.p
  {
    UniqueCount(valid);
    RevealedSet(net, s, polys, valid);
    ConsistentClique(net.p, polys, valid);
  }

  lemma HonestMembersAgree(net: Net, s: Sys, m: seq<int>, i: int, j: int)
    requires net.Valid() && s.nodes.Keys == net.H() && BoardOk(net, s) && OnBoard(s.board, m)
    requires i in m && j in m && i in net.H() && j in net.H()
    ensures Agree(net.p, Held(net, s), i, j)
  {
    var f := Held(net, s);
    if i == j {
      CongSame(net.p, Eval(Slice(f, i), i), Eval(Slice(f, i), i));
    } else {
      var a :| 0 <= a < |m| && m[a] == i;
      var b :| 0 <= b < |m| && m[b] == j;
      assert Equal(i, j) in s.board;
      assert Justified(net, s, Equal(i, j));
      ConsistentAgree(net.p, f, i, j);
    }
  }

  lemma HonestClique(net: Net, s: Sys, m: seq<int>, h: set<int>)
    requires net.Valid() && s.nodes.Keys == net.H() && BoardOk(net, s) && OnBoard(s.board, m)
    requires forall i :: i in h ==> i in m && i in net.H()
    ensures Clique(net.p, h, Held(net, s))
  {
    forall i, j | i in h && j in h ensures Agree(net.p, Held(net, s), i, j) {
      HonestMembersAgree(net, s, m, i, j);
    }
  }

  /** Two earned values of one instance come from one setting. */
  lemma EarnedSetting(net: Net, s: Sys, v: int, polys: map<int, seq<int>>, valid: seq<int>, m: seq<int>,
                      v': int, polys': map<int, seq<int>>, valid': seq<int>, m': seq<int>)
    requires net.Valid() && s.nodes.Keys == net.H() && BoardOk(net, s)
    requires EarnedBy(net, s.board, v, polys, valid, m) && EarnedBy(net, s.board, v', polys', valid', m')
    ensures Setting(net.p, net.cfg, Held(net, s), Reconstruction(Elems(valid), polys),
                    Reconstruction(Elems(valid'), polys'))
  {
    var h := Elems(valid) * net.H() + Elems(valid') * net.H();
    assert MSet(m) in s.board && MSet(m') in s.board;
    HonestClique(net, s, m, h);
    EarnedIsAccepted(net, s, v, polys, valid, m);
    EarnedIsAccepted(net, s, v', polys', valid', m');
  }

  lemma EarnedValuesAgree(net: Net, s: Sys, v: int, v': int)
    requires net.Valid() && s.nodes.Keys == net.H() && BoardOk(net, s) && net.cfg.n > 4 * net.cfg.t
    requires Earned(net, s.board, v) && Earned(net, s.board, v')
    ensures v == v'
  {
    var polys, valid, m :| EarnedBy(net, s.board, v, polys, valid, m);
    var polys', valid', m' :| EarnedBy(net, s.board, v', polys', valid', m');
    var a, b := Reconstruction(Elems(valid), polys), Reconstruction(Elems(valid'), polys');
    EarnedSetting(net, s, v, polys, valid, m, v', polys', valid', m');
    EarnedIsAccepted(net, s, v, polys, valid, m);
    EarnedIsAccepted(net, s, v', polys', valid', m');
    CommitmentHolds(net.p, net.cfg, Held(net, s), a, b);
    CongResidues(net.p, Secret(net.p, a), Secret(net.p, b));
  }

  /** Commitment: with `n > 4t` all honest nodes that reconstruct an instance output one value, for any dealer. */
  lemma CommitmentOverRuns(net: Net, w: World, key: string, k: int, k': int, v: int, v': int)
    requires net.Valid() && Reachable(net, w) && key in w.insts && net.cfg.n > 4 * net.cfg.t
    requires k in w.insts[key].nodes && Reconstructed(v) in w.insts[key].nodes[k].results
    requires k' in w.insts[key].nodes && Reconstructed(v') in w.insts[key].nodes[k'].results
    ensures v == v'
  {
    ReachableInv(net, w);
    var s := w.insts[key];
    assert SysInv(net, w.fp, s);
    assert NodeOk(net, s, w.fp[k], k, s.nodes[k]);
    assert NodeOk(net, s, w.fp[k'], k', s.nodes[k']);
    EarnedValuesAgree(net, s, v, v');
  }

  /** A dealer that follows the code gets its own secret reconstructed. */
  lemma HonestDealerOverRuns(net: Net, w: World, key: string, k: int, v: int)
    requires net.Valid() && Reachable(net, w) && key in w.insts && net.cfg.n > 4 * net.cfg.t
    requires k in w.insts[key].nodes && Reconstructed(v) in w.insts[key].nodes[k].results
    requires w.insts[key].dealing.Some?
    ensures var c := w.insts[key].dealing.value; c != [] && c[0] != [] && v == c[0][0] % net.p
  {
    ReachableInv(net, w);
    var s := w.insts[key];
    assert SysInv(net, w.fp, s);
    assert NodeOk(net, s, w.fp[k], k, s.nodes[k]);
    var polys, valid, m :| EarnedBy(net, s.board, v, polys, valid, m);
    EarnedIsAccepted(net, s, v, polys, valid, m);
    ManyHonest(net.p, net.cfg, Held(net, s), Reconstruction(Elems(valid), polys));
    DealtSecret(net, s, v, polys, valid, m);
  }

  /** When faulty nodes reveal nothing, `n > 3t` is enough. */
  lemma SilentFaulty(net: Net, w: World, key: string, k: int, v: int)
    requires net.Valid() && Reachable(net, w) && key in w.insts
    requires k in w.insts[key].nodes && Reconstructed(v) in w.insts[key].nodes[k].results
    requires w.insts[key].dealing.Some? && forall i, f :: Reveal(i, f) in w.insts[key].board ==> i in net.H()
    ensures var c := w.insts[key].dealing.value; c != [] && c[0] != [] && v == c[0][0] % net.p
  {
    ReachableInv(net, w);
    var s := w.insts[key];
    assert SysInv(net, w.fp, s);
    assert NodeOk(net, s, w.fp[k], k, s.nodes[k]);
    var polys, valid, m :| EarnedBy(net, s.board, v, polys, valid, m);
    AllHonest(net, s, v, polys, valid, m);
    DealtSecret(net, s, v, polys, valid, m);
  }

  /** When faulty nodes reveal nothing, honest outputs are equal for `n > 3t`, whoever deals. */
  lemma SilentAgreement(net: Net, w: World, key: string, k: int, k': int, v: int, v': int)
    requires net.Valid() && Reachable(net, w) && key in w.insts
    requires k in w.insts[key].nodes && Reconstructed(v) in w.insts[key].nodes[k].results
    requires k' in w.insts[key].nodes && Reconstructed(v') in w.insts[key].nodes[k'].results
    requires forall i, f :: Reveal(i, f) in w.insts[key].board ==> i in net.H()
    ensures v == v'
  {
    ReachableInv(net, w);
    var s := w.insts[key];
    assert SysInv(net, w.fp, s);
    assert NodeOk(net, s, w.fp[k], k, s.nodes[k]) && NodeOk(net, s, w.fp[k'], k', s.nodes[k']);
    var polys, valid, m :| EarnedBy(net, s.board, v, polys, valid, m);
    var polys', valid', m' :| EarnedBy(net, s.board, v', polys', valid', m');
    AllHonest(net, s, v, polys, valid, m);
    AllHonest(net, s, v', polys', valid', m');
    CommitmentWithHonestMembers(net, w, key, v, polys, valid, m, v', polys', valid', m');
  }

  lemma AllHonest(net: Net, s: Sys, v: int, polys: map<int, seq<int>>, valid: seq<int>, m: seq<int>)
    requires net.Valid() && EarnedBy(net, s.board, v, polys, valid, m)
    requires forall i, f :: Reveal(i, f) in s.board ==> i in net.H()
    ensures |Elems(valid) * net.H()| > net.cfg.t
  {
    forall i | i in Elems(valid) ensures i in net.H() {
      var a :| 0 <= a < |valid| && valid[a] == i;
      assert Reveal(i, polys[i]) in s.board;
    }
    assert Elems(valid) * net.H() == Elems(valid);
    UniqueCount(valid);
  }

  lemma DealtSecret(net: Net, s: Sys, v: int, polys: map<int, seq<int>>, valid: seq<int>, m: seq<int>)
    requires net.Valid() && s.nodes.Keys == net.H() && BoardOk(net, s) && SharesOk(net, s) && s.dealing.Some?
    requires EarnedBy(net, s.board, v, polys, valid, m) && |Elems(valid) * net.H()| > net.cfg.t
    ensures var c := s.dealing.value; c != [] && c[0] != [] && v == c[0][0] % net.p
  {
    var c, held := s.dealing.value, Held(net, s);
    var r := Reconstruction(Elems(valid), polys);
    EarnedIsAccepted(net, s, v, polys, valid, m);
    forall k | k in HonestPoints(net.cfg, r) ensures SliceOf(net.p, c, k, Slice(held, k)) {
      var a :| 0 <= a < |valid| && valid[a] == k;
      assert Justified(net, s, Reveal(k, polys[k]));
      assert ShareOk(net, s, k, Got(s, k).value);
    }
    HonestDealer(net.p, net.cfg, c, held, r);
    CongResidues(net.p, Secret(net.p, r), c[0][0]);
  }

  /** Below `n > 4t` the same holds for values interpolated from at least `t + 1` honest members each. */
  lemma CommitmentWithHonestMembers(net: Net, w: World, key: string, v: int, polys: map<int, seq<int>>,
                                    valid: seq<int>,
                                    m: seq<int>, v': int, polys': map<int, seq<int>>, valid': seq<int>, m': seq<int>)
    requires net.Valid() && Reachable(net, w) && key in w.insts
    requires EarnedBy(net, w.insts[key].board, v, polys, valid, m)
    requires EarnedBy(net, w.insts[key].board, v', polys', valid', m')
    requires |Elems(valid) * net.H()| > net.cfg.t && |Elems(valid') * net.H()| > net.cfg.t
    ensures v == v'
  {
    ReachableInv(net, w);
    var s := w.insts[key];
    assert SysInv(net, w.fp, s);
    var a, b := Reconstruction(Elems(valid), polys), Reconstruction(Elems(valid'), polys');
    EarnedSetting(net, s, v, polys, valid, m, v', polys', valid', m');
    EarnedIsAccepted(net, s, v, polys, valid, m);
    EarnedIsAccepted(net, s, v', polys', valid', m');
    CommitmentByHonest(net.p, net.cfg, Held(net, s), a, b);
    CongResidues(net.p, Secret(net.p, a), Secret(net.p, b));
  }

  /** No lost wake-up, and every output exactly once. */
  lemma NoLostWakeUp(net: Net, w: World, key: string, k: int)
    requires net.Valid() && Reachable(net, w) && key in w.insts && k in net.H()
    ensures k in w.insts[key].nodes && k in w.fp
    ensures var nd := w.insts[key].nodes[k];
      && (nd.inst.pending.Some? ==>
            !nd.inst.completed && !Verified(net.cfg.n, net.cfg.t, nd.inst.equals, w.fp[k], nd.inst.pending.value))
      && (k in nd.inst.ready && |nd.inst.ready| >= net.cfg.n - net.cfg.t ==>
            nd.inst.secret.Some? && Reconstructions(nd.results) == 1)
      && Reconstructions(nd.results) <= 1
      && (Reconstructions(nd.results) == 1 ==> nd.inst.secret.Some? && |nd.inst.ready| >= net.cfg.n - net.cfg.t)
      && Completions(nd.results) == (if nd.inst.completed then 1 else 0)
  {
    ReachableInv(net, w);
    var s := w.insts[key];
    assert SysInv(net, w.fp, s);
    assert NodeOk(net, s, w.fp[k], k, s.nodes[k]);
    if k in s.nodes[k].inst.ready {
      OwnReady(net, s, k, s.nodes[k].inst);
    }
  }

  /** Under a dealer that follows the code, an honest node confirms every point an honest node sends it. */
  lemma HonestNodesConfirm(net: Net, w: World, key: string, k: int, from: int, value: int)
    requires net.Valid() && Reachable(net, w) && key in w.insts && w.insts[key].dealing.Some?
    requires k in net.H() && Got(w.insts[key], k).Some? && (from, k, value) in w.insts[key].points
    ensures k in w.insts[key].nodes
    ensures OnPoint(net.p, k, w.insts[key].nodes[k].inst, from, value).sent == [Cast(Equal(k, from))]
  {
    ReachableInv(net, w);
    assert SysInv(net, w.fp, w.insts[key]);
    PointExpected(net, w.insts[key], k, from, value);
  }

  /** Under such a dealer the point an honest node sends is the value of the receiver's own polynomial. */
  lemma PointExpected(net: Net, s: Sys, k: int, from: int, value: int)
    requires net.p > 0 && PointsOk(net, s) && SharesOk(net, s) && s.dealing.Some? && s.nodes.Keys == net.H()
    requires k in net.H() && Got(s, k).Some? && (from, k, value) in s.points
    ensures OnPoint(net.p, k, s.nodes[k].inst, from, value).sent == [Cast(Equal(k, from))]
  {
    assert PointOk(net, s, from, k, value);
    assert ShareOk(net, s, k, Got(s, k).value) && ShareOk(net, s, from, Got(s, from).value);
    SharesMeet(net.p, s.dealing.value, Got(s, k).value, k, Got(s, from).value, from);
  }

  lemma SharesMeet(p: int, c: seq<seq<int>>, f: seq<int>, k: int, g: seq<int>, j: int)
    requires p > 0 && Symmetric(c) && SliceOf(p, c, k, f) && SliceOf(p, c, j, g)
    ensures Eval(f, j) % p == Eval(g, k) % p
  {
    var held := map[j := g][k := f];
    if k != j {
      SlicesAgree(p, c, held, k, j);
      CongResidues(p, Eval(f, j), Eval(g, k));
    } else {
      SliceValue(p, c, k, f, j);
      SliceValue(p, c, j, g, k);
      CongResidues(p, Eval(f, j), BiEval(c, k, j));
      CongResidues(p, Eval(g, k), BiEval(c, j, k));
    }
  }
}
