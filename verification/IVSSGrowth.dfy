/** Verifiable secret sharing: what is on the board, dealt or earned stays so. */
module IVSSGrowth {
  import opened IVSS
  import opened IVSSRuns

  ghost predicate Grows(s: Sys, s': Sys) {
    && s.board <= s'.board && s.points <= s'.points && s.dealing == s'.dealing && s.nodes.Keys == s'.nodes.Keys
    && (forall k :: k in s.nodes && Got(s, k).Some? ==> Got(s', k) == Got(s, k))
    && (forall k :: k in s.nodes && s.nodes[k].inst.secret.Some? ==> s'.nodes[k].inst.secret.Some?)
  }

  lemma JustifiedGrows(net: Net, s: Sys, s': Sys, x: Payload)
    requires net.p > 0 && Grows(s, s') && Justified(net, s, x)
    ensures Justified(net, s', x)
  {
    match x
    case Equal(i, j) =>
      if i in net.H() {
        HonestEqualGrows(net, s, s', i, j);
      }
    case _ =>
  }

  lemma HonestEqualGrows(net: Net, s: Sys, s': Sys, i: int, j: int)
    requires net.p > 0 && Grows(s, s') && HonestEqual(net, s, i, j)
    ensures HonestEqual(net, s', i, j)
  {
    assert Got(s', i) == Got(s, i);
    if j in net.H() {
      assert Got(s', j) == Got(s, j);
    }
  }

  lemma EarnedByGrows(net: Net, b: set<Payload>, b': set<Payload>, v: int,
                      polys: map<int, seq<int>>, valid: seq<int>, m: seq<int>)
    requires net.p > 0 && b <= b' && EarnedBy(net, b, v, polys, valid, m)
    ensures EarnedBy(net, b', v, polys, valid, m)
  {
  }

  lemma EarnedGrows(net: Net, b: set<Payload>, b': set<Payload>, v: int)
    requires net.p > 0 && b <= b' && Earned(net, b, v)
    ensures Earned(net, b', v)
  {
    var polys, valid, m :| EarnedBy(net, b, v, polys, valid, m);
    EarnedByGrows(net, b, b', v, polys, valid, m);
  }

  lemma StoredGrows(net: Net, s: Sys, s': Sys, k: int, inst: Instance)
    requires net.p > 0 && Grows(s, s') && Stored(net, s, k, inst)
    ensures Stored(net, s', k, inst)
  {
    if inst.secret.Some? {
      EarnedGrows(net, s.board, s'.board, inst.secret.value);
    }
  }

  lemma OutputGrows(net: Net, s: Sys, s': Sys, nd: Node)
    requires net.p > 0 && Grows(s, s') && Output(net, s, nd)
    ensures Output(net, s', nd)
  {
    forall v | Reconstructed(v) in nd.results ensures Earned(net, s'.board, v) {
      EarnedGrows(net, s.board, s'.board, v);
    }
  }

  /** A node that did not act stays fine, also when it learns of more faulty pairs elsewhere. */
  lemma NodeOkGrows(net: Net, s: Sys, s': Sys, fp: set<(int, int)>, fp': set<(int, int)>, k: int, nd: Node)
    requires net.p > 0 && Grows(s, s') && fp <= fp' && NodeOk(net, s, fp, k, nd)
    ensures NodeOk(net, s', fp', k, nd)
  {
    StoredGrows(net, s, s', k, nd.inst);
    OutputGrows(net, s, s', nd);
    AwakeGrows(net, fp, fp', k, nd.inst);
  }

  lemma AwakeGrows(net: Net, fp: set<(int, int)>, fp': set<(int, int)>, k: int, inst: Instance)
    requires fp <= fp' && Awake(net, fp, k, inst)
    ensures Awake(net, fp', k, inst)
  {
    var n, t := net.cfg.n, net.cfg.t;
    if inst.pending.Some? && Verified(n, t, inst.equals, fp', inst.pending.value) {
      VerifiedMonotone(n, t, inst.equals, inst.equals, fp', fp, inst.pending.value);
    }
  }

  lemma PointOkGrows(net: Net, s: Sys, s': Sys, from: int, to: int, value: int)
    requires net.p > 0 && Grows(s, s') && PointOk(net, s, from, to, value)
    ensures PointOk(net, s', from, to, value)
  {
    assert Got(s', from) == Got(s, from);
  }

  // ------------------------------------------------------------------- one move

  predicate CastBy(k: int, x: Payload) {
    match x
    case Equal(i, j) => i == k
    case MSet(m) => false
    case Reveal(i, f) => i == k
    case Ready(i) => i == k
  }

  ghost predicate GoodCasts(net: Net, s: Sys, k: int, sent: seq<Out>)
    requires net.p > 0
  {
    forall x :: x in Casts(sent) ==> CastBy(k, x) && Justified(net, s, x)
  }

  ghost predicate GoodPoints(net: Net, s: Sys, k: int, sent: seq<Out>)
    requires net.p > 0
  {
    forall to, value :: Point(to, value) in sent ==> PointOk(net, s, k, to, value)
  }

  /** The effect `e` of node `k` on `s` is sound. */
  ghost predicate GoodMove(net: Net, s: Sys, fp: set<(int, int)>, k: int, e: Effect)
    requires net.p > 0 && k in s.nodes
  {
    var s' := Moved(s, k, e);
    && Grows(s, s')
    && GoodCasts(net, s', k, e.sent) && GoodPoints(net, s', k, e.sent)
    && (e.inst.received.Some? ==> ShareOk(net, s, k, e.inst.received.value))
    && NodeOk(net, s', fp, k, s'.nodes[k])
  }

  lemma BoardMoves(net: Net, s: Sys, fp: set<(int, int)>, k: int, e: Effect)
    requires net.p > 0 && k in net.H() && k in s.nodes && BoardOk(net, s) && GoodMove(net, s, fp, k, e)
    ensures BoardOk(net, Moved(s, k, e))
  {
    var s' := Moved(s, k, e);
    forall x | x in s'.board ensures Justified(net, s', x) {
      if x in s.board {
        JustifiedGrows(net, s, s', x);
      }
    }
    forall i, f, g | Reveal(i, f) in s'.board && Reveal(i, g) in s'.board ensures f == g {
      if i in net.H() {
        assert Justified(net, s', Reveal(i, f)) && Justified(net, s', Reveal(i, g));
      } else {
        assert Reveal(i, f) in s.board && Reveal(i, g) in s.board;
      }
    }
  }

  lemma PointsMove(net: Net, s: Sys, fp: set<(int, int)>, k: int, e: Effect)
    requires net.p > 0 && k in s.nodes && PointsOk(net, s) && GoodMove(net, s, fp, k, e)
    ensures PointsOk(net, Moved(s, k, e))
  {
    var s' := Moved(s, k, e);
    forall from, to, value | (from, to, value) in s'.points ensures PointOk(net, s', from, to, value) {
      if (from, to, value) in s.points {
        PointOkGrows(net, s, s', from, to, value);
      }
    }
  }

  lemma SharesMove(net: Net, s: Sys, fp: set<(int, int)>, k: int, e: Effect)
    requires net.p > 0 && k in s.nodes && SharesOk(net, s) && GoodMove(net, s, fp, k, e)
    ensures SharesOk(net, Moved(s, k, e))
  {
    var s' := Moved(s, k, e);
    forall j | j in s'.nodes && Got(s', j).Some? ensures ShareOk(net, s', j, Got(s', j).value) {
      if j != k {
        assert Got(s', j) == Got(s, j);
      }
    }
  }

  /** A sound move keeps the whole instance sound. */
  lemma MoveKeeps(net: Net, fp: map<int, set<(int, int)>>, s: Sys, k: int, e: Effect)
    requires net.p > 0 && fp.Keys == net.H() && k in net.H() && SysInv(net, fp, s)
    requires GoodMove(net, s, fp[k] + e.blamed, k, e)
    ensures SysInv(net, fp[k := fp[k] + e.blamed], Moved(s, k, e))
  {
    var s' := Moved(s, k, e);
    BoardMoves(net, s, fp[k] + e.blamed, k, e);
    PointsMove(net, s, fp[k] + e.blamed, k, e);
    SharesMove(net, s, fp[k] + e.blamed, k, e);
    forall j | j in s'.nodes && j != k {
      NodeOkGrows(net, s, s', fp[j], fp[j], j, s.nodes[j]);
    }
  }

  /** More faulty pairs recorded through another instance do no harm. */
  lemma OtherInstance(net: Net, fp: map<int, set<(int, int)>>, s: Sys, k: int, blamed: set<(int, int)>)
    requires net.p > 0 && fp.Keys == net.H() && k in net.H() && SysInv(net, fp, s)
    ensures SysInv(net, fp[k := fp[k] + blamed], s)
  {
    AwakeGrows(net, fp[k], fp[k] + blamed, k, s.nodes[k].inst);
  }

  lemma PostBoard(net: Net, s: Sys, s': Sys, x: Payload)
    requires net.Valid() && BoardOk(net, s) && MayPost(net, s, x) && s' == s.(board := s.board + {x}) && Grows(s, s')
    ensures BoardOk(net, s')
  {
    forall y | y in s'.board ensures Justified(net, s', y) {
      if y in s.board {
        JustifiedGrows(net, s, s', y);
      }
    }
  }

  lemma PostKeeps(net: Net, fp: map<int, set<(int, int)>>, s: Sys, x: Payload)
    requires net.Valid() && fp.Keys == net.H() && SysInv(net, fp, s) && MayPost(net, s, x)
    ensures SysInv(net, fp, s.(board := s.board + {x}))
  {
    var s' := s.(board := s.board + {x});
    PostBoard(net, s, s', x);
    forall from, to, value | (from, to, value) in s.points {
      PointOkGrows(net, s, s', from, to, value);
    }
    forall k | k in s.nodes {
      NodeOkGrows(net, s, s', fp[k], fp[k], k, s.nodes[k]);
    }
  }
}
