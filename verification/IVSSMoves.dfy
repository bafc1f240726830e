/** Verifiable secret sharing: every handler is a sound move. */
module IVSSMoves {
  import opened Quorums
  import opened Lagrange
  import opened IVSS
  import opened IVSSNode
  import opened IVSSRuns
  import opened IVSSGrowth

  lemma MovedGrows(s: Sys, k: int, e: Effect)
    requires k in s.nodes
    requires Got(s, k).Some? ==> e.inst.received == Got(s, k)
    requires s.nodes[k].inst.secret.Some? ==> e.inst.secret.Some?
    ensures Grows(s, Moved(s, k, e))
  {
  }

  // ------------------------------------------------------------ shares and points

  lemma {:induction false} PointsSent(p: int, poly: seq<int>, k: nat, o: Out)
    requires p > 0 && o in PointsTo(p, poly, k)
    ensures o.Point? && o.value == Eval(poly, o.to) % p
  {
    if o in PointsTo(p, poly, k - 1) {
      PointsSent(p, poly, k - 1, o);
    }
  }

  lemma {:induction false} ConfirmationsSent(p: int, id: int, poly: seq<int>, early: map<int, int>, order: seq<int>,
                                             k: nat, o: Out)
    requires p > 0 && k <= |order| && forall a :: 0 <= a < k ==> order[a] in early
    requires o in ConfirmAll(p, id, poly, early, order, k)
    ensures o.Cast? && o.payload.Equal? && o.payload.i == id
    ensures o.payload.j in early && Eval(poly, o.payload.j) % p == early[o.payload.j]
  {
    if o in ConfirmAll(p, id, poly, early, order, k - 1) {
      ConfirmationsSent(p, id, poly, early, order, k - 1, o);
    }
  }

  /** A point that matches justifies the confirmation. */
  lemma MatchJustifies(net: Net, s: Sys, s': Sys, k: int, from: int, poly: seq<int>, value: int)
    requires net.p > 0 && k in net.cfg.ids && Grows(s, s') && PointsOk(net, s) && Got(s', k) == Some(poly)
    requires from in net.H() ==> (from, k, value) in s.points
    requires Eval(poly, from) % net.p == value
    ensures Justified(net, s', Equal(k, from))
  {
    if from in net.H() {
      assert PointOk(net, s, from, k, value);
      PointOkGrows(net, s, s', from, k, value);
    }
  }

  lemma DealMove(net: Net, s: Sys, fp: set<(int, int)>, k: int, from: int, poly: seq<int>, order: seq<int>)
    requires net.Valid() && s.nodes.Keys == net.H() && k in net.H() && PointsOk(net, s) && SharesOk(net, s)
    requires NodeOk(net, s, fp, k, s.nodes[k]) && Enabled(net, s, Deal(k, from, poly, order))
    ensures GoodMove(net, s, fp, k, OnShare(net.cfg.n, net.p, k, s.nodes[k].inst, from, poly, order))
  {
    var e := OnShare(net.cfg.n, net.p, k, s.nodes[k].inst, from, poly, order);
    var s' := Moved(s, k, e);
    MovedGrows(s, k, e);
    DealtCasts(net, s, s', k, s.nodes[k].inst, poly, order);
    DealtPoints(net, s', k, s.nodes[k].inst, poly, order);
    DealtNode(net, s, s', fp, k, e);
  }

  lemma DealtCasts(net: Net, s: Sys, s': Sys, k: int, inst: Instance, poly: seq<int>, order: seq<int>)
    requires net.p > 0 && k in net.cfg.ids && Grows(s, s') && PointsOk(net, s) && Got(s', k) == Some(poly)
    requires forall from :: from in inst.early && from in net.H() ==> (from, k, inst.early[from]) in s.points
    requires forall a :: 0 <= a < |order| ==> order[a] in inst.early
    ensures GoodCasts(net, s', k,
                      PointsTo(net.p, poly, net.cfg.n) + ConfirmAll(net.p, k, poly, inst.early, order, |order|))
  {
    var sent := PointsTo(net.p, poly, net.cfg.n) + ConfirmAll(net.p, k, poly, inst.early, order, |order|);
    forall x | x in Casts(sent) ensures CastBy(k, x) && Justified(net, s', x) {
      DealtCast(net, s, s', k, inst, poly, order, x);
    }
  }

  lemma DealtPoints(net: Net, s': Sys, k: int, inst: Instance, poly: seq<int>, order: seq<int>)
    requires net.p > 0 && Got(s', k) == Some(poly) && forall a :: 0 <= a < |order| ==> order[a] in inst.early
    ensures GoodPoints(net, s', k,
                       PointsTo(net.p, poly, net.cfg.n) + ConfirmAll(net.p, k, poly, inst.early, order, |order|))
  {
    var sent := PointsTo(net.p, poly, net.cfg.n) + ConfirmAll(net.p, k, poly, inst.early, order, |order|);
    forall to, value | Point(to, value) in sent ensures PointOk(net, s', k, to, value) {
      DealtPoint(net, k, inst, poly, order, to, value);
    }
  }

  lemma DealtCast(net: Net, s: Sys, s': Sys, k: int, inst: Instance, poly: seq<int>, order: seq<int>, x: Payload)
    requires net.p > 0 && k in net.cfg.ids && Grows(s, s') && PointsOk(net, s) && Got(s', k) == Some(poly)
    requires forall from :: from in inst.early && from in net.H() ==> (from, k, inst.early[from]) in s.points
    requires forall a :: 0 <= a < |order| ==> order[a] in inst.early
    requires Cast(x) in PointsTo(net.p, poly, net.cfg.n) + ConfirmAll(net.p, k, poly, inst.early, order, |order|)
    ensures CastBy(k, x) && Justified(net, s', x)
  {
    if Cast(x) in PointsTo(net.p, poly, net.cfg.n) {
      PointsSent(net.p, poly, net.cfg.n, Cast(x));
    } else {
      ConfirmationsSent(net.p, k, poly, inst.early, order, |order|, Cast(x));
      MatchJustifies(net, s, s', k, x.j, poly, inst.early[x.j]);
    }
  }

  lemma DealtPoint(net: Net, k: int, inst: Instance, poly: seq<int>, order: seq<int>, to: int, value: int)
    requires net.p > 0 && forall a :: 0 <= a < |order| ==> order[a] in inst.early
    requires Point(to, value) in
      PointsTo(net.p, poly, net.cfg.n) + ConfirmAll(net.p, k, poly, inst.early, order, |order|)
    ensures value == Eval(poly, to) % net.p
  {
    if Point(to, value) in PointsTo(net.p, poly, net.cfg.n) {
      PointsSent(net.p, poly, net.cfg.n, Point(to, value));
    } else {
      ConfirmationsSent(net.p, k, poly, inst.early, order, |order|, Point(to, value));
    }
  }

  /** Learning or forgetting points leaves the rest of a node as it was. */
  lemma DealtNode(net: Net, s: Sys, s': Sys, fp: set<(int, int)>, k: int, e: Effect)
    requires net.p > 0 && k in s.nodes && Grows(s, s') && NodeOk(net, s, fp, k, s.nodes[k]) && s' == Moved(s, k, e)
    requires e.results == []
    requires e.inst == s.nodes[k].inst.(received := e.inst.received, dealer := e.inst.dealer, early := e.inst.early)
    requires forall from :: from in e.inst.early && from in net.H() ==> (from, k, e.inst.early[from]) in s.points
    ensures NodeOk(net, s', fp, k, s'.nodes[k])
  {
    NodeOkGrows(net, s, s', fp, fp, k, s.nodes[k]);
    assert s.nodes[k].results + [] == s.nodes[k].results;
  }

  lemma SampleCasts(net: Net, s: Sys, s': Sys, k: int, from: int, value: int)
    requires net.p > 0 && k in net.H() && k in s.nodes && Grows(s, s') && PointsOk(net, s)
    requires Enabled(net, s, Sampled(k, from, value))
    ensures GoodCasts(net, s', k, OnPoint(net.p, k, s.nodes[k].inst, from, value).sent)
  {
    var inst := s.nodes[k].inst;
    forall x | x in Casts(OnPoint(net.p, k, inst, from, value).sent) ensures CastBy(k, x) && Justified(net, s', x) {
      MatchJustifies(net, s, s', k, from, inst.received.value, value);
    }
  }

  lemma SampleMove(net: Net, s: Sys, fp: set<(int, int)>, k: int, from: int, value: int)
    requires net.Valid() && s.nodes.Keys == net.H() && k in net.H() && PointsOk(net, s) && SharesOk(net, s)
    requires NodeOk(net, s, fp, k, s.nodes[k]) && Enabled(net, s, Sampled(k, from, value))
    ensures GoodMove(net, s, fp, k, OnPoint(net.p, k, s.nodes[k].inst, from, value))
  {
    var inst := s.nodes[k].inst;
    var e := OnPoint(net.p, k, inst, from, value);
    var s' := Moved(s, k, e);
    MovedGrows(s, k, e);
    SampleCasts(net, s, s', k, from, value);
    if inst.received.Some? {
      assert ShareOk(net, s, k, Got(s, k).value);
    }
    DealtNode(net, s, s', fp, k, e);
  }

  // --------------------------------------------------- points before the share

  lemma {:induction false} ConfirmationsExact(p: int, id: int, poly: seq<int>, early: map<int, int>,
                                              order: seq<int>, k: nat, a: nat)
    requires p > 0 && a < k <= |order| && (forall b :: 0 <= b < k ==> order[b] in early)
    requires Eval(poly, order[a]) % p == early[order[a]]
    ensures Cast(Equal(id, order[a])) in ConfirmAll(p, id, poly, early, order, k)
    decreases k
  {
    if a < k - 1 {
      ConfirmationsExact(p, id, poly, early, order, k - 1, a);
    }
  }

  /** On its share a node answers everyone: a point to each node, a confirmation to each early point that matches. */
  lemma ShareAnswersAll(n: nat, p: int, id: int, inst: Instance, from: int, poly: seq<int>, order: seq<int>, j: int)
    requires p > 0 && Lists(order, inst.early.Keys)
    ensures var sent := OnShare(n, p, id, inst, from, poly, order).sent;
      && (1 <= j <= n ==> Point(j, Eval(poly, j) % p) in sent)
      && (Cast(Equal(id, j)) in sent <==> j in inst.early && Eval(poly, j) % p == inst.early[j])
  {
    if 1 <= j <= n {
      PointsAllSent(p, poly, n, j);
    }
    if j in inst.early && Eval(poly, j) % p == inst.early[j] {
      var a :| 0 <= a < |order| && order[a] == j;
      ConfirmationsExact(p, id, poly, inst.early, order, |order|, a);
    }
    if Cast(Equal(id, j)) in PointsTo(p, poly, n) {
      PointsSent(p, poly, n, Cast(Equal(id, j)));
    }
    if Cast(Equal(id, j)) in ConfirmAll(p, id, poly, inst.early, order, |order|) {
      ConfirmationsSent(p, id, poly, inst.early, order, |order|, Cast(Equal(id, j)));
    }
  }

  /** A point may come before or after the share: the node ends in the same state and confirms the same nodes. */
  lemma PointShareCommute(n: nat, p: int, id: int, inst: Instance, from: int, value: int,
                          dealer: int, poly: seq<int>, order: seq<int>, order': seq<int>, j: int)
    requires p > 0 && inst.received.None? && from !in inst.early
    requires Lists(order, inst.early.Keys) && Lists(order', inst.early[from := value].Keys)
    ensures var early := OnPoint(p, id, inst, from, value);
            var late := OnShare(n, p, id, early.inst, dealer, poly, order');
            var share := OnShare(n, p, id, inst, dealer, poly, order);
            var point := OnPoint(p, id, share.inst, from, value);
            && late.inst == point.inst
            && (Cast(Equal(id, j)) in early.sent + late.sent <==> Cast(Equal(id, j)) in share.sent + point.sent)
  {
    ShareAnswersAll(n, p, id, inst, dealer, poly, order, j);
    ShareAnswersAll(n, p, id, inst.(early := inst.early[from := value]), dealer, poly, order', j);
  }
}
