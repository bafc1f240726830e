/** Verifiable secret sharing: every delivery of a cast is a sound move. */
module IVSSDeliveries {
  import opened Quorums
  import opened Certification
  import opened IVSS
  import opened IVSSNode
  import opened IVSSRuns
  import opened IVSSGrowth
  import opened IVSSMoves

  /** What an effect that only concerns the sharing phase or the READY count must show. */
  lemma QuietMove(net: Net, s: Sys, fp: set<(int, int)>, k: int, e: Effect)
    requires net.p > 0 && s.nodes.Keys == net.H() && k in net.H() && SharesOk(net, s)
    requires e.inst.received == Got(s, k) && e.inst.secret == s.nodes[k].inst.secret
    requires Casts(e.sent) == {} && forall o :: o in e.sent ==> o.Cast?
    requires NodeOk(net, s, fp, k, Node(e.inst, s.nodes[k].results + e.results))
    ensures GoodMove(net, s, fp, k, e)
  {
    var s' := Moved(s, k, e);
    MovedGrows(s, k, e);
    if e.inst.received.Some? {
      assert ShareOk(net, s, k, Got(s, k).value);
    }
    NodeOkGrows(net, s, s', fp, fp, k, Node(e.inst, s.nodes[k].results + e.results));
  }

  lemma OffersAreLists(n: nat, t: nat, id: int, fp: set<(int, int)>, inst: Instance)
    ensures Casts(Offer(n, t, id, fp, inst)) == {} && forall o :: o in Offer(n, t, id, fp, inst) ==> o.Cast?
  {
  }

  lemma CountOutputs(results: seq<Result>, r: Result)
    ensures Completions(results + [r]) == Completions(results) + (if r.SharingComplete? then 1 else 0)
    ensures Reconstructions(results + [r]) == Reconstructions(results) + (if r.Reconstructed? then 1 else 0)
  {
    assert (results + [r])[..|results|] == results;
  }

  /** A verified list ends the sharing phase, with its one output. */
  lemma CompleteNode(net: Net, s: Sys, fp: set<(int, int)>, k: int, nd: Node, inst: Instance, m: seq<int>)
    requires net.p > 0 && Stored(net, s, k, inst) && !inst.completed && MSet(m) in s.board
    requires nd.inst == Complete(inst, m)
    requires Verified(net.cfg.n, net.cfg.t, inst.equals, fp, m)
    requires inst.secret.Some? && k in inst.ready && |inst.ready| >= net.cfg.n - net.cfg.t ==> inst.reconstructed
    requires inst.reconstructed ==> inst.secret.Some? && |inst.ready| >= net.cfg.n - net.cfg.t
    requires Output(net, s, nd)
    ensures NodeOk(net, s, fp, k, nd)
  {
    forall a, b | 0 <= a < b < |m| ensures (m[a], m[b]) in inst.equals && (m[b], m[a]) in inst.equals {
      assert Confirmed(inst.equals, fp, m[a], m[b]);
    }
  }

  lemma CompletedOutput(net: Net, s: Sys, nd: Node, inst: Instance, m: seq<int>)
    requires net.p > 0 && Output(net, s, nd) && !nd.inst.completed
    requires inst.completed && inst.reconstructed == nd.inst.reconstructed
    ensures Output(net, s, Node(inst, nd.results + [SharingComplete(m, inst.received)]))
  {
    CountOutputs(nd.results, SharingComplete(m, inst.received));
  }

  lemma EqualMove(net: Net, s: Sys, fp: set<(int, int)>, k: int, i: int, j: int)
    requires net.p > 0 && s.nodes.Keys == net.H() && k in net.H() && SharesOk(net, s)
    requires NodeOk(net, s, fp, k, s.nodes[k]) && Equal(i, j) in s.board
    ensures GoodMove(net, s, fp, k, OnEqual(net.cfg.n, net.cfg.t, k, fp, s.nodes[k].inst, i, j))
  {
    var n, t, nd := net.cfg.n, net.cfg.t, s.nodes[k];
    var next := nd.inst.(equals := nd.inst.equals + {(i, j)});
    var e := OnEqual(n, t, k, fp, nd.inst, i, j);
    OffersAreLists(n, t, k, fp, next);
    if next.pending.Some? && Verified(n, t, next.equals, fp, next.pending.value) {
      var m := next.pending.value;
      CompletedOutput(net, s, nd, Complete(next, m), m);
      CompleteNode(net, s, fp, k, Node(e.inst, nd.results + e.results), next, m);
    } else {
      assert nd.results + [] == nd.results;
    }
    QuietMove(net, s, fp, k, e);
  }

  lemma MSetMove(net: Net, s: Sys, fp: set<(int, int)>, k: int, m: seq<int>)
    requires net.p > 0 && s.nodes.Keys == net.H() && k in net.H() && SharesOk(net, s)
    requires NodeOk(net, s, fp, k, s.nodes[k]) && MSet(m) in s.board
    requires s.nodes[k].inst.pending.None? && !s.nodes[k].inst.completed
    ensures GoodMove(net, s, fp, k, OnMSet(net.cfg.n, net.cfg.t, fp, s.nodes[k].inst, m))
  {
    var n, t, nd := net.cfg.n, net.cfg.t, s.nodes[k];
    var e := OnMSet(n, t, fp, nd.inst, m);
    if Verified(n, t, nd.inst.equals, fp, m) {
      CompletedOutput(net, s, nd, Complete(nd.inst, m), m);
      CompleteNode(net, s, fp, k, Node(e.inst, nd.results + e.results), nd.inst, m);
    } else {
      assert nd.results + [] == nd.results;
    }
    QuietMove(net, s, fp, k, e);
  }

  lemma ReadyMove(net: Net, s: Sys, fp: set<(int, int)>, k: int, i: int)
    requires net.p > 0 && s.nodes.Keys == net.H() && k in net.H() && SharesOk(net, s)
    requires NodeOk(net, s, fp, k, s.nodes[k]) && Ready(i) in s.board
    ensures GoodMove(net, s, fp, k, OnReady(net.cfg.n, net.cfg.t, s.nodes[k].inst, i))
  {
    var n, t, nd := net.cfg.n, net.cfg.t, s.nodes[k];
    var e := OnReady(n, t, nd.inst, i);
    SubsetCount(nd.inst.ready, nd.inst.ready + {i});
    if e.results == [] {
      assert nd.results + [] == nd.results;
    } else {
      CountOutputs(nd.results, e.results[0]);
      assert nd.results + e.results == nd.results + [e.results[0]];
    }
    QuietMove(net, s, fp, k, e);
  }

  // ------------------------------------------------------------------- reveals

  /** What the greedy pass keeps earns its value. */
  lemma KeptEarns(net: Net, s: Sys, k: int, inst: Instance, order: seq<int>)
    requires net.p > 0 && Stored(net, s, k, inst) && Agreed(net, s, inst) && inst.mSet.Some?
    requires Lists(order, Candidates(inst))
    requires |Sift(net.p, inst.polys, order, |order|).valid| >= Target(net.cfg.n, net.cfg.t)
    ensures Earned(net, s.board, SecretOf(net.p, inst.polys, Sift(net.p, inst.polys, order, |order|).valid))
  {
    var p, m := net.p, inst.mSet.value;
    var valid := Sift(p, inst.polys, order, |order|).valid;
    SiftKeeps(p, inst.polys, order, |order|);
    SiftConsistent(p, inst.polys, order, |order|);
    assert order[..|order|] == order;
    forall a | 0 <= a < |valid|
      ensures valid[a] in m && valid[a] in inst.polys && Reveal(valid[a], inst.polys[valid[a]]) in s.board
    {
      assert valid[a] in order;
      assert valid[a] in Candidates(inst);
    }
    assert EarnedBy(net, s.board, SecretOf(p, inst.polys, valid), inst.polys, valid, m);
  }

  lemma RevealedStored(net: Net, s: Sys, k: int, inst: Instance, i: int, f: seq<int>)
    requires net.p > 0 && Stored(net, s, k, inst) && Reveal(i, f) in s.board
    ensures Stored(net, s, k, Revealed(inst, i, f))
  {
  }

  /** A node whose READY is out already had its secret. */
  lemma OwnReady(net: Net, s: Sys, k: int, inst: Instance)
    requires net.p > 0 && k in net.H() && BoardOk(net, s) && k in s.nodes && Stored(net, s, k, inst) && k in inst.ready
    ensures s.nodes[k].inst.secret.Some?
  {
    assert Justified(net, s, Ready(k));
  }

  lemma RevealNode(net: Net, s: Sys, fp: set<(int, int)>, k: int, i: int, f: seq<int>, order: seq<int>, e: Effect)
    requires net.p > 0 && k in net.H() && BoardOk(net, s) && k in s.nodes && NodeOk(net, s, fp, k, s.nodes[k])
    requires Reveal(i, f) in s.board && Lists(order, Candidates(Revealed(s.nodes[k].inst, i, f)))
    requires e == OnReveal(net.cfg.n, net.cfg.t, net.p, k, s.nodes[k].inst, i, f, order)
    ensures NodeOk(net, s, fp + e.blamed, k, Node(e.inst, s.nodes[k].results + e.results))
  {
    var nd := s.nodes[k];
    var next := Revealed(nd.inst, i, f);
    RevealedNode(net, s, fp, fp + e.blamed, k, i, f);
    assert nd.results + [] == nd.results;
    if e.inst != next {
      KeptEarns(net, s, k, next, order);
      if k in next.ready {
        OwnReady(net, s, k, nd.inst);
      }
      SecretNode(net, s, fp + e.blamed, k, Node(next, nd.results), e.inst.secret.value);
    }
  }

  lemma RevealedNode(net: Net, s: Sys, fp: set<(int, int)>, fp': set<(int, int)>, k: int, i: int, f: seq<int>)
    requires net.p > 0 && k in s.nodes && NodeOk(net, s, fp, k, s.nodes[k]) && fp <= fp' && Reveal(i, f) in s.board
    ensures NodeOk(net, s, fp', k, Node(Revealed(s.nodes[k].inst, i, f), s.nodes[k].results))
  {
    RevealedStored(net, s, k, s.nodes[k].inst, i, f);
    AwakeGrows(net, fp, fp', k, s.nodes[k].inst);
  }

  /** A value that was earned may become the secret, unless READY is out and there was none. */
  lemma SecretNode(net: Net, s: Sys, fp: set<(int, int)>, k: int, nd: Node, v: int)
    requires net.p > 0 && NodeOk(net, s, fp, k, nd) && Earned(net, s.board, v)
    requires k in nd.inst.ready ==> nd.inst.secret.Some?
    ensures NodeOk(net, s, fp, k, Node(nd.inst.(secret := Some(v)), nd.results))
  {
  }

  lemma RevealMove(net: Net, s: Sys, fp: set<(int, int)>, k: int, i: int, f: seq<int>, order: seq<int>)
    requires net.p > 0 && s.nodes.Keys == net.H() && k in net.H() && SharesOk(net, s) && BoardOk(net, s)
    requires NodeOk(net, s, fp, k, s.nodes[k]) && Enabled(net, s, Deliver(k, Reveal(i, f), order))
    ensures var e := OnReveal(net.cfg.n, net.cfg.t, net.p, k, s.nodes[k].inst, i, f, order);
            GoodMove(net, s, fp + e.blamed, k, e)
  {
    var e := OnReveal(net.cfg.n, net.cfg.t, net.p, k, s.nodes[k].inst, i, f, order);
    var s' := Moved(s, k, e);
    MovedGrows(s, k, e);
    if e.inst.received.Some? {
      assert ShareOk(net, s, k, Got(s, k).value);
    }
    RevealNode(net, s, fp, k, i, f, order, e);
    NodeOkGrows(net, s, s', fp + e.blamed, fp + e.blamed, k, Node(e.inst, s.nodes[k].results + e.results));
  }

  /** Two honest members of an agreed set hold polynomials that meet. */
  lemma MembersMeet(net: Net, s: Sys, m: seq<int>, equals: set<(int, int)>, i: int, j: int)
    requires net.p > 0 && BoardOk(net, s) && AllEqual(equals, m)
    requires i in m && j in m && i != j && i in net.H() && j in net.H()
    requires forall u, v :: (u, v) in equals ==> Equal(u, v) in s.board
    ensures HonestEqual(net, s, i, j)
  {
    var a :| 0 <= a < |m| && m[a] == i;
    var b :| 0 <= b < |m| && m[b] == j;
    assert (i, j) in equals;
    assert Justified(net, s, Equal(i, j));
  }

  /** Honest members never contradict each other. */
  lemma HonestConsistent(net: Net, s: Sys, k: int, inst: Instance, i: int, j: int)
    requires net.p > 0 && BoardOk(net, s) && Stored(net, s, k, inst) && Agreed(net, s, inst)
    requires i in Candidates(inst) && j in Candidates(inst) && i in net.H() && j in net.H()
    ensures Consistent(net.p, inst.polys, i, j)
  {
    if i != j {
      MembersMeet(net, s, inst.mSet.value, inst.equals, i, j);
      assert Justified(net, s, Reveal(i, inst.polys[i]));
      assert Justified(net, s, Reveal(j, inst.polys[j]));
    }
  }

  lemma BlameIsSound(net: Net, s: Sys, fp: set<(int, int)>, k: int, inst: Instance, order: seq<int>)
    requires net.p > 0 && BoardOk(net, s) && Stored(net, s, k, inst) && Agreed(net, s, inst)
    requires FpSound(net, fp) && Lists(order, Candidates(inst))
    ensures FpSound(net, fp + Sift(net.p, inst.polys, order, |order|).blamed)
  {
    var blamed := Sift(net.p, inst.polys, order, |order|).blamed;
    SiftBlames(net.p, inst.polys, order, |order|);
    forall i, j | i in net.H() && j in net.H() ensures !Faulty(fp + blamed, i, j) {
      assert !Faulty(fp, i, j);
      var (a, b) := Ordered(i, j);
      if (a, b) in blamed {
        HonestConsistent(net, s, k, inst, a, b);
      }
    }
  }

  lemma RevealBlames(net: Net, s: Sys, fp: set<(int, int)>, k: int, i: int, f: seq<int>, order: seq<int>)
    requires net.p > 0 && BoardOk(net, s) && k in s.nodes && NodeOk(net, s, fp, k, s.nodes[k])
    requires FpSound(net, fp) && Enabled(net, s, Deliver(k, Reveal(i, f), order))
    ensures FpSound(net, fp + OnReveal(net.cfg.n, net.cfg.t, net.p, k, s.nodes[k].inst, i, f, order).blamed)
  {
    var next := Revealed(s.nodes[k].inst, i, f);
    RevealedStored(net, s, k, s.nodes[k].inst, i, f);
    BlameIsSound(net, s, fp, k, next, order);
    assert fp + {} == fp;
  }

  // ------------------------------------------------------------ reconstruction

  /** A member of a verified list of two or more has confirmed someone, so it holds its share. */
  lemma MemberHoldsShare(net: Net, s: Sys, k: int, inst: Instance)
    requires net.Valid() && k in net.H() && BoardOk(net, s) && Stored(net, s, k, inst) && Agreed(net, s, inst)
    requires inst.completed && k in inst.mSet.value
    ensures Got(s, k).Some?
  {
    var m := inst.mSet.value;
    var a :| 0 <= a < |m| && m[a] == k;
    var b := if a == 0 then 1 else 0;
    assert (m[a], m[b]) in inst.equals;
    assert Justified(net, s, Equal(k, m[b]));
  }

  lemma BeginMove(net: Net, s: Sys, fp: set<(int, int)>, k: int)
    requires net.Valid() && s.nodes.Keys == net.H() && k in net.H() && SharesOk(net, s) && BoardOk(net, s)
    requires NodeOk(net, s, fp, k, s.nodes[k])
    ensures GoodMove(net, s, fp, k, Begun(k, s.nodes[k].inst))
  {
    var inst := s.nodes[k].inst;
    var e := Begun(k, inst);
    var s' := Moved(s, k, e);
    MovedGrows(s, k, e);
    if inst.received.Some? {
      assert ShareOk(net, s, k, Got(s, k).value);
    }
    forall x | x in Casts(e.sent) ensures CastBy(k, x) && Justified(net, s', x) {
      MemberHoldsShare(net, s, k, inst);
    }
    NodeOkGrows(net, s, s', fp, fp, k, s.nodes[k]);
    assert s.nodes[k].results + [] == s.nodes[k].results;
  }
}
