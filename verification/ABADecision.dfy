/** Decisions spread: what the COMPLETE count guarantees once casts have been delivered. */
module ABADecision {
  import opened Quorums
  import opened Vote
  import opened VoteBoard
  import opened ABA
  import opened ABARuns
  import opened ABATheorems

  /** A node has decided exactly when some value has `t + 1` COMPLETEs, and then it has cast one itself. */
  ghost predicate Counted(t: nat, nd: Aba) {
    && (nd.decided ==> |CountOf(nd.counts, nd.decision)| >= t + 1 && nd.sentComplete)
    && (forall v :: |CountOf(nd.counts, v)| >= t + 1 ==> nd.decided)
  }

  ghost predicate SameDecision(nd: Aba, nd': Aba) {
    && nd'.counts == nd.counts && nd'.decided == nd.decided && nd'.decision == nd.decision
    && (nd.sentComplete ==> nd'.sentComplete)
  }

  lemma VoteKeepsDecision(n: nat, t: nat, nd: Aba, r: int, d: Progressed)
    ensures SameDecision(nd, TakeVote(n, t, nd, r, d).0)
  {
  }

  lemma OthersKeepDecision(n: nat, t: nat, nd: Aba, e: LocalEvent)
    requires !e.CompleteDelivered?
    ensures SameDecision(nd, LocalStep(n, t, nd, e).0)
  {
    match e
    case Start =>
    case VoteDelivered(r, sender, p) =>
      VoteKeepsDecision(n, t, nd, r, OnDelivered(n, t, VoteAt(nd.votes, r), sender, p));
    case CoinResult(r, coin) =>
  }

  lemma CountedComplete(t: nat, nd: Aba, sender: int, v: int)
    requires Counted(t, nd)
    ensures Counted(t, OnComplete(t, nd, sender, v).0)
  {
    var nd' := OnComplete(t, nd, sender, v).0;
    SubsetCount(CountOf(nd.counts, v), CountOf(nd'.counts, v));
    forall w | |CountOf(nd'.counts, w)| >= t + 1 ensures nd'.decided {
      if w != v {
        assert CountOf(nd'.counts, w) == CountOf(nd.counts, w);
      }
    }
  }

  lemma CountedStep(n: nat, t: nat, nd: Aba, e: LocalEvent)
    requires Counted(t, nd)
    ensures Counted(t, LocalStep(n, t, nd, e).0)
  {
    if e.CompleteDelivered? {
      CountedComplete(t, nd, e.sender, e.value);
    } else {
      OthersKeepDecision(n, t, nd, e);
    }
  }

  ghost predicate AllCounted(c: Config, s: System) {
    forall i :: i in s.nodes ==> Counted(c.t, s.nodes[i])
  }

  lemma {:induction false} CountedRun(c: Config, s: System, es: seq<Event>, s': System)
    requires AllCounted(c, s) && Leads(c, s, es, s')
    ensures AllCounted(c, s')
    decreases |es|
  {
    if es != [] {
      if es[0].Local? {
        CountedStep(c.n, c.t, s.nodes[es[0].node], es[0].e);
      }
      CountedRun(c, Apply(c, s, es[0]), es[1..], s');
    }
  }

  /** A node that has decided has cast a COMPLETE for what it decided. */
  lemma DecidersHelp(c: Config, estimates: map<int, int>, es: seq<Event>, s: System, i: int)
    requires Reachable(c, estimates, es, s) && Binding(c, s.rules)
    requires i in c.Honest() && i in s.nodes && s.nodes[i].decided
    ensures i in s.completes && s.completes[i] == s.nodes[i].decision
  {
    ReachableInv(c, estimates, es, s);
    CountedRun(c, Init(c, s.rules, estimates), es, s);
    assert NodeOk(c, s, i) && Counted(c.t, s.nodes[i]);
    var r :| StrongAt(c, s, r, s.completes[i]);
    var q :| StrongAt(c, s, q, s.nodes[i].decision);
  }

  /** Once one node has decided, a node to which every cast COMPLETE was delivered has decided the same. */
  lemma DecisionSpreads(c: Config, estimates: map<int, int>, es: seq<Event>, s: System, i: int, j: int)
    requires Reachable(c, estimates, es, s) && Binding(c, s.rules) && {i, j} <= c.Honest()
    requires i in s.nodes && j in s.nodes && s.nodes[i].decided
    requires forall k :: k in s.completes ==> k in CountOf(s.nodes[j].counts, s.completes[k])
    ensures s.nodes[j].decided && s.nodes[j].results == s.nodes[i].results == [s.nodes[i].decision]
  {
    ReachableInv(c, estimates, es, s);
    CountedRun(c, Init(c, s.rules, estimates), es, s);
    assert NodeOk(c, s, i) && NodeOk(c, s, j) && Counted(c.t, s.nodes[i]) && Counted(c.t, s.nodes[j]);
    var v := s.nodes[i].decision;
    forall k | k in CountOf(s.nodes[i].counts, v) ensures k in CountOf(s.nodes[j].counts, v) {
      assert s.completes[k] == v;
    }
    SubsetCount(CountOf(s.nodes[i].counts, v), CountOf(s.nodes[j].counts, v));
    Agreement(c, estimates, es, s, i, j, v, s.nodes[j].decision);
  }
}
