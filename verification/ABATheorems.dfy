/** What the agreement loop promises, over every run and whatever the coins say. */
module ABATheorems {
  import opened Quorums
  import opened Vote
  import opened VoteBoard
  import opened ABA
  import opened ABARuns
  import opened ABASafety
  import opened ABALoop

  ghost predicate Reachable(c: Config, estimates: map<int, int>, es: seq<Event>, s: System) {
    c.Valid() && c.Honest() <= estimates.Keys && Leads(c, Init(c, s.rules, estimates), es, s)
  }

  lemma ReachableInv(c: Config, estimates: map<int, int>, es: seq<Event>, s: System)
    requires Reachable(c, estimates, es, s)
    ensures Inv(c, s)
  {
    InitInv(c, s.rules, estimates);
    RunInv(c, Init(c, s.rules, estimates), es, s);
  }

  /** All grade 2 outcomes, of all nodes and all rounds, carry one value. */
  lemma StrongOutcomesAgree(c: Config, estimates: map<int, int>, es: seq<Event>, s: System,
                            i: int, r: int, v: int, j: int, q: int, w: int)
    requires Reachable(c, estimates, es, s) && Binding(c, s.rules)
    requires HasOut(c, s, i, r, Outcome(v, 2)) && HasOut(c, s, j, q, Outcome(w, 2))
    ensures v == w
  {
    ReachableInv(c, estimates, es, s);
    assert StrongAt(c, s, r, v) && StrongAt(c, s, q, w);
  }

  /** Whatever the ballots: no node sends two results. */
  lemma OneResultEach(c: Config, estimates: map<int, int>, es: seq<Event>, s: System, i: int, v: int)
    requires Reachable(c, estimates, es, s) && i in c.Honest() && i in s.nodes && v in s.nodes[i].results
    ensures s.nodes[i].results == [v] && s.nodes[i].decided && s.nodes[i].decision == v
  {
    ReachableInv(c, estimates, es, s);
    assert NodeOk(c, s, i);
  }

  /** Agreement: no two nodes that follow the code send different results, and none sends two. */
  lemma Agreement(c: Config, estimates: map<int, int>, es: seq<Event>, s: System, i: int, j: int, v: int, w: int)
    requires Reachable(c, estimates, es, s) && Binding(c, s.rules) && {i, j} <= c.Honest()
    requires i in s.nodes && j in s.nodes && v in s.nodes[i].results && w in s.nodes[j].results
    ensures v == w && s.nodes[i].results == [v]
  {
    ReachableInv(c, estimates, es, s);
    assert NodeOk(c, s, i) && NodeOk(c, s, j);
  }

  /** Whatever the ballots: a result is a bit that some node that follows the code reached with grade 2. */
  lemma ResultsAreEarned(c: Config, estimates: map<int, int>, es: seq<Event>, s: System, i: int, v: int)
    requires Reachable(c, estimates, es, s) && i in c.Honest() && i in s.nodes && v in s.nodes[i].results
    ensures StrongSomewhere(c, s, v) && (v == 0 || v == 1)
  {
    ReachableInv(c, estimates, es, s);
    assert NodeOk(c, s, i);
    var r :| StrongAt(c, s, r, v);
    var k :| HasOut(c, s, k, r, Outcome(v, 2));
    OutcomeShape(c, s, k, r, Outcome(v, 2));
  }

  // ------------------------------------------------------------------ persistence

  /** A grade 2 outcome cannot go against a round that everyone entered with `v`. */
  lemma StrongAfterUnanimity(c: Config, s: System, r: int, v: int, q: int, w: int)
    requires c.Valid() && Inv(c, s) && Binding(c, s.rules) && r >= 1 && (v == 0 || v == 1)
    requires InputsAre(c, s, r, v) && StrongAt(c, s, q, w) && q >= r
    ensures w == v
  {
    if q == r {
      var i :| HasOut(c, s, i, q, Outcome(w, 2));
      InputsHold(c, s, r, v, i, Outcome(w, 2));
    } else {
      assert Open(c, s, r, w);
      var j, o :| HasOut(c, s, j, r, o) && (o.conf == 0 || o.value == w);
      InputsHold(c, s, r, v, j, o);
    }
  }

  lemma DecisionsFollowInputs(c: Config, s: System, r: int, v: int, h: int)
    requires c.Valid() && Inv(c, s) && Binding(c, s.rules) && r >= 1 && (v == 0 || v == 1)
    requires InputsAre(c, s, r, v) && h in c.Honest() && h in BoardAt(s.boards, r).inputs
    ensures forall w :: StrongSomewhere(c, s, w) ==> w == v
  {
    forall w | StrongSomewhere(c, s, w) ensures w == v {
      var q :| StrongAt(c, s, q, w);
      if q < r {
        Locked(c, s, q, r, w);
      } else {
        StrongAfterUnanimity(c, s, r, v, q, w);
      }
    }
  }

  /**
   Persistence: if every code-following node that entered round `r` did so with `v`, and one did, then
   every later round is entered with `v`, every finished round from `r` on ended with `v` and a grade, which is 2 if
   VOTE1s are justified, and every decision is `v`.
   */
  lemma UnanimityPersists(c: Config, estimates: map<int, int>, es: seq<Event>, s: System, r: int, v: int, h: int,
                          q: int)
    requires Reachable(c, estimates, es, s) && Binding(c, s.rules) && 1 <= r <= q && (v == 0 || v == 1)
    requires InputsAre(c, s, r, v) && h in c.Honest() && h in BoardAt(s.boards, r).inputs
    ensures InputsAre(c, s, q, v) && DecisionsAre(c, s, v)
    ensures forall j, o :: HasOut(c, s, j, q, o) ==> o.value == v && o.conf >= 1
    ensures c.t == 0 || s.rules.votes1 ==> forall j, o :: HasOut(c, s, j, q, o) ==> o == Outcome(v, 2)
  {
    ReachableInv(c, estimates, es, s);
    DecisionsFollowInputs(c, s, r, v, h);
    forall j | j in c.Honest() && j in s.nodes && s.nodes[j].decided ensures s.nodes[j].decision == v {
      assert NodeOk(c, s, j);
    }
    Persistence(c, s, r, q, v);
    forall j, o | HasOut(c, s, j, q, o)
      ensures o.value == v && o.conf >= 1 && (c.t == 0 || s.rules.votes1 ==> o == Outcome(v, 2))
    {
      InputsHold(c, s, q, v, j, o);
      if c.t == 0 || s.rules.votes1 {
        InputsWin(c, s, q, v, j, o);
      }
    }
  }

  // --------------------------------------------------------------------- validity

  /** Round 1 is entered with the initial estimate. */
  ghost predicate FirstInputs(c: Config, estimates: map<int, int>, s: System) {
    && s.nodes.Keys == c.Honest() <= estimates.Keys
    && (forall i :: i in c.Honest() && s.nodes[i].round == 0 ==>
          s.nodes[i].estimate == estimates[i] && s.nodes[i].coin == None)
    && (forall i :: i in c.Honest() && i in BoardAt(s.boards, 1).inputs ==>
          BoardAt(s.boards, 1).inputs[i] == estimates[i])
  }

  /** Before it starts a node does nothing but count COMPLETEs; afterwards it only enters later rounds. */
  lemma RoundsAdvance(n: nat, t: nat, nd: Aba, e: LocalEvent)
    requires Ready(nd, e) && (nd.round == 0 ==> nd.coin == None)
    ensures var (nd', fx) := LocalStep(n, t, nd, e);
            && (nd.round == 0 && !e.Start? ==>
                  nd'.round == 0 && nd'.estimate == nd.estimate && nd'.coin == None && fx.entry == None)
            && (nd.round >= 1 ==> nd'.round >= 1 && (fx.entry.Some? ==> fx.entry.value.round >= 2))
            && (e.Start? ==>
                  && nd'.round == 1
                  && (fx.entry.Some? ==> fx.entry.value.round == 1 && fx.entry.value.bit == nd.estimate))
  {
    match e
    case Start =>
    case VoteDelivered(r, sender, p) => VoteAdvances(n, t, nd, r, OnDelivered(n, t, VoteAt(nd.votes, r), sender, p));
    case CoinResult(r, coin) =>
    case CompleteDelivered(sender, v) =>
  }

  lemma VoteAdvances(n: nat, t: nat, nd: Aba, r: int, d: Progressed)
    requires nd.round == 0 ==> nd.coin == None
    ensures var (nd', fx) := TakeVote(n, t, nd, r, d);
            && (nd.round == 0 ==> nd'.round == 0 && nd'.estimate == nd.estimate && nd'.coin == None && fx.entry == None)
            && (nd.round >= 1 ==> nd'.round >= 1 && (fx.entry.Some? ==> fx.entry.value.round >= 2))
  {
  }

  lemma FirstInputsLocal(c: Config, estimates: map<int, int>, s: System, i: int, r: int, nd: Aba, fx: Effects)
    requires FirstInputs(c, estimates, s) && i in c.Honest()
    requires nd.round == 0 ==> s.nodes[i].round == 0 && nd.estimate == s.nodes[i].estimate && nd.coin == None
    requires fx.entry.Some? && fx.entry.value.round == 1 ==> fx.entry.value.bit == estimates[i]
    ensures var boards := if fx.ballots.None? then s.boards else CastBallots(s.boards, i, r, fx.ballots.value);
            FirstInputs(c, estimates, System(s.rules, s.nodes[i := nd], CastEntry(boards, i, fx.entry),
                                             CastComplete(s.completes, i, fx.complete)))
  {
    var boards := if fx.ballots.None? then s.boards else CastBallots(s.boards, i, r, fx.ballots.value);
    assert BoardAt(boards, 1).inputs == BoardAt(s.boards, 1).inputs;
    var boards' := CastEntry(boards, i, fx.entry);
    assert forall k :: k in BoardAt(boards', 1).inputs && k != i ==> k in BoardAt(s.boards, 1).inputs;
    assert s.nodes[i := nd].Keys == c.Honest();
  }

  lemma FirstInputsStep(c: Config, estimates: map<int, int>, s: System, e: Event)
    requires FirstInputs(c, estimates, s) && Legal(c, s, e)
    ensures FirstInputs(c, estimates, Apply(c, s, e))
  {
    if e.Local? {
      RoundsAdvance(c.n, c.t, s.nodes[e.node], e.e);
      var (nd, fx) := LocalStep(c.n, c.t, s.nodes[e.node], e.e);
      FirstInputsLocal(c, estimates, s, e.node, EventRound(e.e), nd, fx);
    }
  }

  lemma {:induction false} FirstInputsRun(c: Config, estimates: map<int, int>, s: System, es: seq<Event>, s': System)
    requires FirstInputs(c, estimates, s) && Leads(c, s, es, s')
    ensures FirstInputs(c, estimates, s')
    decreases |es|
  {
    if es != [] {
      FirstInputsStep(c, estimates, s, es[0]);
      FirstInputsRun(c, estimates, Apply(c, s, es[0]), es[1..], s');
    }
  }

  /** Validity: if every code-following node begins with `v`, every result it sends is `v`. */
  lemma Validity(c: Config, estimates: map<int, int>, es: seq<Event>, s: System, v: int, i: int, w: int)
    requires Reachable(c, estimates, es, s) && Faithful(c, s.rules) && (v == 0 || v == 1)
    requires forall j :: j in c.Honest() ==> estimates[j] == v
    requires i in c.Honest() && i in s.nodes && w in s.nodes[i].results
    ensures w == v
  {
    ReachableInv(c, estimates, es, s);
    FirstInputsRun(c, estimates, Init(c, s.rules, estimates), es, s);
    OneResultEach(c, estimates, es, s, i, w);
    assert InputsAre(c, s, 1, v);
  }
}
