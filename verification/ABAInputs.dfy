/** Where the INPUTs of the agreement loop come from: decisions, outcomes and coins, over every run. */
module ABAInputs {
  import opened Quorums
  import opened Vote
  import opened VoteBoard
  import opened ABA
  import opened ABARuns
  import opened ABALoop
  import opened ABATheorems
  import opened ABADecision

  /** Between `s` and `s'` node `i` cast an INPUT for round `r`. */
  ghost predicate CastsInput(s: System, s': System, i: int, r: int) {
    var before, after := BoardAt(s.boards, r).inputs, BoardAt(s'.boards, r).inputs;
    i in after && (i !in before || after[i] != before[i])
  }

  /** The node has outcome `o` of its round and the coin `coin` for it, or `e` brings what is missing. */
  ghost predicate Holds(nd: Aba, e: LocalEvent, nd': Aba, o: Outcome, coin: int) {
    && (nd.voteResult == Some(o) ||
        (e.VoteDelivered? && e.round == nd.round && VoteAt(nd'.votes, nd.round).outcome == Some(o)))
    && (nd.coin == Some(coin) || e == CoinResult(nd.round, coin))
  }

  /** The bit for the next round: the decision if there is one, else a graded outcome, else the coin. */
  ghost predicate Chosen(nd: Aba, e: LocalEvent, nd': Aba, bit: int) {
    exists o, coin :: Holds(nd, e, nd', o, coin) && bit ==
      if nd.decided then nd.decision else if o.conf == 1 || o.conf == 2 then o.value else coin
  }

  lemma AdvanceCasts(n: nat, t: nat, nd: Aba)
    ensures var entry := Advance(n, t, nd).2;
            entry.Some? ==>
              && nd.voteResult.Some? && nd.coin.Some? && entry.value.round == nd.round + 1
              && entry.value.bit == (if nd.decided then nd.decision
                                     else if nd.voteResult.value.conf == 1 || nd.voteResult.value.conf == 2
                                     then nd.voteResult.value.value
                                     else nd.coin.value)
  {
  }

  /** What one event makes a node cast as the INPUT of a later round. */
  lemma EntryIs(n: nat, t: nat, nd: Aba, e: LocalEvent)
    requires Ready(nd, e)
    ensures var (nd', fx) := LocalStep(n, t, nd, e);
            fx.entry.Some? && fx.entry.value.round >= 2 ==>
              fx.entry.value.round == nd.round + 1 && Chosen(nd, e, nd', fx.entry.value.bit)
  {
    var (nd', fx) := LocalStep(n, t, nd, e);
    match e
    case Start =>
    case CompleteDelivered(sender, v) =>
    case CoinResult(r, coin) =>
      if r == nd.round {
        AdvanceCasts(n, t, nd.(coin := Some(coin)));
        if fx.entry.Some? {
          assert Holds(nd, e, nd', nd.voteResult.value, coin);
        }
      }
    case VoteDelivered(r, sender, p) =>
      VoteEntry(n, t, nd, r, OnDelivered(n, t, VoteAt(nd.votes, r), sender, p));
      if fx.entry.Some? {
        assert Holds(nd, e, nd', VoteAt(nd'.votes, nd.round).outcome.value, nd.coin.value);
      }
  }

  lemma VoteEntry(n: nat, t: nat, nd: Aba, r: int, d: Progressed)
    ensures var (nd', fx) := TakeVote(n, t, nd, r, d);
            fx.entry.Some? ==>
              && r == nd.round && nd.coin.Some? && fx.entry.value.round == nd.round + 1
              && d.round.outcome.Some? && VoteAt(nd'.votes, nd.round).outcome == d.round.outcome
              && fx.entry.value.bit == (if nd.decided then nd.decision
                                        else if d.round.outcome.value.conf == 1 || d.round.outcome.value.conf == 2
                                        then d.round.outcome.value.value
                                        else nd.coin.value)
  {
    AdvanceCasts(n, t, nd.(votes := nd.votes[r := d.round], voteResult := d.round.outcome));
  }

  /** INPUTs reach the boards through an entry only. */
  lemma EntryWrites(boards: map<int, Board>, k: int, ballots: Option<Progressed>, q: int, entry: Option<Entry>, r: int)
    ensures var cast := if ballots.None? then boards else CastBallots(boards, k, q, ballots.value);
            BoardAt(CastEntry(cast, k, entry), r).inputs ==
              if entry.Some? && entry.value.round == r then BoardAt(boards, r).inputs[k := entry.value.bit]
              else BoardAt(boards, r).inputs
  {
  }

  lemma CastByEntry(c: Config, s: System, i: int, e: LocalEvent, k: int, r: int)
    requires Legal(c, s, Local(k, e)) && i in c.Honest() && CastsInput(s, Apply(c, s, Local(k, e)), i, r)
    ensures k == i
    ensures var entry := LocalStep(c.n, c.t, s.nodes[k], e).1.entry;
            entry.Some? && entry.value.round == r
            && BoardAt(Apply(c, s, Local(k, e)).boards, r).inputs[i] == entry.value.bit
  {
    var fx := LocalStep(c.n, c.t, s.nodes[k], e).1;
    EntryWrites(s.boards, k, fx.ballots, EventRound(e), fx.entry, r);
  }

  /** An INPUT of a later round is cast by the node itself, from the round before, with both results of that round. */
  lemma InputStep(c: Config, s: System, e: Event, i: int, r: int)
    requires Legal(c, s, e) && i in c.Honest() && r >= 2 && CastsInput(s, Apply(c, s, e), i, r)
    ensures e.Local? && e.node == i && i in s.nodes && s.nodes[i].round == r - 1
    ensures var nd, nd' := s.nodes[i], Apply(c, s, e).nodes[i];
            Chosen(nd, e.e, nd', BoardAt(Apply(c, s, e).boards, r).inputs[i])
  {
    if e.Local? {
      CastByEntry(c, s, i, e.e, e.node, r);
      EntryIs(c.n, c.t, s.nodes[i], e.e);
    }
  }

  // -------------------------------------------------------------- after a decision

  /** A step of a node that has decided casts no INPUT but the decision. */
  lemma DecidedInput(c: Config, s: System, e: Event, i: int, r: int)
    requires Legal(c, s, e) && i in c.Honest() && i in s.nodes && s.nodes[i].decided
    requires r >= 2 && CastsInput(s, Apply(c, s, e), i, r)
    ensures BoardAt(Apply(c, s, e).boards, r).inputs[i] == s.nodes[i].decision
  {
    InputStep(c, s, e, i, r);
  }

  lemma DecisionStays(n: nat, t: nat, nd: Aba, e: LocalEvent)
    requires nd.decided
    ensures var nd' := LocalStep(n, t, nd, e).0; nd'.decided && nd'.decision == nd.decision
  {
    if !e.CompleteDelivered? {
      OthersKeepDecision(n, t, nd, e);
    }
  }

  lemma StillDecided(c: Config, s: System, e: Event, i: int)
    requires Legal(c, s, e) && i in s.nodes && s.nodes[i].decided
    ensures var s' := Apply(c, s, e);
            i in s'.nodes && s'.nodes[i].decided && s'.nodes[i].decision == s.nodes[i].decision
  {
    if e.Local? && e.node == i {
      DecisionStays(c.n, c.t, s.nodes[i], e.e);
    }
  }

  /** Every INPUT a node casts after it has decided is its decision, in every run. */
  lemma {:induction false} AfterDecision(c: Config, s: System, es: seq<Event>, s': System, i: int, r: int)
    requires Leads(c, s, es, s') && i in c.Honest() && i in s.nodes && s.nodes[i].decided
    requires r >= 2 && CastsInput(s, s', i, r)
    ensures BoardAt(s'.boards, r).inputs[i] == s.nodes[i].decision
    decreases |es|
  {
    if es != [] {
      var s1 := Apply(c, s, es[0]);
      StillDecided(c, s, es[0], i);
      if CastsInput(s1, s', i, r) {
        AfterDecision(c, s1, es[1..], s', i, r);
      } else {
        assert CastsInput(s, s1, i, r);
        DecidedInput(c, s, es[0], i, r);
      }
    }
  }

  // ------------------------------------------------------------- every INPUT explained

  ghost predicate CoinCame(past: seq<Event>, i: int, r: int, v: int) {
    Local(i, CoinResult(r, v)) in past
  }

  /** The INPUT of round `r` is the node's decision, or the outcome of round `r - 1`, or a coin of that round. */
  ghost predicate Explained(past: seq<Event>, nd: Aba, i: int, r: int, bit: int) {
    && VoteAt(nd.votes, r - 1).outcome.Some?
    && var o := VoteAt(nd.votes, r - 1).outcome.value;
       || (nd.decided && bit == nd.decision)
       || (if o.conf == 1 || o.conf == 2 then bit == o.value else CoinCame(past, i, r - 1, bit))
  }

  ghost predicate NodeExplained(past: seq<Event>, s: System, i: int)
    requires i in s.nodes
  {
    && (s.nodes[i].coin.Some? ==> CoinCame(past, i, s.nodes[i].round, s.nodes[i].coin.value))
    && (forall r :: r >= 2 && i in BoardAt(s.boards, r).inputs ==>
          Explained(past, s.nodes[i], i, r, BoardAt(s.boards, r).inputs[i]))
  }

  ghost predicate AllExplained(c: Config, past: seq<Event>, s: System) {
    s.nodes.Keys == c.Honest() && forall i :: i in s.nodes ==> NodeExplained(past, s, i)
  }

  /** An outcome stays, and so does a decision. */
  lemma OutcomeStays(n: nat, t: nat, nd: Aba, e: LocalEvent, q: int)
    requires VoteAt(nd.votes, q).outcome.Some?
    ensures VoteAt(LocalStep(n, t, nd, e).0.votes, q).outcome == VoteAt(nd.votes, q).outcome
  {
    if e.VoteDelivered? {
      VoteOutcomeStays(n, t, nd, e.round, OnDelivered(n, t, VoteAt(nd.votes, e.round), e.sender, e.p), q);
    }
  }

  lemma VoteOutcomeStays(n: nat, t: nat, nd: Aba, r: int, d: Progressed, q: int)
    requires VoteAt(nd.votes, q).outcome.Some? && (q == r ==> d.round == VoteAt(nd.votes, q))
    ensures VoteAt(TakeVote(n, t, nd, r, d).0.votes, q).outcome == VoteAt(nd.votes, q).outcome
  {
    var nd1 := nd.(votes := nd.votes[r := d.round]);
    assert VoteAt(nd1.votes, q).outcome == VoteAt(nd.votes, q).outcome;
    AdvanceOutcome(n, t, nd1.(voteResult := d.round.outcome), q);
  }

  lemma AdvanceOutcome(n: nat, t: nat, nd: Aba, q: int)
    requires VoteAt(nd.votes, q).outcome.Some?
    ensures VoteAt(Advance(n, t, nd).0.votes, q).outcome == VoteAt(nd.votes, q).outcome
  {
  }

  lemma ExplainedStays(c: Config, past: seq<Event>, s: System, e: Event, i: int, r: int, bit: int)
    requires Legal(c, s, e) && i in s.nodes && Explained(past, s.nodes[i], i, r, bit)
    ensures i in Apply(c, s, e).nodes && Explained(past + [e], Apply(c, s, e).nodes[i], i, r, bit)
  {
    if e.Local? && e.node == i {
      OutcomeStays(c.n, c.t, s.nodes[i], e.e, r - 1);
      if s.nodes[i].decided {
        DecisionStays(c.n, c.t, s.nodes[i], e.e);
      }
    }
  }

  /** The coin a node holds came in its round. */
  lemma CoinIs(n: nat, t: nat, nd: Aba, e: LocalEvent)
    ensures var nd' := LocalStep(n, t, nd, e).0;
            nd'.coin.Some? ==>
              nd'.round == nd.round && (nd'.coin == nd.coin || e == CoinResult(nd.round, nd'.coin.value))
  {
    if e.VoteDelivered? {
      VoteCoin(n, t, nd, e.round, OnDelivered(n, t, VoteAt(nd.votes, e.round), e.sender, e.p));
    }
  }

  lemma VoteCoin(n: nat, t: nat, nd: Aba, r: int, d: Progressed)
    ensures var nd' := TakeVote(n, t, nd, r, d).0; nd'.coin.Some? ==> nd'.round == nd.round && nd'.coin == nd.coin
  {
  }

  lemma CoinExplained(c: Config, past: seq<Event>, s: System, e: Event, i: int)
    requires Legal(c, s, e) && i in s.nodes && NodeExplained(past, s, i)
    ensures var nd := Apply(c, s, e).nodes[i]; nd.coin.Some? ==> CoinCame(past + [e], i, nd.round, nd.coin.value)
  {
    if e.Local? && e.node == i {
      CoinIs(c.n, c.t, s.nodes[i], e.e);
    }
  }

  lemma NewExplained(c: Config, past: seq<Event>, s: System, e: Event, i: int, r: int)
    requires Legal(c, s, e) && i in c.Honest() && i in s.nodes && NodeExplained(past, s, i) && VotesOk(s.nodes[i])
    requires r >= 2 && CastsInput(s, Apply(c, s, e), i, r)
    ensures Explained(past + [e], Apply(c, s, e).nodes[i], i, r, BoardAt(Apply(c, s, e).boards, r).inputs[i])
  {
    InputStep(c, s, e, i, r);
    var nd, nd' := s.nodes[i], Apply(c, s, e).nodes[i];
    if nd.decided {
      DecisionStays(c.n, c.t, nd, e.e);
    }
    if nd.voteResult.Some? {
      OutcomeStays(c.n, c.t, nd, e.e, r - 1);
    }
    ChosenExplained(past, nd, i, r, e.e, nd', BoardAt(Apply(c, s, e).boards, r).inputs[i]);
  }

  lemma ChosenExplained(past: seq<Event>, nd: Aba, i: int, r: int, e: LocalEvent, nd': Aba, bit: int)
    requires Chosen(nd, e, nd', bit) && nd.round == r - 1
    requires nd.coin.Some? ==> CoinCame(past, i, r - 1, nd.coin.value)
    requires nd.decided ==> nd'.decided && nd'.decision == nd.decision
    requires nd.voteResult.Some? ==> VoteAt(nd'.votes, r - 1).outcome == nd.voteResult
    ensures Explained(past + [Local(i, e)], nd', i, r, bit)
  {
    var o, coin :| Holds(nd, e, nd', o, coin) && bit ==
      if nd.decided then nd.decision else if o.conf == 1 || o.conf == 2 then o.value else coin;
    assert VoteAt(nd'.votes, r - 1).outcome == Some(o);
  }

  lemma NodeStaysExplained(c: Config, past: seq<Event>, s: System, e: Event, i: int)
    requires c.Valid() && Inv(c, s) && Legal(c, s, e) && i in c.Honest() && NodeExplained(past, s, i)
    ensures NodeExplained(past + [e], Apply(c, s, e), i)
  {
    var s' := Apply(c, s, e);
    assert NodeOk(c, s, i);
    CoinExplained(c, past, s, e, i);
    forall r | r >= 2 && i in BoardAt(s'.boards, r).inputs
      ensures Explained(past + [e], s'.nodes[i], i, r, BoardAt(s'.boards, r).inputs[i])
    {
      if CastsInput(s, s', i, r) {
        NewExplained(c, past, s, e, i, r);
      } else {
        ExplainedStays(c, past, s, e, i, r, BoardAt(s.boards, r).inputs[i]);
      }
    }
  }

  lemma {:induction false} ExplainedRun(c: Config, past: seq<Event>, s: System, es: seq<Event>, s': System)
    requires c.Valid() && Inv(c, s) && AllExplained(c, past, s) && Leads(c, s, es, s')
    ensures AllExplained(c, past + es, s')
    decreases |es|
  {
    if es == [] {
      assert past + es == past;
    } else {
      StepExplained(c, past, s, es[0]);
      StepInv(c, s, es[0]);
      ExplainedRun(c, past + [es[0]], Apply(c, s, es[0]), es[1..], s');
      assert past + [es[0]] + es[1..] == past + es;
    }
  }

  lemma StepExplained(c: Config, past: seq<Event>, s: System, e: Event)
    requires c.Valid() && Inv(c, s) && AllExplained(c, past, s) && Legal(c, s, e)
    ensures AllExplained(c, past + [e], Apply(c, s, e))
  {
    var s' := Apply(c, s, e);
    assert s'.nodes.Keys == c.Honest();
    forall i | i in s'.nodes ensures NodeExplained(past + [e], s', i) {
      NodeStaysExplained(c, past, s, e, i);
    }
  }

  /**
   In every run: the INPUT of a code-following node for a round after the first is its decision, or the graded outcome
   of its round before, or, if that had no value, a coin that came to it for that round.
   */
  lemma InputsExplained(c: Config, estimates: map<int, int>, es: seq<Event>, s: System, i: int, r: int)
    requires Reachable(c, estimates, es, s) && i in c.Honest() && r >= 2 && i in BoardAt(s.boards, r).inputs
    ensures i in s.nodes && Explained(es, s.nodes[i], i, r, BoardAt(s.boards, r).inputs[i])
  {
    var s0 := Init(c, s.rules, estimates);
    InitInv(c, s.rules, estimates);
    assert AllExplained(c, [], s0);
    ExplainedRun(c, [], s0, es, s);
    assert [] + es == es;
    assert NodeExplained(es, s, i);
  }

  // ----------------------------------------------------------------- nobody waits

  /** A node with both results of its round has left it. */
  lemma NeverBoth(n: nat, t: nat, nd: Aba, e: LocalEvent)
    requires Ready(nd, e) && (nd.voteResult.None? || nd.coin.None?)
    ensures var nd' := LocalStep(n, t, nd, e).0; nd'.voteResult.None? || nd'.coin.None?
  {
    if e.VoteDelivered? {
      NeverBothVote(n, t, nd, e.round, OnDelivered(n, t, VoteAt(nd.votes, e.round), e.sender, e.p));
    }
  }

  lemma NeverBothVote(n: nat, t: nat, nd: Aba, r: int, d: Progressed)
    requires nd.voteResult.None? || nd.coin.None?
    ensures var nd' := TakeVote(n, t, nd, r, d).0; nd'.voteResult.None? || nd'.coin.None?
  {
  }

  ghost predicate NobodyStays(s: System) {
    forall i :: i in s.nodes ==> s.nodes[i].voteResult.None? || s.nodes[i].coin.None?
  }

  lemma {:induction false} MovingRun(c: Config, s: System, es: seq<Event>, s': System)
    requires NobodyStays(s) && Leads(c, s, es, s')
    ensures NobodyStays(s')
    decreases |es|
  {
    if es != [] {
      if es[0].Local? {
        NeverBoth(c.n, c.t, s.nodes[es[0].node], es[0].e);
      }
      MovingRun(c, Apply(c, s, es[0]), es[1..], s');
    }
  }

  /** In every run no node stays in a round whose vote and coin it both has. */
  lemma NobodyWaits(c: Config, estimates: map<int, int>, es: seq<Event>, s: System, i: int)
    requires Reachable(c, estimates, es, s) && i in s.nodes
    ensures s.nodes[i].voteResult.None? || s.nodes[i].coin.None?
  {
    MovingRun(c, Init(c, s.rules, estimates), es, s);
  }
}
