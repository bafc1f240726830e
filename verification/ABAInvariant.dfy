/** Every event of the agreement loop keeps the invariant. */
module ABAInvariant {
  import opened Quorums
  import opened Vote
  import opened VoteBoard
  import opened VoteNode
  import opened ABA
  import opened ABARuns
  import opened ABASafety

  // --------------------------------------------------------------------- frames

  /** The same vote outcomes at the same nodes. */
  ghost predicate SameOutcomes(c: Config, s: System, s': System) {
    && s'.rules == s.rules && s.nodes.Keys == s'.nodes.Keys == c.Honest()
    && (forall k, q :: k in c.Honest() ==> Out(s', k, q) == Out(s, k, q))
  }

  lemma OutcomesKept(c: Config, s: System, s': System)
    requires SameOutcomes(c, s, s')
    ensures forall k, q, o :: HasOut(c, s', k, q, o) <==> HasOut(c, s, k, q, o)
    ensures forall q, v :: StrongAt(c, s', q, v) <==> StrongAt(c, s, q, v)
    ensures forall q, v :: Open(c, s, q, v) ==> Open(c, s', q, v)
    ensures forall v :: StrongSomewhere(c, s, v) ==> StrongSomewhere(c, s', v)
  {
  }

  lemma SafetyKept(c: Config, s: System, s': System)
    requires Inv(c, s) && SameOutcomes(c, s, s')
    ensures Binding(c, s'.rules) ==> OneValue(c, s') && Unopposed(c, s')
  {
    OutcomesKept(c, s, s');
  }

  /** The books of a node whose grade 2 outcomes and COMPLETEs only grow around it. */
  lemma BooksKept(c: Config, s: System, s': System, i: int, nd: Aba, nd': Aba, completes: map<int, int>,
                  completes': map<int, int>)
    requires Books(c, s, i, nd, completes) && Sub(completes, completes') && (i in completes' ==> i in completes)
    requires nd'.counts == nd.counts && nd'.sentComplete == nd.sentComplete && nd'.results == nd.results
    requires nd'.decided == nd.decided && nd'.decision == nd.decision
    requires forall v :: StrongSomewhere(c, s, v) ==> StrongSomewhere(c, s', v)
    ensures Books(c, s', i, nd', completes')
  {
  }

  ghost predicate SameInputs(boards: map<int, Board>, boards': map<int, Board>, i: int) {
    forall r :: SameInput(BoardAt(boards, r), BoardAt(boards', r), i)
  }

  lemma InputsKept(boards: map<int, Board>, boards': map<int, Board>, nd: Aba, nd': Aba, i: int)
    requires InputsOk(boards, nd, i) && nd'.round >= nd.round
    requires SameInputs(boards, boards', i)
    requires forall r :: VoteAt(nd.votes, r).outcome.Some? ==>
               VoteAt(nd'.votes, r).outcome == VoteAt(nd.votes, r).outcome
    requires nd.decided ==> nd'.decided && nd'.decision == nd.decision
    ensures InputsOk(boards', nd', i)
  {
    forall r | i in BoardAt(boards', r).inputs
      ensures 1 <= r <= nd'.round && InputTraced(BoardAt(boards', r), nd', i, r)
    {
      assert SameInput(BoardAt(boards, r), BoardAt(boards', r), i);
      assert InputTraced(BoardAt(boards, r), nd, i, r);
    }
  }

  /** A node that did not move, in a system whose COMPLETEs and grade 2 outcomes only grow. */
  lemma NodeFramed(c: Config, s: System, s': System, k: int)
    requires k in s.nodes && k in s'.nodes && s'.nodes[k] == s.nodes[k] && NodeOk(c, s, k)
    requires SameInputs(s.boards, s'.boards, k)
    requires Sub(s.completes, s'.completes) && (k in s'.completes ==> k in s.completes)
    requires forall v :: StrongSomewhere(c, s, v) ==> StrongSomewhere(c, s', v)
    ensures NodeOk(c, s', k)
  {
    InputsKept(s.boards, s'.boards, s.nodes[k], s.nodes[k], k);
    BooksKept(c, s, s', k, s.nodes[k], s.nodes[k], s.completes, s'.completes);
  }

  // ------------------------------------------------------ moves of the adversary

  /** Only faulty nodes add to the board. */
  ghost predicate OnlyFaulty(c: Config, b: Board, b': Board) {
    forall k :: k in c.Honest() ==>
      SameInput(b, b', k) && (k in b'.vote1 ==> k in b.vote1) && (k in b'.revote ==> k in b.revote)
  }

  lemma BoardMove(c: Config, s: System, r: int, b: Board)
    requires c.Valid() && Inv(c, s) && Grows(BoardAt(s.boards, r), b)
    requires OnIds(c, b) && Obeys(c, b, s.rules)
    requires OnlyFaulty(c, BoardAt(s.boards, r), b)
    ensures Inv(c, s.(boards := s.boards[r := b]))
  {
    var s' := s.(boards := s.boards[r := b]);
    assert SameOutcomes(c, s, s');
    OutcomesKept(c, s, s');
    SafetyKept(c, s, s');
    BoardShape(c, s, r, b, s');
    if Faithful(c, s.rules) {
      SteadyKept(c, s, s');
    }
  }

  lemma BoardShape(c: Config, s: System, r: int, b: Board, s': System)
    requires c.Valid() && Shape(c, s) && Grows(BoardAt(s.boards, r), b) && OnIds(c, b) && Obeys(c, b, s.rules)
    requires s' == s.(boards := s.boards[r := b]) && OnlyFaulty(c, BoardAt(s.boards, r), b)
    requires forall v :: StrongSomewhere(c, s, v) ==> StrongSomewhere(c, s', v)
    ensures Shape(c, s')
  {
    forall q ensures RoundOk(c, s', q) {
      BoardRound(c, s, r, b, q);
    }
    forall k | k in c.Honest() ensures NodeOk(c, s', k) {
      BoardInputs(s.boards, r, b, k);
      NodeFramed(c, s, s', k);
    }
  }

  lemma BoardInputs(boards: map<int, Board>, r: int, b: Board, k: int)
    requires SameInput(BoardAt(boards, r), b, k)
    ensures SameInputs(boards, boards[r := b], k)
  {
  }

  lemma BoardRound(c: Config, s: System, r: int, b: Board, q: int)
    requires RoundOk(c, s, q) && Grows(BoardAt(s.boards, r), b) && OnIds(c, b) && Obeys(c, b, s.rules)
    requires OnlyFaulty(c, BoardAt(s.boards, r), b)
    ensures RoundOk(c, s.(boards := s.boards[r := b]), q)
  {
    if q == r {
      forall k | k in c.Honest() && k in s.nodes {
        FollowsGrows(c, BoardAt(s.boards, r), b, k, VoteAt(s.nodes[k].votes, r));
      }
    }
  }

  lemma ByzInputInv(c: Config, s: System, j: int, r: int, bit: int)
    requires c.Valid() && Inv(c, s) && Legal(c, s, ByzInput(j, r, bit))
    ensures Inv(c, Apply(c, s, ByzInput(j, r, bit)))
  {
    var b := BoardAt(s.boards, r);
    assert RoundOk(c, s, r);
    var b' := b.(inputs := b.inputs[j := bit]);
    ObeysGrows(c, b, b', s.rules);
    BoardMove(c, s, r, b');
  }

  lemma ByzVote1Inv(c: Config, s: System, j: int, r: int, v: Ballot)
    requires c.Valid() && Inv(c, s) && Legal(c, s, ByzVote1(j, r, v))
    ensures Inv(c, Apply(c, s, ByzVote1(j, r, v)))
  {
    var b := BoardAt(s.boards, r);
    assert RoundOk(c, s, r);
    var b' := b.(vote1 := b.vote1[j := v]);
    ObeysGrows(c, b, b', s.rules);
    BoardMove(c, s, r, b');
  }

  lemma ByzRevoteInv(c: Config, s: System, j: int, r: int, v: Ballot)
    requires c.Valid() && Inv(c, s) && Legal(c, s, ByzRevote(j, r, v))
    ensures Inv(c, Apply(c, s, ByzRevote(j, r, v)))
  {
    var b := BoardAt(s.boards, r);
    assert RoundOk(c, s, r);
    var b' := b.(revote := b.revote[j := v]);
    ObeysGrows(c, b, b', s.rules);
    BoardMove(c, s, r, b');
  }

  lemma ByzCompleteInv(c: Config, s: System, j: int, v: int)
    requires c.Valid() && Inv(c, s) && Legal(c, s, ByzComplete(j, v))
    ensures Inv(c, Apply(c, s, ByzComplete(j, v)))
  {
    var s' := s.(completes := s.completes[j := v]);
    OutcomesKept(c, s, s');
    SafetyKept(c, s, s');
    forall q ensures RoundOk(c, s', q) {
      assert RoundOk(c, s, q);
    }
    forall k | k in c.Honest() {
      NodeFramed(c, s, s', k);
    }
    if Faithful(c, s.rules) {
      SteadyKept(c, s, s');
    }
  }

  // ------------------------------------------------------------- a vote delivery

  lemma DeliverKeeps(c: Config, b: Board, i: int, r: Round, sender: int, p: Payload)
    requires Follows(c, b, i, r) && OnBoard(b, sender, p)
    ensures var d := OnDelivered(c.n, c.t, r, sender, p);
            Follows(c, Publish(b, i, d), i, d.round) && Grows(b, Publish(b, i, d))
  {
    if r.outcome.None? {
      RecordFollows(c, b, i, r, sender, p);
      ProgressFollows(c, b, i, Record(r, sender, p));
    }
  }

  /** Only the vote state of node `i` in round `r` and the ballots of `i` on that board change. */
  ghost function AfterVote(c: Config, s: System, i: int, r: int, d: Progressed): System
    requires i in s.nodes
  {
    var nd := s.nodes[i];
    s.(nodes := s.nodes[i := nd.(votes := nd.votes[r := d.round])], boards := CastBallots(s.boards, i, r, d))
  }

  /** Ballots of node `i` on one board. */
  lemma PublishOk(c: Config, b: Board, i: int, d: Progressed, rules: Rules)
    requires c.Valid() && i in c.Honest() && OnIds(c, b) && Obeys(c, b, rules)
    requires Grows(b, Publish(b, i, d)) && Follows(c, Publish(b, i, d), i, d.round)
    ensures OnIds(c, Publish(b, i, d)) && Obeys(c, Publish(b, i, d), rules)
  {
    VotesAreBits(c, Publish(b, i, d), i);
    ObeysGrows(c, b, Publish(b, i, d), rules);
  }

  /** A vote step changes the vote of node `i` in round `r` and the board of that round only. */
  lemma VoteFrame(c: Config, s: System, i: int, r: int, d: Progressed, k: int, q: int)
    requires i in s.nodes && k in s.nodes
    ensures var s' := AfterVote(c, s, i, r, d);
            && VoteAt(s'.nodes[k].votes, q) == (if k == i && q == r then d.round else VoteAt(s.nodes[k].votes, q))
            && BoardAt(s'.boards, q) == (if q == r then Publish(BoardAt(s.boards, r), i, d) else BoardAt(s.boards, q))
  {
  }

  lemma VoteRounds(c: Config, s: System, i: int, r: int, d: Progressed, q: int)
    requires c.Valid() && Shape(c, s) && i in c.Honest()
    requires Grows(BoardAt(s.boards, r), Publish(BoardAt(s.boards, r), i, d))
    requires Follows(c, Publish(BoardAt(s.boards, r), i, d), i, d.round)
    ensures RoundOk(c, AfterVote(c, s, i, r, d), q)
  {
    var b := BoardAt(s.boards, r);
    assert RoundOk(c, s, q);
    forall k | k in c.Honest() {
      VoteFrame(c, s, i, r, d, k, q);
    }
    if q == r {
      PublishOk(c, b, i, d, s.rules);
      forall k | k in c.Honest() && k != i {
        FollowsGrows(c, b, Publish(b, i, d), k, VoteAt(s.nodes[k].votes, r));
      }
    }
  }

  /** Rounds a node has not entered stay blank, finished rounds keep their outcome. */
  lemma VoterRounds(nd: Aba, r: int, vr: Round)
    requires VotesOk(nd) && r <= nd.round
    requires VoteAt(nd.votes, r).outcome.Some? ==> vr == VoteAt(nd.votes, r)
    ensures VotesOk(nd.(votes := nd.votes[r := vr]))
  {
    var nd' := nd.(votes := nd.votes[r := vr]);
    assert forall q :: q != r ==> VoteAt(nd'.votes, q) == VoteAt(nd.votes, q);
  }

  lemma BallotsKeepInputs(boards: map<int, Board>, i: int, r: int, d: Progressed, k: int, q: int)
    ensures SameInput(BoardAt(boards, q), BoardAt(CastBallots(boards, i, r, d), q), k)
  {
  }

  /** Node `i` itself. */
  lemma VoterOk(c: Config, s: System, i: int, r: int, d: Progressed)
    requires i in s.nodes && NodeOk(c, s, i) && r <= s.nodes[i].round
    requires VoteAt(s.nodes[i].votes, r).outcome.Some? ==> d.round == VoteAt(s.nodes[i].votes, r)
    requires forall v :: StrongSomewhere(c, s, v) ==> StrongSomewhere(c, AfterVote(c, s, i, r, d), v)
    ensures NodeOk(c, AfterVote(c, s, i, r, d), i)
  {
    var s', nd := AfterVote(c, s, i, r, d), s.nodes[i];
    VoterRounds(nd, r, d.round);
    forall q {
      BallotsKeepInputs(s.boards, i, r, d, i, q);
    }
    InputsKept(s.boards, s'.boards, nd, s'.nodes[i], i);
    BooksKept(c, s, s', i, nd, s'.nodes[i], s.completes, s.completes);
  }

  lemma VoteStrong(c: Config, s: System, i: int, r: int, d: Progressed)
    requires s.nodes.Keys == c.Honest() && i in c.Honest()
    requires VoteAt(s.nodes[i].votes, r).outcome.Some? ==> d.round == VoteAt(s.nodes[i].votes, r)
    ensures forall v :: StrongSomewhere(c, s, v) ==> StrongSomewhere(c, AfterVote(c, s, i, r, d), v)
  {
    var s' := AfterVote(c, s, i, r, d);
    forall v | StrongSomewhere(c, s, v) ensures StrongSomewhere(c, s', v) {
      var q :| StrongAt(c, s, q, v);
      var k :| HasOut(c, s, k, q, Outcome(v, 2));
      assert HasOut(c, s', k, q, Outcome(v, 2));
      assert StrongAt(c, s', q, v);
    }
  }

  lemma VoteShape(c: Config, s: System, i: int, r: int, d: Progressed)
    requires c.Valid() && Shape(c, s) && i in c.Honest() && r <= s.nodes[i].round
    requires Grows(BoardAt(s.boards, r), Publish(BoardAt(s.boards, r), i, d))
    requires Follows(c, Publish(BoardAt(s.boards, r), i, d), i, d.round)
    requires VoteAt(s.nodes[i].votes, r).outcome.Some? ==> d.round == VoteAt(s.nodes[i].votes, r)
    ensures Shape(c, AfterVote(c, s, i, r, d))
  {
    var s' := AfterVote(c, s, i, r, d);
    forall q {
      VoteRounds(c, s, i, r, d, q);
    }
    VoteStrong(c, s, i, r, d);
    forall k | k in c.Honest() {
      VoteNodes(c, s, i, r, d, k);
    }
    assert s'.nodes.Keys == c.Honest();
  }

  lemma VoteNodes(c: Config, s: System, i: int, r: int, d: Progressed, k: int)
    requires s.nodes.Keys == c.Honest() && i in c.Honest() && k in c.Honest() && r <= s.nodes[i].round
    requires NodeOk(c, s, i) && NodeOk(c, s, k)
    requires VoteAt(s.nodes[i].votes, r).outcome.Some? ==> d.round == VoteAt(s.nodes[i].votes, r)
    requires forall v :: StrongSomewhere(c, s, v) ==> StrongSomewhere(c, AfterVote(c, s, i, r, d), v)
    ensures k in AfterVote(c, s, i, r, d).nodes && NodeOk(c, AfterVote(c, s, i, r, d), k)
  {
    if k == i {
      VoterOk(c, s, i, r, d);
    } else {
      forall q {
        BallotsKeepInputs(s.boards, i, r, d, k, q);
      }
      NodeFramed(c, s, AfterVote(c, s, i, r, d), k);
    }
  }

  lemma VoteMoves(c: Config, s: System, i: int, r: int, d: Progressed)
    requires c.Valid() && Inv(c, s) && i in c.Honest() && r <= s.nodes[i].round
    requires VoteAt(s.nodes[i].votes, r).outcome.Some? ==> d.round == VoteAt(s.nodes[i].votes, r)
    requires Shape(c, AfterVote(c, s, i, r, d))
    ensures Inv(c, AfterVote(c, s, i, r, d))
  {
    var s' := AfterVote(c, s, i, r, d);
    VoteOutcomes(c, s, i, r, d);
    if VoteAt(s.nodes[i].votes, r).outcome.None? {
      NewOutcome(c, s, s', i, r);
    } else {
      SafetyKept(c, s, s');
      if Faithful(c, s.rules) {
        VoteSteady(c, s, i, r, d);
      }
    }
  }

  lemma VoteSteady(c: Config, s: System, i: int, r: int, d: Progressed)
    requires s.nodes.Keys == c.Honest() && i in c.Honest() && Steady(c, s)
    ensures Steady(c, AfterVote(c, s, i, r, d))
  {
    var s' := AfterVote(c, s, i, r, d);
    assert s'.nodes.Keys == c.Honest();
    forall k, q | k in c.Honest() ensures SameInput(BoardAt(s.boards, q), BoardAt(s'.boards, q), k) {
      BallotsKeepInputs(s.boards, i, r, d, k, q);
    }
    SteadyKept(c, s, s');
  }

  lemma VoteOutcomes(c: Config, s: System, i: int, r: int, d: Progressed)
    requires s.nodes.Keys == c.Honest() && i in c.Honest() && r <= s.nodes[i].round
    requires VoteAt(s.nodes[i].votes, r).outcome.Some? ==> d.round == VoteAt(s.nodes[i].votes, r)
    ensures VoteAt(s.nodes[i].votes, r).outcome.None? ==> OneMoreOutcome(c, s, AfterVote(c, s, i, r, d), i, r)
    ensures VoteAt(s.nodes[i].votes, r).outcome.Some? ==> SameOutcomes(c, s, AfterVote(c, s, i, r, d))
  {
    var s' := AfterVote(c, s, i, r, d);
    assert s'.nodes.Keys == c.Honest();
    forall k, q | k in c.Honest() && !(k == i && q == r) ensures Out(s', k, q) == Out(s, k, q) {
      VoteOut(c, s, i, r, d, k, q);
    }
    VoteOut(c, s, i, r, d, i, r);
    forall q ensures BoardAt(s'.boards, q).inputs == BoardAt(s.boards, q).inputs {
      VoteFrame(c, s, i, r, d, i, q);
    }
  }

  lemma VoteOut(c: Config, s: System, i: int, r: int, d: Progressed, k: int, q: int)
    requires i in s.nodes && k in s.nodes
    ensures Out(AfterVote(c, s, i, r, d), k, q) == if k == i && q == r then d.round.outcome else Out(s, k, q)
  {
    VoteFrame(c, s, i, r, d, k, q);
  }

  lemma VoteInv(c: Config, s: System, i: int, r: int, sender: int, p: Payload)
    requires c.Valid() && Inv(c, s) && i in c.Honest() && r <= s.nodes[i].round
    requires OnBoard(BoardAt(s.boards, r), sender, p)
    ensures Inv(c, AfterVote(c, s, i, r, OnDelivered(c.n, c.t, VoteAt(s.nodes[i].votes, r), sender, p)))
  {
    var vr := VoteAt(s.nodes[i].votes, r);
    var d := OnDelivered(c.n, c.t, vr, sender, p);
    assert RoundOk(c, s, r);
    DeliverKeeps(c, BoardAt(s.boards, r), i, vr, sender, p);
    VoteShape(c, s, i, r, d);
    VoteMoves(c, s, i, r, d);
  }
}
