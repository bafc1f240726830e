/** The remaining moves of the agreement loop: new rounds, coins and COMPLETEs; and the invariant over whole runs. */
module ABALoop {
  import opened Quorums
  import opened Vote
  import opened VoteBoard
  import opened VoteNode
  import opened ABA
  import opened ABARuns
  import opened ABASafety
  import opened ABAInvariant

  // ------------------------------------------------- moves that leave the votes alone

  ghost function AfterNode(s: System, i: int, nd: Aba, completes: map<int, int>): System {
    System(s.rules, s.nodes[i := nd], s.boards, completes)
  }

  lemma NodeMove(c: Config, s: System, i: int, nd: Aba, completes: map<int, int>)
    requires c.Valid() && Inv(c, s) && i in c.Honest() && nd.votes == s.nodes[i].votes
    requires Sub(s.completes, completes) && completes.Keys <= s.completes.Keys + {i}
    requires NodeOk(c, AfterNode(s, i, nd, completes), i) && (nd.decided ==> StrongSomewhere(c, s, nd.decision))
    ensures Inv(c, AfterNode(s, i, nd, completes))
  {
    var s' := AfterNode(s, i, nd, completes);
    assert s'.nodes.Keys == c.Honest();
    assert SameOutcomes(c, s, s');
    OutcomesKept(c, s, s');
    SafetyKept(c, s, s');
    forall q ensures RoundOk(c, s', q) {
      assert RoundOk(c, s, q);
    }
    forall k | k in c.Honest() && k != i {
      NodeFramed(c, s, s', k);
    }
    if Faithful(c, s.rules) {
      SteadyDecides(c, s, s', i);
    }
  }

  /** Unanimous inputs leave nothing else to decide. */
  lemma StrongFollowsInputs(c: Config, s: System, v: int, w: int)
    requires c.Valid() && Shape(c, s) && Faithful(c, s.rules) && (v == 0 || v == 1) && AllInputs(c, s, v)
    requires StrongSomewhere(c, s, w)
    ensures w == v
  {
    var q :| StrongAt(c, s, q, w);
    var k :| HasOut(c, s, k, q, Outcome(w, 2));
    InputsHold(c, s, q, v, k, Outcome(w, 2));
  }

  /** A decision that a grade 2 outcome backs. */
  lemma SteadyDecides(c: Config, s: System, s': System, i: int)
    requires c.Valid() && Shape(c, s) && Faithful(c, s.rules) && Steady(c, s) && i in c.Honest()
    requires s'.boards == s.boards && s'.nodes.Keys == c.Honest()
    requires forall k :: k in c.Honest() && k != i ==> s'.nodes[k] == s.nodes[k]
    requires s'.nodes[i].decided ==> StrongSomewhere(c, s, s'.nodes[i].decision)
    ensures Steady(c, s')
  {
    forall v | (v == 0 || v == 1) && InputsAre(c, s', 1, v) ensures AllInputs(c, s', v) && DecisionsAre(c, s', v) {
      assert InputsAre(c, s, 1, v);
      forall r ensures InputsAre(c, s', r, v) {
        assert InputsAre(c, s, r, v);
      }
      if s'.nodes[i].decided {
        StrongFollowsInputs(c, s, v, s'.nodes[i].decision);
      }
      OneDecides(c, s, s', i, v);
    }
  }

  lemma OneDecides(c: Config, s: System, s': System, i: int, v: int)
    requires s.nodes.Keys == s'.nodes.Keys == c.Honest() && i in c.Honest() && DecisionsAre(c, s, v)
    requires forall k :: k in c.Honest() && k != i ==> s'.nodes[k] == s.nodes[k]
    requires s'.nodes[i].decided ==> s'.nodes[i].decision == v
    ensures DecisionsAre(c, s', v)
  {
  }

  lemma MoverOk(c: Config, s: System, i: int, nd: Aba, completes: map<int, int>)
    requires s.nodes.Keys == c.Honest() && i in c.Honest() && NodeOk(c, s, i)
    requires nd.votes == s.nodes[i].votes && nd.round == s.nodes[i].round
    requires nd.voteResult.Some? ==> VoteAt(nd.votes, nd.round).outcome == nd.voteResult
    requires s.nodes[i].decided ==> nd.decided && nd.decision == s.nodes[i].decision
    requires Books(c, s, i, nd, completes)
    ensures NodeOk(c, AfterNode(s, i, nd, completes), i)
  {
    var s' := AfterNode(s, i, nd, completes);
    assert s'.nodes.Keys == c.Honest();
    assert SameOutcomes(c, s, s');
    OutcomesKept(c, s, s');
    forall r {
      SameInputRefl(s.boards, i, r);
    }
    InputsKept(s.boards, s.boards, s.nodes[i], nd, i);
    BooksKept(c, s, s', i, nd, nd, completes, completes);
  }

  lemma SameInputRefl(boards: map<int, Board>, i: int, r: int)
    ensures SameInput(BoardAt(boards, r), BoardAt(boards, r), i)
  {
  }

  /** A move of node `i` outside its votes keeps the invariant when its books stay straight. */
  lemma BooksInv(c: Config, s: System, i: int, nd: Aba, completes: map<int, int>)
    requires c.Valid() && Inv(c, s) && i in c.Honest()
    requires nd.votes == s.nodes[i].votes && nd.round == s.nodes[i].round
    requires nd.voteResult.Some? ==> VoteAt(nd.votes, nd.round).outcome == nd.voteResult
    requires s.nodes[i].decided ==> nd.decided && nd.decision == s.nodes[i].decision
    requires Books(c, s, i, nd, completes)
    requires Sub(s.completes, completes) && completes.Keys <= s.completes.Keys + {i}
    ensures Inv(c, AfterNode(s, i, nd, completes))
  {
    MoverOk(c, s, i, nd, completes);
    NodeMove(c, s, i, nd, completes);
  }

  lemma BooksOf(c: Config, s: System, i: int)
    requires Shape(c, s) && i in c.Honest()
    ensures Books(c, s, i, s.nodes[i], s.completes)
    ensures s.nodes[i].voteResult.Some? ==> Out(s, i, s.nodes[i].round) == s.nodes[i].voteResult
  {
    assert NodeOk(c, s, i);
  }

  /** One more COMPLETE counted. */
  lemma CountInv(c: Config, s: System, i: int, j: int, v: int)
    requires c.Valid() && Inv(c, s) && i in c.Honest() && j in s.completes && s.completes[j] == v
    ensures var nd := s.nodes[i];
            Inv(c, AfterNode(s, i, nd.(counts := nd.counts[v := CountOf(nd.counts, v) + {j}]), s.completes))
  {
    var nd := s.nodes[i];
    var nd' := nd.(counts := nd.counts[v := CountOf(nd.counts, v) + {j}]);
    BooksOf(c, s, i);
    assert forall w :: w != v ==> CountOf(nd'.counts, w) == CountOf(nd.counts, w);
    BooksInv(c, s, i, nd', s.completes);
  }

  /** `t + 1` COMPLETEs include one of a code-following node, so the value was reached with grade 2. */
  lemma CountedIsStrong(c: Config, s: System, i: int, v: int)
    requires c.Valid() && Inv(c, s) && i in c.Honest() && |CountOf(s.nodes[i].counts, v)| >= c.t + 1
    ensures StrongSomewhere(c, s, v)
  {
    assert NodeOk(c, s, i);
    var h := MemberOutside(CountOf(s.nodes[i].counts, v), c.byz);
    assert h in c.Honest() && NodeOk(c, s, h);
  }

  /** A decision, and a COMPLETE of one's own if none was sent yet. */
  lemma DecideInv(c: Config, s: System, i: int, v: int)
    requires c.Valid() && Inv(c, s) && i in c.Honest() && !s.nodes[i].decided && StrongSomewhere(c, s, v)
    ensures var nd := s.nodes[i];
            Inv(c, AfterNode(s, i, nd.(decided := true, decision := v, results := nd.results + [v],
                                       sentComplete := true),
                             if nd.sentComplete then s.completes else s.completes[i := v]))
  {
    var nd := s.nodes[i];
    BooksOf(c, s, i);
    BooksInv(c, s, i, nd.(decided := true, decision := v, results := nd.results + [v], sentComplete := true),
             if nd.sentComplete then s.completes else s.completes[i := v]);
  }

  lemma OnCompleteInv(c: Config, s: System, i: int, j: int, v: int)
    requires c.Valid() && Inv(c, s) && Legal(c, s, Local(i, CompleteDelivered(j, v)))
    ensures Inv(c, Apply(c, s, Local(i, CompleteDelivered(j, v))))
  {
    var nd := s.nodes[i];
    var nd1 := nd.(counts := nd.counts[v := CountOf(nd.counts, v) + {j}]);
    var s1 := AfterNode(s, i, nd1, s.completes);
    CountInv(c, s, i, j, v);
    var s' := Apply(c, s, Local(i, CompleteDelivered(j, v)));
    if |CountOf(nd1.counts, v)| >= c.t + 1 && !nd.decided {
      CountedIsStrong(c, s1, i, v);
      DecideInv(c, s1, i, v);
      var nd2 := nd1.(decided := true, decision := v, results := nd1.results + [v], sentComplete := true);
      assert s1.nodes[i := nd2] == s.nodes[i := nd2];
    } else {
      assert s' == s1;
    }
  }

  // ----------------------------------------------------------------- a new round

  ghost function Entered(s: System, i: int, bit: int, e: int): System
    requires i in s.nodes
  {
    var nd := s.nodes[i];
    var r := nd.round + 1;
    var nd' := nd.(round := r, voteResult := None, coin := None, votes := nd.votes[r := FreshRound()], estimate := e);
    System(s.rules, s.nodes[i := nd'], CastInput(s.boards, i, r, bit), s.completes)
  }

  /** The bit a node may enter its next round with. */
  ghost predicate EntryBit(c: Config, s: System, i: int, bit: int)
    requires i in s.nodes
  {
    var nd := s.nodes[i];
    nd.round >= 1 ==>
      && Out(s, i, nd.round).Some?
      && var o := Out(s, i, nd.round).value;
         (o.conf >= 1 && bit == o.value) || o.conf == 0 || (nd.decided && bit == nd.decision)
  }

  /** Entering a round changes the votes of nobody and the board of that round only. */
  lemma EntryFrame(s: System, i: int, bit: int, e: int, k: int, q: int)
    requires i in s.nodes && k in s.nodes && VoteAt(s.nodes[i].votes, s.nodes[i].round + 1) == FreshRound()
    ensures VoteAt(Entered(s, i, bit, e).nodes[k].votes, q) == VoteAt(s.nodes[k].votes, q)
    ensures q != s.nodes[i].round + 1 ==> BoardAt(Entered(s, i, bit, e).boards, q) == BoardAt(s.boards, q)
  {
  }

  lemma InputOk(c: Config, b: Board, b': Board, i: int, bit: int, rules: Rules)
    requires c.Valid() && i in c.Honest() && OnIds(c, b) && Obeys(c, b, rules) && i !in b.inputs
    requires b' == b.(inputs := b.inputs[i := bit])
    ensures OnIds(c, b') && Obeys(c, b', rules) && Grows(b, b')
  {
    ObeysGrows(c, b, b', rules);
  }

  lemma EntryRounds(c: Config, s: System, i: int, bit: int, e: int, q: int)
    requires c.Valid() && Shape(c, s) && i in c.Honest()
    ensures RoundOk(c, Entered(s, i, bit, e), q)
  {
    var s', r := Entered(s, i, bit, e), s.nodes[i].round + 1;
    assert RoundOk(c, s, q) && NodeOk(c, s, i);
    forall k | k in c.Honest() {
      EntryFrame(s, i, bit, e, k, q);
    }
    if q == r {
      var b, b' := BoardAt(s.boards, r), BoardAt(s'.boards, r);
      assert i !in b.inputs;
      InputOk(c, b, b', i, bit, s.rules);
      forall k | k in c.Honest() {
        FollowsGrows(c, b, b', k, VoteAt(s.nodes[k].votes, r));
      }
    }
  }

  lemma EntererInputs(c: Config, s: System, i: int, bit: int, e: int)
    requires i in s.nodes && VotesOk(s.nodes[i]) && InputsOk(s.boards, s.nodes[i], i) && EntryBit(c, s, i, bit)
    ensures InputsOk(Entered(s, i, bit, e).boards, Entered(s, i, bit, e).nodes[i], i)
  {
    var s', nd := Entered(s, i, bit, e), s.nodes[i];
    var nd' := s'.nodes[i];
    forall q | i in BoardAt(s'.boards, q).inputs
      ensures 1 <= q <= nd.round + 1 && InputTraced(BoardAt(s'.boards, q), nd', i, q)
    {
      EntryFrame(s, i, bit, e, i, q);
      EntryFrame(s, i, bit, e, i, q - 1);
      if q != nd.round + 1 {
        assert InputTraced(BoardAt(s.boards, q), nd, i, q);
      }
    }
  }

  lemma EntererVotes(s: System, i: int, bit: int, e: int)
    requires i in s.nodes && VotesOk(s.nodes[i]) && (s.nodes[i].round >= 1 ==> Out(s, i, s.nodes[i].round).Some?)
    ensures VotesOk(Entered(s, i, bit, e).nodes[i])
  {
    forall q {
      EntryFrame(s, i, bit, e, i, q);
    }
  }

  lemma EntererOk(c: Config, s: System, i: int, bit: int, e: int)
    requires s.nodes.Keys == c.Honest() && i in c.Honest() && NodeOk(c, s, i) && EntryBit(c, s, i, bit)
    requires forall v :: StrongSomewhere(c, s, v) ==> StrongSomewhere(c, Entered(s, i, bit, e), v)
    ensures NodeOk(c, Entered(s, i, bit, e), i)
  {
    var s' := Entered(s, i, bit, e);
    EntererVotes(s, i, bit, e);
    EntererInputs(c, s, i, bit, e);
    BooksKept(c, s, s', i, s.nodes[i], s'.nodes[i], s.completes, s.completes);
  }

  lemma EntryOutcomes(c: Config, s: System, i: int, bit: int, e: int)
    requires s.nodes.Keys == c.Honest() && i in c.Honest() && NodeOk(c, s, i)
    ensures SameOutcomes(c, s, Entered(s, i, bit, e))
  {
    var s' := Entered(s, i, bit, e);
    assert s'.nodes.Keys == c.Honest();
    assert forall q :: VoteAt(s'.nodes[i].votes, q) == VoteAt(s.nodes[i].votes, q);
  }

  lemma EnterInv(c: Config, s: System, i: int, bit: int, e: int)
    requires c.Valid() && Inv(c, s) && i in c.Honest() && EntryBit(c, s, i, bit)
    ensures Inv(c, Entered(s, i, bit, e))
  {
    var s' := Entered(s, i, bit, e);
    assert NodeOk(c, s, i);
    EntryOutcomes(c, s, i, bit, e);
    OutcomesKept(c, s, s');
    SafetyKept(c, s, s');
    forall q {
      EntryRounds(c, s, i, bit, e, q);
    }
    EntererOk(c, s, i, bit, e);
    forall k | k in c.Honest() && k != i {
      EntryFramed(c, s, i, bit, e, k);
    }
    if Faithful(c, s.rules) {
      SteadyEnters(c, s, i, bit, e);
    }
  }

  /** Where all rounds were entered with `v` so is the next. */
  lemma SteadyBit(c: Config, s: System, i: int, bit: int, v: int)
    requires c.Valid() && Shape(c, s) && Faithful(c, s.rules) && i in c.Honest() && EntryBit(c, s, i, bit)
    requires (v == 0 || v == 1) && AllInputs(c, s, v) && DecisionsAre(c, s, v) && s.nodes[i].round >= 1
    ensures bit == v
  {
    var r := s.nodes[i].round;
    assert InputsAre(c, s, r, v);
    InputsHold(c, s, r, v, i, Out(s, i, r).value);
  }

  lemma SteadyEnters(c: Config, s: System, i: int, bit: int, e: int)
    requires c.Valid() && Shape(c, s) && Faithful(c, s.rules) && Steady(c, s) && i in c.Honest()
    requires EntryBit(c, s, i, bit)
    ensures Steady(c, Entered(s, i, bit, e))
  {
    var s', r := Entered(s, i, bit, e), s.nodes[i].round + 1;
    assert NodeOk(c, s, i);
    forall v | (v == 0 || v == 1) && InputsAre(c, s', 1, v) ensures AllInputs(c, s', v) && DecisionsAre(c, s', v) {
      EntryKeepsInputs(c, s, i, bit, e, 1, v);
      assert InputsAre(c, s, 1, v);
      if r > 1 {
        SteadyBit(c, s, i, bit, v);
      } else {
        assert BoardAt(s'.boards, 1).inputs[i] == bit;
      }
      forall q ensures InputsAre(c, s', q, v) {
        assert InputsAre(c, s, q, v);
        EntryAddsInput(c, s, i, bit, e, q, v);
      }
    }
  }

  lemma EntryKeepsInputs(c: Config, s: System, i: int, bit: int, e: int, q: int, v: int)
    requires i in s.nodes && i !in BoardAt(s.boards, s.nodes[i].round + 1).inputs
    requires InputsAre(c, Entered(s, i, bit, e), q, v)
    ensures InputsAre(c, s, q, v)
  {
    var b, b' := BoardAt(s.boards, q), BoardAt(Entered(s, i, bit, e).boards, q);
    forall k | k in c.Honest() && k in b.inputs ensures b.inputs[k] == v {
      assert k in b'.inputs && b'.inputs[k] == b.inputs[k];
    }
  }

  lemma EntryAddsInput(c: Config, s: System, i: int, bit: int, e: int, q: int, v: int)
    requires i in s.nodes && InputsAre(c, s, q, v) && bit == v
    ensures InputsAre(c, Entered(s, i, bit, e), q, v)
  {
  }

  lemma EntryFramed(c: Config, s: System, i: int, bit: int, e: int, k: int)
    requires s.nodes.Keys == c.Honest() && i in c.Honest() && k in c.Honest() && k != i && NodeOk(c, s, k)
    requires forall v :: StrongSomewhere(c, s, v) ==> StrongSomewhere(c, Entered(s, i, bit, e), v)
    ensures NodeOk(c, Entered(s, i, bit, e), k)
  {
    NodeFramed(c, s, Entered(s, i, bit, e), k);
  }

  /** Entering a round never acts on the vote beyond the INPUT: the round is still blank. */
  lemma EnterRoundIs(c: Config, s: System, i: int, nd: Aba)
    requires c.n > c.t && i in s.nodes && VoteAt(nd.votes, nd.round + 1) == FreshRound()
    requires nd == s.nodes[i].(estimate := nd.estimate, voteResult := nd.voteResult, coin := nd.coin)
    ensures var (nd', entry) := EnterRound(c.n, c.t, nd, nd.round + 1);
            System(s.rules, s.nodes[i := nd'], CastEntry(s.boards, i, entry), s.completes)
            == Entered(s, i, nd.estimate, nd.estimate)
  {
    FreshProgress(c.n, c.t);
    var r := nd.round + 1;
    var boards := CastInput(s.boards, i, r, nd.estimate);
    assert CastBallots(boards, i, r, Progressed(FreshRound(), None, None)) == boards;
  }

  // --------------------------------------------------------------- whole events

  ghost function Advanced(c: Config, s: System, i: int): System
    requires i in s.nodes
  {
    var (nd, complete, entry) := Advance(c.n, c.t, s.nodes[i]);
    System(s.rules, s.nodes[i := nd], CastEntry(s.boards, i, entry), CastComplete(s.completes, i, complete))
  }

  /** The COMPLETE that goes with leaving a round with grade 2. */
  ghost function Announced(s: System, i: int, o: Outcome): System
    requires i in s.nodes
  {
    if SendsComplete(s.nodes[i], o)
    then AfterNode(s, i, s.nodes[i].(sentComplete := true), s.completes[i := o.value])
    else s
  }

  lemma AnnounceInv(c: Config, s: System, i: int, o: Outcome, coin: int)
    requires c.Valid() && Inv(c, s) && i in c.Honest() && s.nodes[i].voteResult == Some(o)
    ensures i in Announced(s, i, o).nodes && Inv(c, Announced(s, i, o))
    ensures EntryBit(c, Announced(s, i, o), i, NextEstimate(s.nodes[i], o, coin))
  {
    var nd := s.nodes[i];
    BooksOf(c, s, i);
    assert HasOut(c, s, i, nd.round, o);
    OutcomeShape(c, s, i, nd.round, o);
    if SendsComplete(nd, o) {
      assert StrongAt(c, s, nd.round, o.value);
      BooksInv(c, s, i, nd.(sentComplete := true), s.completes[i := o.value]);
    }
  }

  lemma AnnouncedIs(s: System, i: int, o: Outcome)
    requires i in s.nodes
    ensures var s1, nd := Announced(s, i, o), s.nodes[i];
            && s1.boards == s.boards
            && s1.completes == CastComplete(s.completes, i, if SendsComplete(nd, o) then Some(o.value) else None)
            && s1.nodes == s.nodes[i := nd.(sentComplete := nd.sentComplete || SendsComplete(nd, o))]
  {
    assert s.nodes[i := s.nodes[i]] == s.nodes;
  }

  lemma AdvanceParts(c: Config, nd: Aba, o: Outcome, coin: int, nd1: Aba)
    requires nd.voteResult == Some(o) && nd.coin == Some(coin)
    requires nd1 == nd.(estimate := NextEstimate(nd, o, coin),
                        sentComplete := nd.sentComplete || SendsComplete(nd, o))
    ensures var (nd2, entry) := EnterRound(c.n, c.t, nd1, nd.round + 1);
            Advance(c.n, c.t, nd) == (nd2, if SendsComplete(nd, o) then Some(o.value) else None, entry)
  {
  }

  lemma AdvancedIs(c: Config, s: System, i: int, o: Outcome, coin: int)
    requires c.n > c.t && i in s.nodes && VoteAt(s.nodes[i].votes, s.nodes[i].round + 1) == FreshRound()
    requires s.nodes[i].voteResult == Some(o) && s.nodes[i].coin == Some(coin)
    ensures var e := NextEstimate(s.nodes[i], o, coin);
            Advanced(c, s, i) == Entered(Announced(s, i, o), i, e, e)
  {
    var s1, nd := Announced(s, i, o), s.nodes[i];
    var nd1 := nd.(estimate := NextEstimate(nd, o, coin), sentComplete := nd.sentComplete || SendsComplete(nd, o));
    AnnouncedIs(s, i, o);
    EnterRoundIs(c, s1, i, nd1);
    AdvanceParts(c, nd, o, coin, nd1);
    var (nd2, entry) := EnterRound(c.n, c.t, nd1, nd.round + 1);
    Twice(s.nodes, i, s1.nodes[i], nd2);
  }

  lemma NextIsBlank(c: Config, s: System, i: int)
    requires Shape(c, s) && i in c.Honest()
    ensures VoteAt(s.nodes[i].votes, s.nodes[i].round + 1) == FreshRound()
  {
    assert NodeOk(c, s, i);
  }

  lemma AdvanceInv(c: Config, s: System, i: int)
    requires c.Valid() && Inv(c, s) && i in c.Honest()
    ensures Inv(c, Advanced(c, s, i))
  {
    var nd := s.nodes[i];
    if nd.voteResult.Some? && nd.coin.Some? {
      var o, coin := nd.voteResult.value, nd.coin.value;
      AnnounceInv(c, s, i, o, coin);
      NextIsBlank(c, s, i);
      AdvancedIs(c, s, i, o, coin);
      EnterInv(c, Announced(s, i, o), i, NextEstimate(nd, o, coin), NextEstimate(nd, o, coin));
    } else {
      assert s.nodes[i := nd] == s.nodes;
    }
  }

  /** The current round of node `i` just finished with `o`. */
  ghost function Noted(s: System, i: int, o: Outcome): System
    requires i in s.nodes
  {
    AfterNode(s, i, s.nodes[i].(voteResult := Some(o)), s.completes)
  }

  lemma NotedInv(c: Config, s: System, i: int, o: Outcome)
    requires c.Valid() && Inv(c, s) && i in c.Honest() && Out(s, i, s.nodes[i].round) == Some(o)
    ensures Inv(c, Noted(s, i, o)) && Inv(c, Advanced(c, Noted(s, i, o), i))
  {
    BooksOf(c, s, i);
    BooksInv(c, s, i, s.nodes[i].(voteResult := Some(o)), s.completes);
    AdvanceInv(c, Noted(s, i, o), i);
  }

  ghost function Voted(c: Config, s: System, i: int, r: int, d: Progressed): System
    requires i in s.nodes
  {
    var (nd, fx) := TakeVote(c.n, c.t, s.nodes[i], r, d);
    System(s.rules, s.nodes[i := nd], CastEntry(CastBallots(s.boards, i, r, d), i, fx.entry),
           CastComplete(s.completes, i, fx.complete))
  }

  /** A delivery that finishes the current round also advances; any other only touches the vote. */
  lemma VotedIs(c: Config, s: System, i: int, r: int, d: Progressed)
    requires i in s.nodes
    ensures Voted(c, s, i, r, d) ==
            var s1 := AfterVote(c, s, i, r, d);
            if VoteAt(s.nodes[i].votes, r).outcome.None? && d.round.outcome.Some? && r == s.nodes[i].round
            then Advanced(c, Noted(s1, i, d.round.outcome.value), i) else s1
  {
    var s1 := AfterVote(c, s, i, r, d);
    if VoteAt(s.nodes[i].votes, r).outcome.None? && d.round.outcome.Some? && r == s.nodes[i].round {
      var s2 := Noted(s1, i, d.round.outcome.value);
      var nd := Advance(c.n, c.t, s2.nodes[i]).0;
      assert s2.nodes[i := nd] == s.nodes[i := nd];
    }
  }

  lemma OnVoteInv(c: Config, s: System, i: int, r: int, sender: int, p: Payload)
    requires c.Valid() && Inv(c, s) && Legal(c, s, Local(i, VoteDelivered(r, sender, p)))
    ensures Inv(c, Apply(c, s, Local(i, VoteDelivered(r, sender, p))))
  {
    var vr := VoteAt(s.nodes[i].votes, r);
    var d := OnDelivered(c.n, c.t, vr, sender, p);
    VoteInv(c, s, i, r, sender, p);
    VotedIs(c, s, i, r, d);
    if vr.outcome.None? && d.round.outcome.Some? && r == s.nodes[i].round {
      NotedInv(c, AfterVote(c, s, i, r, d), i, d.round.outcome.value);
    }
    assert Apply(c, s, Local(i, VoteDelivered(r, sender, p))) == Voted(c, s, i, r, d);
  }

  /** A coin of the current round advances the node. */
  lemma CoinAdvances(c: Config, s: System, i: int, coin: int)
    requires i in s.nodes && Legal(c, s, Local(i, CoinResult(s.nodes[i].round, coin)))
    ensures Apply(c, s, Local(i, CoinResult(s.nodes[i].round, coin))) ==
            Advanced(c, AfterNode(s, i, s.nodes[i].(coin := Some(coin)), s.completes), i)
  {
    var nd := s.nodes[i].(coin := Some(coin));
    Twice(s.nodes, i, nd, Advance(c.n, c.t, nd).0);
  }

  lemma OnCoinInv(c: Config, s: System, i: int, r: int, coin: int)
    requires c.Valid() && Inv(c, s) && Legal(c, s, Local(i, CoinResult(r, coin)))
    ensures Inv(c, Apply(c, s, Local(i, CoinResult(r, coin))))
  {
    var nd := s.nodes[i];
    if r == nd.round {
      var nd1 := nd.(coin := Some(coin));
      BooksOf(c, s, i);
      BooksInv(c, s, i, nd1, s.completes);
      AdvanceInv(c, AfterNode(s, i, nd1, s.completes), i);
      CoinAdvances(c, s, i, coin);
    } else {
      assert s.nodes[i := nd] == s.nodes;
    }
  }

  lemma StartIs(c: Config, s: System, i: int)
    requires c.n > c.t && Legal(c, s, Local(i, Start)) && VoteAt(s.nodes[i].votes, 1) == FreshRound()
    ensures Apply(c, s, Local(i, Start)) == Entered(s, i, s.nodes[i].estimate, s.nodes[i].estimate)
  {
    EnterRoundIs(c, s, i, s.nodes[i]);
  }

  lemma StartInv(c: Config, s: System, i: int)
    requires c.Valid() && Inv(c, s) && Legal(c, s, Local(i, Start))
    ensures Inv(c, Apply(c, s, Local(i, Start)))
  {
    var nd := s.nodes[i];
    NextIsBlank(c, s, i);
    StartIs(c, s, i);
    EnterInv(c, s, i, nd.estimate, nd.estimate);
  }

  lemma StepInv(c: Config, s: System, e: Event)
    requires c.Valid() && Inv(c, s) && Legal(c, s, e)
    ensures Inv(c, Apply(c, s, e))
  {
    match e
    case Local(i, Start) => StartInv(c, s, i);
    case Local(i, VoteDelivered(r, sender, p)) => OnVoteInv(c, s, i, r, sender, p);
    case Local(i, CoinResult(r, coin)) => OnCoinInv(c, s, i, r, coin);
    case Local(i, CompleteDelivered(j, v)) => OnCompleteInv(c, s, i, j, v);
    case ByzInput(j, r, bit) => ByzInputInv(c, s, j, r, bit);
    case ByzVote1(j, r, v) => ByzVote1Inv(c, s, j, r, v);
    case ByzRevote(j, r, v) => ByzRevoteInv(c, s, j, r, v);
    case ByzComplete(j, v) => ByzCompleteInv(c, s, j, v);
  }

  lemma {:induction false} RunInv(c: Config, s: System, es: seq<Event>, s': System)
    requires c.Valid() && Inv(c, s) && Leads(c, s, es, s')
    ensures Inv(c, s')
    decreases |es|
  {
    if es != [] {
      StepInv(c, s, es[0]);
      RunInv(c, Apply(c, s, es[0]), es[1..], s');
    }
  }

  lemma InitInv(c: Config, rules: Rules, estimates: map<int, int>)
    requires c.Valid() && c.Honest() <= estimates.Keys
    ensures Inv(c, Init(c, rules, estimates))
  {
    var s := Init(c, rules, estimates);
    forall r ensures RoundOk(c, s, r) {}
    forall i | i in c.Honest() ensures NodeOk(c, s, i) {}
  }
}
