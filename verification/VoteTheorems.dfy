/** What the graded vote promises, over every run of one round. */
module VoteTheorems {
  import opened Quorums
  import opened Vote
  import opened VoteBoard
  import opened VoteNode
  import opened VoteRuns

  /** Node `i` follows the code and has finished with `o`. */
  ghost predicate Finished(c: Config, s: System, i: int, o: Outcome) {
    i in c.Honest() && i in s.nodes && s.nodes[i].round.outcome == Some(o)
  }

  /** Every ballot of a code-following node names a quorum and carries its majority. */
  lemma CodeFollowersAreJustified(c: Config, es: seq<Event>, s: System)
    requires Reachable(c, es, s)
    ensures OnIds(c, s.board) && JustifiedBy(c, s.board, c.Honest())
    ensures forall i, o :: Finished(c, s, i, o) ==>
              Concluded(c, s.board, s.nodes[i].round.myB, s.nodes[i].round.myC, o)
  {
    ReachableInv(c, es, s);
    forall i | i in c.Honest()
      ensures i in s.board.vote1 ==> Justified1(c, s.board, i)
      ensures i in s.board.revote ==> Justified2(c, s.board, i)
      ensures s.nodes[i].round.outcome.Some? ==>
                Concluded(c, s.board, s.nodes[i].round.myB, s.nodes[i].round.myC, s.nodes[i].round.outcome.value)
    {
      assert NodeInv(c, s.board, i, s.nodes[i]);
    }
  }

  /**
   Every VOTE1 a code-following node names in its REVOTE, forged ones included, names only origins whose INPUT is on
   the board and was delivered to that node.
   */
  lemma CountedVotesAreBacked(c: Config, es: seq<Event>, s: System, i: int, j: int)
    requires Reachable(c, es, s) && i in c.Honest() && i in s.nodes
    requires i in s.board.revote && j in s.board.revote[i].members
    ensures j in s.board.vote1 && s.board.vote1[j].members <= s.nodes[i].ins <= s.board.inputs.Keys
  {
    ReachableInv(c, es, s);
    assert NodeInv(c, s.board, i, s.nodes[i]);
  }

  /** The same of the VOTE1s named by the REVOTEs that a finished node counted. */
  lemma CountedRevotesAreBacked(c: Config, es: seq<Event>, s: System, i: int, o: Outcome, j: int, k: int)
    requires Reachable(c, es, s) && Finished(c, s, i, o)
    requires j in s.nodes[i].round.myC && j in s.board.revote && k in s.board.revote[j].members
    ensures k in s.board.vote1 && s.board.vote1[k].members <= s.nodes[i].ins <= s.board.inputs.Keys
  {
    ReachableInv(c, es, s);
    assert NodeInv(c, s.board, i, s.nodes[i]);
    var r := s.nodes[i].round;
    assert j in r.revote && Backed1(r, r.revote[j].members);
  }

  /** VOTE1s delivered to a node that name only INPUTs delivered to it. */
  ghost predicate Enough1(b: Board, nd: Node, q: set<int>) {
    q <= nd.v1s && forall j :: j in q && j in b.vote1 ==> b.vote1[j].members <= nd.ins
  }

  /** REVOTEs delivered to a node that name only such VOTE1s. */
  ghost predicate Enough2(b: Board, nd: Node, q: set<int>) {
    q <= nd.rvs && forall j :: j in q && j in b.revote ==> Enough1(b, nd, b.revote[j].members)
  }

  /**
   No ballot waits: while a code-following node has not sent its VOTE1, fewer than `n - t` INPUTs were delivered to it;
   while it has not sent its REVOTE, no `n - t` of the VOTE1s delivered to it name only INPUTs delivered to it; and
   while it has not finished, no `n - t` of the REVOTEs delivered to it name only such VOTE1s.
   */
  lemma NothingWaits(c: Config, es: seq<Event>, s: System, i: int, q: set<int>)
    requires Reachable(c, es, s) && i in c.Honest() && i in s.nodes && s.nodes[i].round.outcome.None?
    ensures i !in s.board.vote1 ==> |s.nodes[i].ins| < c.n - c.t
    ensures i in s.board.vote1 && i !in s.board.revote && Enough1(s.board, s.nodes[i], q) ==> |q| < c.n - c.t
    ensures i in s.board.revote && Enough2(s.board, s.nodes[i], q) ==> |q| < c.n - c.t
  {
    ReachableInv(c, es, s);
    var nd := s.nodes[i];
    assert NodeInv(c, s.board, i, nd);
    assert |nd.round.inputs| == |nd.round.inputs.Keys|;
    if Enough1(s.board, nd, q) {
      NoVoteWaits(c, s.board, i, nd, q);
    }
    if Enough2(s.board, nd, q) {
      NoRevoteWaits(c, s.board, i, nd, q);
    }
  }

  lemma NoVoteWaits(c: Config, b: Board, i: int, nd: Node, q: set<int>)
    requires NodeInv(c, b, i, nd) && nd.round.outcome.None? && Enough1(b, nd, q)
    ensures i in b.vote1 && i !in b.revote ==> |q| < c.n - c.t
  {
    assert Backed1(nd.round, q);
    BackedIsValid(nd.round, q);
    SubsetCount(q, ValidVote1(nd.round));
  }

  lemma NoRevoteWaits(c: Config, b: Board, i: int, nd: Node, q: set<int>)
    requires NodeInv(c, b, i, nd) && nd.round.outcome.None? && Enough2(b, nd, q)
    ensures i in b.revote ==> |q| < c.n - c.t
  {
    var r := nd.round;
    forall j | j in q ensures j in r.revote && Backed1(r, r.revote[j].members) {
      assert r.revote[j] == b.revote[j];
    }
    BackedIsValid(r, q);
    SubsetCount(q, ValidRevote(r));
  }

  /** Safety whatever bits forged ballots carry, as long as no VOTE1 carries -1 or `n >= 5t`. */
  lemma FinishersAgree(c: Config, es: seq<Event>, s: System, i: int, o: Outcome, k: int, o': Outcome)
    requires Reachable(c, es, s) && Finished(c, s, i, o) && Finished(c, s, k, o')
    requires NoSentinel(s.board) || c.n >= 5 * c.t
    requires o.conf >= 1 && o'.conf >= 1
    ensures o.value == o'.value
  {
    CodeFollowersAreJustified(c, es, s);
    GradedValuesAgree(c, s.board, s.nodes[i].round.myB, s.nodes[i].round.myC, o,
                      s.nodes[k].round.myB, s.nodes[k].round.myC, o');
  }

  /** Graded agreement when all REVOTEs on the board are justified, whatever bits but -1 forged VOTE1s carry. */
  lemma StrongSettlesTheRound(c: Config, es: seq<Event>, s: System, i: int, o: Outcome, k: int, o': Outcome)
    requires Reachable(c, es, s) && Finished(c, s, i, o) && Finished(c, s, k, o')
    requires RevotesJustified(c, s.board, c.ids) && (NoSentinel(s.board) || c.n >= 5 * c.t) && o.conf == 2
    ensures forall j :: j in s.board.revote ==> s.board.revote[j].bit == o.value
    ensures o' == Outcome(o.value, 1) || o' == Outcome(o.value, 2)
  {
    CodeFollowersAreJustified(c, es, s);
    GradedAgreement(c, s.board, s.nodes[i].round.myB, s.nodes[i].round.myC, o,
                    s.nodes[k].round.myB, s.nodes[k].round.myC, o');
  }

  /** Validity when all VOTE1s on the board are justified, whatever the REVOTEs are. */
  lemma UnanimousInputsDecide(c: Config, es: seq<Event>, s: System, i: int, o: Outcome, v: int)
    requires Reachable(c, es, s) && Finished(c, s, i, o) && (v == 0 || v == 1)
    requires Votes1Justified(c, s.board, c.ids)
    requires forall j :: j in s.board.inputs && j in c.Honest() ==> s.board.inputs[j] == v
    ensures o == Outcome(v, 2)
  {
    CodeFollowersAreJustified(c, es, s);
    UnanimousInputsWin(c, s.board, s.nodes[i].round.myB, s.nodes[i].round.myC, o, v);
  }

  // -------------------------------------------------------------- never stuck

  /**
   The nodes of `live` have all started, and whatever one of them broadcast or was delivered has been
   delivered to all of them.
   */
  ghost predicate Settled(c: Config, live: set<int>, s: System) {
    && live <= c.Honest() && live <= s.nodes.Keys && |live| >= c.n - c.t
    && (forall i :: i in live ==> s.nodes[i].started)
    && (forall i, k :: i in live && k in live ==>
          s.nodes[k].ins <= s.nodes[i].ins && s.nodes[k].v1s <= s.nodes[i].v1s && s.nodes[k].rvs <= s.nodes[i].rvs)
    && (forall i, k :: i in live && k in live && k in s.board.inputs ==> k in s.nodes[i].ins)
    && (forall i, k :: i in live && k in live && k in s.board.vote1 ==> k in s.nodes[i].v1s)
    && (forall i, k :: i in live && k in live && k in s.board.revote ==> k in s.nodes[i].rvs)
  }

  lemma AllVote(c: Config, live: set<int>, s: System, i: int)
    requires c.Valid() && Inv(c, s) && Settled(c, live, s) && i in live
    ensures s.nodes[i].round.sentVote1
  {
    var nd := s.nodes[i];
    assert NodeInv(c, s.board, i, nd);
    if k :| k in live && s.nodes[k].round.sentVote1 {
      assert NodeInv(c, s.board, k, s.nodes[k]);
      SubsetCount(s.nodes[k].round.myA, nd.ins);
    } else {
      forall k | k in live ensures k in nd.ins {
        assert NodeInv(c, s.board, k, s.nodes[k]);
      }
      SubsetCount(live, nd.ins);
    }
    assert |nd.round.inputs| == |nd.round.inputs.Keys|;
  }

  /** A VOTE1 that is valid at one live node is valid at every unfinished live node. */
  lemma ValidEverywhere(c: Config, live: set<int>, s: System, i: int, k: int)
    requires c.Valid() && Inv(c, s) && Settled(c, live, s) && i in live && k in live
    requires s.nodes[i].round.outcome.None?
    ensures ValidVote1(s.nodes[k].round) <= ValidVote1(s.nodes[i].round)
  {
    var r, r' := s.nodes[k].round, s.nodes[i].round;
    assert NodeInv(c, s.board, i, s.nodes[i]) && NodeInv(c, s.board, k, s.nodes[k]);
    forall j | j in ValidVote1(r) ensures j in ValidVote1(r') {
      assert j in r'.vote1 && r'.vote1[j] == s.board.vote1[j] == r.vote1[j];
    }
  }

  lemma AllRevote(c: Config, live: set<int>, s: System, i: int)
    requires c.Valid() && Inv(c, s) && Settled(c, live, s) && i in live
    ensures s.nodes[i].round.sentRevote
  {
    var r := s.nodes[i].round;
    assert NodeInv(c, s.board, i, s.nodes[i]);
    AllVote(c, live, s, i);
    if r.outcome.None? {
      forall k | k in live ensures k in ValidVote1(r) {
        AllVote(c, live, s, k);
        assert NodeInv(c, s.board, k, s.nodes[k]);
        assert s.board.vote1[k].members <= s.nodes[k].ins <= s.nodes[i].ins;
      }
      SubsetCount(live, ValidVote1(r));
    }
  }

  /** The REVOTE of a live node counts at every unfinished live node. */
  lemma RevoteValid(c: Config, live: set<int>, s: System, i: int, k: int)
    requires c.Valid() && Inv(c, s) && Settled(c, live, s) && i in live && k in live
    requires s.nodes[i].round.outcome.None?
    ensures k in ValidRevote(s.nodes[i].round)
  {
    var r := s.nodes[i].round;
    AllRevote(c, live, s, k);
    assert NodeInv(c, s.board, i, s.nodes[i]) && NodeInv(c, s.board, k, s.nodes[k]);
    BackedIsValid(s.nodes[k].round, s.nodes[k].round.myB);
    ValidEverywhere(c, live, s, i, k);
    assert r.revote[k] == s.board.revote[k];
  }

  /** The vote cannot get stuck: in a settled state every live node has finished the round. */
  lemma NeverStuck(c: Config, es: seq<Event>, s: System, live: set<int>, i: int)
    requires Reachable(c, es, s) && Settled(c, live, s) && i in live
    ensures s.nodes[i].round.outcome.Some?
  {
    ReachableInv(c, es, s);
    var r := s.nodes[i].round;
    assert NodeInv(c, s.board, i, s.nodes[i]);
    AllRevote(c, live, s, i);
    if r.outcome.None? {
      forall k | k in live ensures k in ValidRevote(r) {
        RevoteValid(c, live, s, i, k);
      }
      SubsetCount(live, ValidRevote(r));
    }
  }
}
