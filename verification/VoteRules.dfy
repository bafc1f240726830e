/**
 The promises of the graded vote when up to `t` origins put what they like in their ballots: receivers check the sets
 a ballot names, not its bit. All statements are about runs and the nodes that finish in them.
 */
module VoteRules {
  import opened Quorums
  import opened Vote
  import opened VoteBoard
  import opened VoteRuns
  import opened VoteTheorems

  /** Two nodes of one run have finished. */
  ghost predicate Pair(c: Config, r: Rules, es: seq<Event>, s: System, i: int, o: Outcome, k: int, o': Outcome) {
    Reachable(c, es, s) && Obeys(c, s.board, r) && Finished(c, s, i, o) && Finished(c, s, k, o')
  }

  /** In no run do two graded outcomes differ. */
  ghost predicate ValuesSafe(n: nat, t: nat, ids: set<int>, r: Rules) {
    forall byz: set<int>, es: seq<Event>, s: System, i: int, o: Outcome, k: int, o': Outcome ::
      Pair(Config(n, t, ids, byz), r, es, s, i, o, k, o') && o.conf >= 1 && o'.conf >= 1 ==> o.value == o'.value
  }

  /** In every run a grade 2 outcome settles the round. */
  ghost predicate GradingSafe(n: nat, t: nat, ids: set<int>, r: Rules) {
    forall byz: set<int>, es: seq<Event>, s: System, i: int, o: Outcome, k: int, o': Outcome ::
      Pair(Config(n, t, ids, byz), r, es, s, i, o, k, o') && o.conf == 2 ==> o'.value == o.value && o'.conf >= 1
  }

  ghost predicate HonestInputs(c: Config, b: Board, v: int) {
    forall j :: j in b.inputs && j in c.Honest() ==> b.inputs[j] == v
  }

  /** In every run unanimous honest inputs win with grade 2. */
  ghost predicate ValiditySafe(n: nat, t: nat, ids: set<int>, r: Rules) {
    forall byz: set<int>, es: seq<Event>, s: System, i: int, o: Outcome, v: int ::
      && Pair(Config(n, t, ids, byz), r, es, s, i, o, i, o) && (v == 0 || v == 1)
      && HonestInputs(Config(n, t, ids, byz), s.board, v)
      ==> o == Outcome(v, 2)
  }

  // ------------------------------------------------------------ when they are kept

  /** Without faulty nodes everything is justified. */
  lemma NoFaulty(c: Config, es: seq<Event>, s: System)
    requires Reachable(c, es, s) && c.t == 0
    ensures JustifiedBy(c, s.board, c.ids)
  {
    CodeFollowersAreJustified(c, es, s);
    assert c.byz == {};
    assert c.Honest() == c.ids;
  }

  /** -1 does not occur among justified VOTE1s. */
  lemma Tame(c: Config, es: seq<Event>, s: System, r: Rules)
    requires Reachable(c, es, s) && Obeys(c, s.board, r) && (r.votes1 || !r.sentinel || c.n >= 5 * c.t)
    ensures NoSentinel(s.board) || c.n >= 5 * c.t
  {
    CodeFollowersAreJustified(c, es, s);
    if r.votes1 {
      JustifiedHasNoSentinel(c, s.board);
    }
  }

  lemma ValuesKept(c: Config, r: Rules, es: seq<Event>, s: System, i: int, o: Outcome, k: int, o': Outcome)
    requires Pair(c, r, es, s, i, o, k, o') && o.conf >= 1 && o'.conf >= 1
    requires r.votes1 || !r.sentinel || c.n >= 5 * c.t
    ensures o.value == o'.value
  {
    Tame(c, es, s, r);
    FinishersAgree(c, es, s, i, o, k, o');
  }

  lemma GradingKept(c: Config, r: Rules, es: seq<Event>, s: System, i: int, o: Outcome, k: int, o': Outcome)
    requires Pair(c, r, es, s, i, o, k, o') && o.conf == 2
    requires c.t == 0 || (r.revotes && (r.votes1 || !r.sentinel || c.n >= 5 * c.t))
    ensures o'.value == o.value && o'.conf >= 1
  {
    if c.t == 0 {
      NoFaulty(c, es, s);
    } else {
      Tame(c, es, s, r);
    }
    StrongSettlesTheRound(c, es, s, i, o, k, o');
  }

  lemma ValidityKept(c: Config, r: Rules, es: seq<Event>, s: System, i: int, o: Outcome, v: int)
    requires Pair(c, r, es, s, i, o, i, o) && (v == 0 || v == 1) && HonestInputs(c, s.board, v)
    requires c.t == 0 || r.votes1
    ensures o == Outcome(v, 2)
  {
    if c.t == 0 {
      NoFaulty(c, es, s);
    }
    UnanimousInputsDecide(c, es, s, i, o, v);
  }
}
