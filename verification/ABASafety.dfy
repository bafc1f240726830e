/** Why one value wins: reasoning about a single state of the agreement loop, and about one new vote outcome. */
module ABASafety {
  import opened Quorums
  import opened Vote
  import opened VoteBoard
  import opened VoteNode
  import opened ABARuns

  /** Ballots of nodes that follow the code are justified whatever the rules. */
  lemma HonestJustified(c: Config, s: System, r: int)
    requires Shape(c, s)
    ensures OnIds(c, BoardAt(s.boards, r)) && JustifiedBy(c, BoardAt(s.boards, r), c.Honest())
    ensures Obeys(c, BoardAt(s.boards, r), s.rules)
  {
    assert RoundOk(c, s, r);
    forall i | i in c.Honest() ensures Follows(c, BoardAt(s.boards, r), i, VoteAt(s.nodes[i].votes, r)) {
    }
  }

  /** The quorums behind a vote outcome. */
  lemma OutConcluded(c: Config, s: System, i: int, r: int, o: Outcome) returns (bs: set<int>, cs: set<int>)
    requires Shape(c, s) && HasOut(c, s, i, r, o)
    ensures Concluded(c, BoardAt(s.boards, r), bs, cs, o)
  {
    assert RoundOk(c, s, r);
    var vr := VoteAt(s.nodes[i].votes, r);
    assert Follows(c, BoardAt(s.boards, r), i, vr);
    bs, cs := vr.myB, vr.myC;
  }

  /** Without faulty nodes all ballots are justified. */
  lemma NobodyForges(c: Config, b: Board)
    requires c.Valid() && c.t == 0 && OnIds(c, b) && JustifiedBy(c, b, c.Honest())
    ensures JustifiedBy(c, b, c.ids)
  {
    assert c.byz == {};
    assert c.Honest() == c.ids;
  }

  lemma BindingBoard(c: Config, b: Board, rules: Rules)
    requires c.Valid() && Binding(c, rules) && OnIds(c, b) && JustifiedBy(c, b, c.Honest()) && Obeys(c, b, rules)
    ensures RevotesJustified(c, b, c.ids) && (NoSentinel(b) || c.n >= 5 * c.t)
  {
    if c.t == 0 {
      NobodyForges(c, b);
      JustifiedHasNoSentinel(c, b);
    } else if rules.votes1 {
      JustifiedHasNoSentinel(c, b);
    }
  }

  lemma OutcomeShape(c: Config, s: System, i: int, r: int, o: Outcome)
    requires c.Valid() && Shape(c, s) && HasOut(c, s, i, r, o)
    ensures o.conf == 0 || o.conf == 1 || o.conf == 2
    ensures o.conf >= 1 ==> o.value == 0 || o.value == 1
  {
    HonestJustified(c, s, r);
    var bs, cs := OutConcluded(c, s, i, r, o);
    ConcludedShape(c, BoardAt(s.boards, r), bs, cs, o);
  }

  /** Graded agreement inside one round. */
  lemma StrongMeets(c: Config, s: System, r: int, v: int, j: int, o: Outcome)
    requires c.Valid() && Shape(c, s) && Binding(c, s.rules) && StrongAt(c, s, r, v) && HasOut(c, s, j, r, o)
    ensures o.value == v && o.conf >= 1
  {
    var i :| HasOut(c, s, i, r, Outcome(v, 2));
    HonestJustified(c, s, r);
    var bs, cs := OutConcluded(c, s, i, r, Outcome(v, 2));
    var bs', cs' := OutConcluded(c, s, j, r, o);
    BindingBoard(c, BoardAt(s.boards, r), s.rules);
    GradedAgreement(c, BoardAt(s.boards, r), bs, cs, Outcome(v, 2), bs', cs', o);
  }

  /** With justified VOTE1s unanimous inputs win with grade 2. */
  lemma InputsWin(c: Config, s: System, r: int, v: int, j: int, o: Outcome)
    requires c.Valid() && Shape(c, s) && (c.t == 0 || s.rules.votes1)
    requires InputsAre(c, s, r, v) && (v == 0 || v == 1) && HasOut(c, s, j, r, o)
    ensures o == Outcome(v, 2)
  {
    HonestJustified(c, s, r);
    var bs, cs := OutConcluded(c, s, j, r, o);
    if c.t == 0 {
      NobodyForges(c, BoardAt(s.boards, r));
    }
    UnanimousInputsWin(c, BoardAt(s.boards, r), bs, cs, o, v);
  }

  /** With either kind of ballot justified they win. */
  lemma InputsHold(c: Config, s: System, r: int, v: int, j: int, o: Outcome)
    requires c.Valid() && Shape(c, s) && Faithful(c, s.rules)
    requires InputsAre(c, s, r, v) && (v == 0 || v == 1) && HasOut(c, s, j, r, o)
    ensures o.value == v && o.conf >= 1
  {
    if c.t == 0 || s.rules.votes1 {
      InputsWin(c, s, r, v, j, o);
    } else {
      HonestJustified(c, s, r);
      var bs, cs := OutConcluded(c, s, j, r, o);
      UnanimousInputsHold(c, BoardAt(s.boards, r), bs, cs, o, v);
    }
  }

  /** Behind every outcome there is an INPUT of a node that follows the code. */
  lemma SomeHonestInput(c: Config, b: Board, bs: set<int>, cs: set<int>, o: Outcome) returns (j: int)
    requires c.Valid() && OnIds(c, b) && JustifiedBy(c, b, c.Honest()) && Concluded(c, b, bs, cs, o)
    ensures j in c.Honest() && j in b.inputs
  {
    var h := HonestInBoth(c, bs, bs);
    assert Justified1(c, b, h);
    j := MemberOutside(b.vote1[h].members, c.byz);
  }

  /** No round before the first is ever finished: nobody who follows the code enters it. */
  lemma RoundsStartAtOne(c: Config, s: System, i: int, r: int, o: Outcome)
    requires c.Valid() && Shape(c, s) && HasOut(c, s, i, r, o)
    ensures 1 <= r <= s.nodes[i].round
  {
    HonestJustified(c, s, r);
    var bs, cs := OutConcluded(c, s, i, r, o);
    var j := SomeHonestInput(c, BoardAt(s.boards, r), bs, cs, o);
    assert NodeOk(c, s, j) && NodeOk(c, s, i);
  }

  /** Round `q` left nobody a choice but `v`. */
  ghost predicate Settles(c: Config, s: System, q: int, v: int) {
    forall j, o :: HasOut(c, s, j, q, o) ==> o.conf >= 1 && o.value == v
  }

  ghost predicate InputTracedWhenCast(c: Config, s: System, j: int, r: int)
    requires j in s.nodes
  {
    j in BoardAt(s.boards, r).inputs ==> InputTraced(BoardAt(s.boards, r), s.nodes[j], j, r)
  }

  lemma NextInput(c: Config, s: System, q: int, v: int, j: int)
    requires j in c.Honest() && j in s.nodes && InputTracedWhenCast(c, s, j, q + 1)
    requires q >= 1 && Settles(c, s, q, v) && DecisionsAre(c, s, v) && j in BoardAt(s.boards, q + 1).inputs
    ensures BoardAt(s.boards, q + 1).inputs[j] == v
  {
    assert InputTraced(BoardAt(s.boards, q + 1), s.nodes[j], j, q + 1);
    assert HasOut(c, s, j, q, Out(s, j, q).value);
  }

  lemma NextInputOf(c: Config, s: System, q: int, v: int, j: int)
    requires Shape(c, s) && q >= 1 && Settles(c, s, q, v) && DecisionsAre(c, s, v)
    requires j in c.Honest() && j in BoardAt(s.boards, q + 1).inputs
    ensures BoardAt(s.boards, q + 1).inputs[j] == v
  {
    assert NodeOk(c, s, j);
    NextInput(c, s, q, v, j);
  }

  lemma NextInputs(c: Config, s: System, q: int, v: int)
    requires c.Valid() && Shape(c, s) && q >= 1 && Settles(c, s, q, v) && DecisionsAre(c, s, v)
    ensures InputsAre(c, s, q + 1, v)
  {
    forall j | j in c.Honest() && j in BoardAt(s.boards, q + 1).inputs {
      NextInputOf(c, s, q, v, j);
    }
  }

  /** Persistence: once a round is entered with `v` alone, so is every later one, whatever the coins say. */
  lemma {:induction false} Persistence(c: Config, s: System, q: int, r: int, v: int)
    requires c.Valid() && Shape(c, s) && Faithful(c, s.rules) && (v == 0 || v == 1) && DecisionsAre(c, s, v)
    requires 1 <= q <= r && InputsAre(c, s, q, v)
    ensures InputsAre(c, s, r, v)
    decreases r - q
  {
    if q < r {
      forall j, o | HasOut(c, s, j, q, o) ensures o.conf >= 1 && o.value == v {
        InputsHold(c, s, q, v, j, o);
      }
      NextInputs(c, s, q, v);
      Persistence(c, s, q + 1, r, v);
    }
  }

  lemma SettledOnward(c: Config, s: System, q: int, r: int, v: int)
    requires c.Valid() && Shape(c, s) && Faithful(c, s.rules) && (v == 0 || v == 1) && DecisionsAre(c, s, v)
    requires 1 <= q < r && Settles(c, s, q, v)
    ensures InputsAre(c, s, r, v)
  {
    NextInputs(c, s, q, v);
    Persistence(c, s, q + 1, r, v);
  }

  lemma DecisionsFollow(c: Config, s: System, v: int)
    requires Shape(c, s) && OneValue(c, s) && StrongSomewhere(c, s, v)
    ensures DecisionsAre(c, s, v)
  {
    forall j | j in c.Honest() && j in s.nodes && s.nodes[j].decided ensures s.nodes[j].decision == v {
      assert NodeOk(c, s, j);
    }
  }

  lemma StrongSettles(c: Config, s: System, r: int, v: int)
    requires c.Valid() && Shape(c, s) && Binding(c, s.rules) && StrongAt(c, s, r, v)
    ensures Settles(c, s, r, v) && r >= 1 && (v == 0 || v == 1)
  {
    forall j, o | HasOut(c, s, j, r, o) ensures o.conf >= 1 && o.value == v {
      StrongMeets(c, s, r, v, j, o);
    }
    var i :| HasOut(c, s, i, r, Outcome(v, 2));
    RoundsStartAtOne(c, s, i, r, Outcome(v, 2));
    OutcomeShape(c, s, i, r, Outcome(v, 2));
  }

  /** After a grade 2 outcome every later round is entered with its value alone. */
  lemma Locked(c: Config, s: System, r: int, r': int, v: int)
    requires c.Valid() && Shape(c, s) && Binding(c, s.rules) && OneValue(c, s) && StrongAt(c, s, r, v) && r' > r
    ensures InputsAre(c, s, r', v)
  {
    StrongSettles(c, s, r, v);
    assert StrongSomewhere(c, s, v);
    DecisionsFollow(c, s, v);
    SettledOnward(c, s, r, r', v);
  }

  // ------------------------------------------------------------ one new outcome

  /** From `s` to `s'` nothing that matters here changed but node `i` finishing round `r`. */
  ghost predicate OneMoreOutcome(c: Config, s: System, s': System, i: int, r: int) {
    && s'.rules == s.rules && s.nodes.Keys == s'.nodes.Keys == c.Honest() && i in c.Honest()
    && Out(s, i, r).None?
    && (forall k, q :: k in c.Honest() && !(k == i && q == r) ==> Out(s', k, q) == Out(s, k, q))
    && (forall q :: BoardAt(s'.boards, q).inputs == BoardAt(s.boards, q).inputs)
    && (forall k :: k in c.Honest() ==>
          s'.nodes[k].decided == s.nodes[k].decided && s'.nodes[k].round == s.nodes[k].round)
    && (forall k :: k in c.Honest() ==> s'.nodes[k].decision == s.nodes[k].decision)
    && r <= s.nodes[i].round
  }

  lemma OldOutcomesStay(c: Config, s: System, s': System, i: int, r: int)
    requires OneMoreOutcome(c, s, s', i, r)
    ensures forall k, q, o :: HasOut(c, s, k, q, o) ==> HasOut(c, s', k, q, o)
    ensures forall q, v :: StrongAt(c, s, q, v) ==> StrongAt(c, s', q, v)
    ensures forall q, v :: Open(c, s, q, v) ==> Open(c, s', q, v)
  {
    forall k, q, o | HasOut(c, s, k, q, o) ensures HasOut(c, s', k, q, o) {
      assert !(k == i && q == r);
    }
  }

  /** A grade 2 outcome of `s'` is the new one or was there before. */
  lemma StrongIsNewOrOld(c: Config, s: System, s': System, i: int, r: int, q: int, v: int)
    requires OneMoreOutcome(c, s, s', i, r) && StrongAt(c, s', q, v)
    ensures StrongAt(c, s, q, v) || (q == r && HasOut(c, s', i, r, Outcome(v, 2)))
  {
    var k :| HasOut(c, s', k, q, Outcome(v, 2));
    if !(k == i && q == r) {
      assert HasOut(c, s, k, q, Outcome(v, 2));
    }
  }

  lemma NewMeetsEarlier(c: Config, s: System, s': System, i: int, r: int, v: int, q: int, w: int)
    requires c.Valid() && Inv(c, s) && Shape(c, s') && OneMoreOutcome(c, s, s', i, r)
    requires Binding(c, s.rules)
    requires HasOut(c, s', i, r, Outcome(v, 2)) && StrongAt(c, s, q, w) && q < r
    ensures v == w
  {
    Locked(c, s, q, r, w);
    StrongSettles(c, s, q, w);
    assert InputsAre(c, s', r, w);
    InputsHold(c, s', r, w, i, Outcome(v, 2));
  }

  lemma NewMeetsLater(c: Config, s: System, s': System, i: int, r: int, v: int, q: int, w: int)
    requires c.Valid() && Inv(c, s) && Shape(c, s') && OneMoreOutcome(c, s, s', i, r)
    requires Binding(c, s.rules)
    requires HasOut(c, s', i, r, Outcome(v, 2)) && StrongAt(c, s, q, w) && q > r
    ensures v == w
  {
    OldOutcomesStay(c, s, s', i, r);
    RoundsStartAtOne(c, s', i, r, Outcome(v, 2));
    assert Open(c, s, r, w);
    var j, o :| HasOut(c, s, j, r, o) && (o.conf == 0 || o.value == w);
    assert StrongAt(c, s', r, v);
    StrongMeets(c, s', r, v, j, o);
  }

  /** The new grade 2 outcome agrees with every earlier one, in an earlier, the same or a later round. */
  lemma NewMeetsOld(c: Config, s: System, s': System, i: int, r: int, v: int, q: int, w: int)
    requires c.Valid() && Inv(c, s) && Shape(c, s') && OneMoreOutcome(c, s, s', i, r)
    requires Binding(c, s.rules)
    requires HasOut(c, s', i, r, Outcome(v, 2)) && StrongAt(c, s, q, w)
    ensures v == w
  {
    if q < r {
      NewMeetsEarlier(c, s, s', i, r, v, q, w);
    } else if q == r {
      OldOutcomesStay(c, s, s', i, r);
      StrongMeets(c, s', r, w, i, Outcome(v, 2));
    } else {
      NewMeetsLater(c, s, s', i, r, v, q, w);
    }
  }

  lemma NewOneValue(c: Config, s: System, s': System, i: int, r: int)
    requires c.Valid() && Inv(c, s) && Shape(c, s') && OneMoreOutcome(c, s, s', i, r)
    requires Binding(c, s.rules)
    ensures OneValue(c, s')
  {
    forall q, q', v, v' | StrongAt(c, s', q, v) && StrongAt(c, s', q', v') ensures v == v' {
      StrongIsNewOrOld(c, s, s', i, r, q, v);
      StrongIsNewOrOld(c, s, s', i, r, q', v');
      if !StrongAt(c, s, q, v) && StrongAt(c, s, q', v') {
        NewMeetsOld(c, s, s', i, r, v, q', v');
      } else if StrongAt(c, s, q, v) && !StrongAt(c, s, q', v') {
        NewMeetsOld(c, s, s', i, r, v', q, v);
      }
    }
  }

  /** With no grade 2 outcome before it, the first one cannot follow a round settled on another value. */
  lemma FirstStrongIsOpen(c: Config, s: System, s': System, i: int, r: int, v: int, q: int)
    requires c.Valid() && Inv(c, s) && Shape(c, s') && OneMoreOutcome(c, s, s', i, r)
    requires Binding(c, s.rules)
    requires HasOut(c, s', i, r, Outcome(v, 2)) && 1 <= q < r
    requires forall p, w :: !StrongAt(c, s, p, w)
    ensures Open(c, s', q, v)
  {
    assert NodeOk(c, s', i);
    var mine := Out(s', i, q).value;
    assert HasOut(c, s', i, q, mine);
    if !Open(c, s', q, v) {
      OutcomeShape(c, s', i, r, Outcome(v, 2));
      var w := 1 - v;
      forall j, o | HasOut(c, s', j, q, o) ensures o.conf >= 1 && o.value == w {
        OutcomeShape(c, s', j, q, o);
      }
      forall j | j in c.Honest() ensures !s'.nodes[j].decided {
        assert NodeOk(c, s, j);
      }
      SettledOnward(c, s', q, r, w);
      InputsHold(c, s', r, w, i, Outcome(v, 2));
      assert false;
    }
  }

  /** Node `i` itself finished every round since an earlier grade 2 outcome with its value. */
  lemma SinceOldStrong(c: Config, s: System, i: int, p: int, w: int, q: int)
    requires c.Valid() && Inv(c, s) && Binding(c, s.rules) && StrongAt(c, s, p, w) && p <= q
    requires i in c.Honest() && Out(s, i, q).Some?
    ensures Open(c, s, q, w)
  {
    var o := Out(s, i, q).value;
    assert HasOut(c, s, i, q, o);
    StrongSettles(c, s, p, w);
    if p < q {
      Locked(c, s, p, q, w);
      InputsHold(c, s, q, w, i, o);
    }
  }

  lemma NewStrongIsUnopposed(c: Config, s: System, s': System, i: int, r: int, v: int, q: int)
    requires c.Valid() && Inv(c, s) && Shape(c, s') && OneMoreOutcome(c, s, s', i, r)
    requires Binding(c, s.rules)
    requires HasOut(c, s', i, r, Outcome(v, 2)) && 1 <= q < r
    ensures Open(c, s', q, v)
  {
    if p, w :| StrongAt(c, s, p, w) {
      OldOutcomesStay(c, s, s', i, r);
      NewMeetsOld(c, s, s', i, r, v, p, w);
      if q < p {
        assert Open(c, s, q, w);
      } else {
        assert NodeOk(c, s, i);
        SinceOldStrong(c, s, i, p, w, q);
      }
    } else {
      FirstStrongIsOpen(c, s, s', i, r, v, q);
    }
  }

  /** Neither inputs nor decisions changed. */
  lemma SteadyKept(c: Config, s: System, s': System)
    requires Steady(c, s) && s.nodes.Keys == s'.nodes.Keys == c.Honest()
    requires forall k, q :: k in c.Honest() ==> SameInput(BoardAt(s.boards, q), BoardAt(s'.boards, q), k)
    requires forall k :: k in c.Honest() && s'.nodes[k].decided ==>
               s.nodes[k].decided && s'.nodes[k].decision == s.nodes[k].decision
    ensures Steady(c, s')
  {
    forall v, q | InputsAre(c, s', q, v) ensures InputsAre(c, s, q, v) {
      forall k | k in c.Honest() ensures SameInput(BoardAt(s.boards, q), BoardAt(s'.boards, q), k) {
      }
    }
    forall v, q | InputsAre(c, s, q, v) ensures InputsAre(c, s', q, v) {
      forall k | k in c.Honest() ensures SameInput(BoardAt(s.boards, q), BoardAt(s'.boards, q), k) {
      }
    }
  }

  ghost predicate SameInput(b: Board, b': Board, k: int) {
    && (k in b'.inputs <==> k in b.inputs)
    && (k in b.inputs ==> b'.inputs[k] == b.inputs[k])
  }

  lemma NewIsUnopposed(c: Config, s: System, s': System, i: int, r: int)
    requires c.Valid() && Inv(c, s) && Shape(c, s') && OneMoreOutcome(c, s, s', i, r)
    requires Binding(c, s.rules)
    ensures Unopposed(c, s')
  {
    OldOutcomesStay(c, s, s', i, r);
    forall p, q, v | StrongAt(c, s', p, v) && 1 <= q < p ensures Open(c, s', q, v) {
      StrongIsNewOrOld(c, s, s', i, r, p, v);
      if StrongAt(c, s, p, v) {
        assert Open(c, s, q, v);
      } else {
        NewStrongIsUnopposed(c, s, s', i, r, v, q);
      }
    }
  }

  /** One more outcome keeps the invariant. */
  lemma NewOutcome(c: Config, s: System, s': System, i: int, r: int)
    requires c.Valid() && Inv(c, s) && Shape(c, s') && OneMoreOutcome(c, s, s', i, r)
    ensures Inv(c, s')
  {
    if Binding(c, s.rules) {
      NewOneValue(c, s, s', i, r);
      NewIsUnopposed(c, s, s', i, r);
    }
    if Faithful(c, s.rules) {
      SteadyKept(c, s, s');
    }
  }
}
