/** Runs of the agreement loop put together from rounds of the vote. */
module ABAScript {
  import opened Quorums
  import opened Vote
  import opened VoteBoard
  import opened VoteNode
  import opened VoteSchedule
  import R = VoteRuns
  import P = VoteScript
  import opened ABA
  import opened ABARuns
  import opened ABALoop

  // ---------------------------------------------------------------------- runs

  lemma {:induction false} LeadsOn(c: Config, s: System, es: seq<Event>, s1: System, more: seq<Event>, s2: System)
    requires Leads(c, s, es, s1) && Leads(c, s1, more, s2)
    ensures Leads(c, s, es + more, s2)
    decreases |es|
  {
    if es == [] {
      assert es + more == more;
    } else {
      LeadsOn(c, Apply(c, s, es[0]), es[1..], s1, more, s2);
      assert (es + more)[1..] == es[1..] + more;
    }
  }

  /** Some events lead from `s` to `s'`. */
  ghost predicate Reaches(c: Config, s: System, s': System) {
    exists es :: Leads(c, s, es, s')
  }

  lemma Stays(c: Config, s: System)
    ensures Reaches(c, s, s)
  {
    assert Leads(c, s, [], s);
  }

  lemma StepsOn(c: Config, s: System, e: Event, s1: System, s2: System)
    requires Legal(c, s, e) && s1 == Apply(c, s, e) && Reaches(c, s1, s2)
    ensures Reaches(c, s, s2)
  {
    var es :| Leads(c, s1, es, s2);
    assert ([e] + es)[1..] == es;
    assert Leads(c, s, [e] + es, s2);
  }

  lemma GoesOn(c: Config, s: System, s1: System, s2: System)
    requires Reaches(c, s, s1) && Reaches(c, s1, s2)
    ensures Reaches(c, s, s2)
  {
    var es :| Leads(c, s, es, s1);
    var more :| Leads(c, s1, more, s2);
    LeadsOn(c, s, es, s1, more, s2);
  }

  lemma OneMore(c: Config, s: System, s1: System, e: Event, s2: System)
    requires Reaches(c, s, s1) && Legal(c, s1, e) && s2 == Apply(c, s1, e)
    ensures Reaches(c, s, s2)
  {
    Stays(c, s2);
    StepsOn(c, s1, e, s2, s2);
    GoesOn(c, s, s1, s2);
  }

  // ------------------------------------------------------- a round inside the loop

  /** What surrounds a round: the nodes but for its vote, the other boards, and the COMPLETEs so far. */
  datatype Frame = Frame(rules: Rules, base: map<int, Aba>, boards: map<int, Board>, completes: map<int, int>)

  function InRound(nd: Aba, r: int, vr: Round): Aba {
    nd.(votes := nd.votes[r := vr], voteResult := vr.outcome)
  }

  ghost function Placed(base: map<int, Aba>, r: int, voters: map<int, R.Node>): map<int, Aba> {
    map i | i in base && i in voters :: InRound(base[i], r, voters[i].round)
  }

  /** The loop while round `r` is in state `v`. */
  ghost function Shown(f: Frame, r: int, v: R.System): System {
    System(f.rules, Placed(f.base, r, v.nodes), f.boards[r := v.board], f.completes)
  }

  /** Everybody is in round `r` and has no coin yet. */
  ghost predicate Inside(c: Config, f: Frame, r: int) {
    f.base.Keys == c.Honest() && forall i :: i in f.base ==> f.base[i].round == r && f.base[i].coin == None
  }

  ghost predicate AllStarted(c: Config, v: R.System) {
    v.nodes.Keys == c.Honest() && forall i :: i in v.nodes ==> v.nodes[i].started
  }

  lemma TakesVote(n: nat, t: nat, nd: Aba, r: int, vr: Round, j: int, p: Payload)
    requires nd.round == r && nd.coin == None
    ensures var d := OnDelivered(n, t, vr, j, p);
            LocalStep(n, t, InRound(nd, r, vr), VoteDelivered(r, j, p))
            == (InRound(nd, r, d.round), Effects(Some(d), None, None))
  {
    var d := OnDelivered(n, t, vr, j, p);
    Twice(nd.votes, r, vr, d.round);
    assert VoteAt(InRound(nd, r, vr).votes, r) == vr;
  }

  lemma PlacedMore(base: map<int, Aba>, r: int, voters: map<int, R.Node>, i: int, x: R.Node)
    requires i in base && i in voters
    ensures Placed(base, r, voters[i := x]) == Placed(base, r, voters)[i := InRound(base[i], r, x.round)]
  {
  }

  lemma ShowDeliver(c: Config, f: Frame, r: int, v: R.System, i: int, j: int, p: Payload)
    requires Inside(c, f, r) && AllStarted(c, v) && R.Legal(c, v, R.Deliver(i, j, p))
    ensures Legal(c, Shown(f, r, v), Local(i, VoteDelivered(r, j, p)))
    ensures Apply(c, Shown(f, r, v), Local(i, VoteDelivered(r, j, p))) == Shown(f, r, R.Apply(c, v, R.Deliver(i, j, p)))
  {
    var s, vr := Shown(f, r, v), v.nodes[i].round;
    var d := OnDelivered(c.n, c.t, vr, j, p);
    TakesVote(c.n, c.t, f.base[i], r, vr, j, p);
    assert BoardAt(s.boards, r) == v.board;
    Twice(f.boards, r, v.board, Publish(v.board, i, d));
    PlacedMore(f.base, r, v.nodes, i, R.Mark(v.nodes[i], j, p).(round := d.round));
  }

  /** The move of a faulty node that puts `p` on the board of round `r`. */
  function Byz(r: int, j: int, p: Payload): Event {
    match p
    case Input(bit) => ByzInput(j, r, bit)
    case Vote1(v) => ByzVote1(j, r, v)
    case Revote(v) => ByzRevote(j, r, v)
  }

  lemma ShowForge(c: Config, f: Frame, r: int, v: R.System, j: int, p: Payload)
    requires R.Legal(c, v, R.Forge(j, p)) && P.Fair(c, f.rules, v, R.Forge(j, p))
    ensures Legal(c, Shown(f, r, v), Byz(r, j, p))
    ensures Apply(c, Shown(f, r, v), Byz(r, j, p)) == Shown(f, r, R.Apply(c, v, R.Forge(j, p)))
  {
    var s := Shown(f, r, v);
    assert BoardAt(s.boards, r) == v.board;
    Twice(f.boards, r, v.board, R.Put(v.board, j, p));
  }

  lemma StaysStarted(c: Config, v: R.System, e: R.Event)
    requires AllStarted(c, v) && R.Legal(c, v, e)
    ensures !e.Start? && AllStarted(c, R.Apply(c, v, e))
  {
  }

  lemma ShowStep(c: Config, f: Frame, r: int, v: R.System, e: R.Event, s': System)
    requires Inside(c, f, r) && AllStarted(c, v) && R.Legal(c, v, e) && P.Fair(c, f.rules, v, e) && !e.Start?
    requires Reaches(c, Shown(f, r, R.Apply(c, v, e)), s')
    ensures Reaches(c, Shown(f, r, v), s')
  {
    match e
    case Deliver(i, j, p) =>
      ShowDeliver(c, f, r, v, i, j, p);
      StepsOn(c, Shown(f, r, v), Local(i, VoteDelivered(r, j, p)), Shown(f, r, R.Apply(c, v, e)), s');
    case Forge(j, p) =>
      ShowForge(c, f, r, v, j, p);
      StepsOn(c, Shown(f, r, v), Byz(r, j, p), Shown(f, r, R.Apply(c, v, e)), s');
  }

  /** What happens in a round of the vote can happen in the loop. */
  lemma {:induction false} ShowRun(c: Config, f: Frame, r: int, v: R.System, es: seq<R.Event>, v': R.System)
    requires Inside(c, f, r) && AllStarted(c, v) && P.Plays(c, f.rules, v, es, v')
    ensures Reaches(c, Shown(f, r, v), Shown(f, r, v'))
    decreases |es|
  {
    if es == [] {
      Stays(c, Shown(f, r, v));
    } else {
      StaysStarted(c, v, es[0]);
      ShowRun(c, f, r, R.Apply(c, v, es[0]), es[1..], v');
      ShowStep(c, f, r, v, es[0], Shown(f, r, v'));
    }
  }

  lemma ShowRound(c: Config, f: Frame, r: int, sc: P.Script)
    requires Inside(c, f, r) && P.Fits(c, sc) && Obeys(c, P.BoardOf(sc), f.rules)
    ensures Reaches(c, Shown(f, r, P.Opened(c, sc.inputs)), Shown(f, r, P.End(c, sc)))
  {
    P.RoundPlayed(c, f.rules, sc);
    var es :| P.Plays(c, f.rules, P.Opened(c, sc.inputs), es, P.End(c, sc));
    ShowRun(c, f, r, P.Opened(c, sc.inputs), es, P.End(c, sc));
  }

  // -------------------------------------------------------------- entering a round

  /** Node `i` in state `x` reacts to `e` by going to `y` and casting an INPUT for round `r`, maybe a COMPLETE. */
  ghost predicate Enters(c: Config, i: int, x: Aba, e: LocalEvent, y: Aba, r: int, bit: int, comp: Option<int>) {
    forall s: System :: i in s.nodes && s.nodes[i] == x ==>
      && Legal(c, s, Local(i, e))
      && Apply(c, s, Local(i, e)) ==
         System(s.rules, s.nodes[i := y], CastInput(s.boards, i, r, bit), CastComplete(s.completes, i, comp))
  }

  /** How each node enters: by which event, in which state, with which bit and which COMPLETE. */
  datatype Entrance = Entrance(e: LocalEvent, y: Aba, bit: int, comp: Option<int>)

  ghost function Cast(completes: map<int, int>, how: map<int, Entrance>, done: set<int>): map<int, int> {
    map i | i in completes.Keys + done && (i in completes || (i in how && how[i].comp.Some?)) ::
      if i in done && i in how && how[i].comp.Some? then how[i].comp.value
      else if i in completes then completes[i] else 0
  }

  ghost function Moved(xs: map<int, Aba>, how: map<int, Entrance>, done: set<int>): map<int, Aba>
    requires done <= how.Keys
  {
    map i | i in xs :: if i in done then how[i].y else xs[i]
  }

  ghost function Inputs(how: map<int, Entrance>, done: set<int>): map<int, int>
    requires done <= how.Keys
  {
    map i | i in done :: how[i].bit
  }

  ghost function Boards(boards: map<int, Board>, r: int, inputs: map<int, int>): map<int, Board> {
    if inputs == map[] then boards else boards[r := Board(inputs, map[], map[])]
  }

  /** The nodes of `done` have entered round `r`. */
  ghost function Halfway(s: System, r: int, how: map<int, Entrance>, done: set<int>): System
    requires done <= how.Keys
  {
    System(s.rules, Moved(s.nodes, how, done), Boards(s.boards, r, Inputs(how, done)), Cast(s.completes, how, done))
  }

  lemma BoardsMore(boards: map<int, Board>, r: int, inputs: map<int, int>, i: int, bit: int)
    requires i !in inputs && BoardAt(boards, r) == Board(map[], map[], map[])
    ensures CastInput(Boards(boards, r, inputs), i, r, bit) == Boards(boards, r, inputs[i := bit])
  {
    assert i in inputs[i := bit];
    if inputs != map[] {
      Twice(boards, r, Board(inputs, map[], map[]), Board(inputs[i := bit], map[], map[]));
    }
  }

  lemma InputsMore(how: map<int, Entrance>, done: set<int>, i: int)
    requires done <= how.Keys && i in how
    ensures Inputs(how, done + {i}) == Inputs(how, done)[i := how[i].bit]
  {
  }

  lemma CastMore(completes: map<int, int>, how: map<int, Entrance>, done: set<int>, i: int)
    requires done <= how.Keys && i in how && i !in done
    ensures CastComplete(Cast(completes, how, done), i, how[i].comp) == Cast(completes, how, done + {i})
  {
  }

  lemma MovedMore(xs: map<int, Aba>, how: map<int, Entrance>, done: set<int>, i: int)
    requires done <= how.Keys && i in how && i !in done && i in xs
    ensures Moved(xs, how, done)[i := how[i].y] == Moved(xs, how, done + {i})
    ensures i in Moved(xs, how, done) && Moved(xs, how, done)[i] == xs[i]
  {
  }

  lemma EntersAt(c: Config, s: System, i: int, x: Aba, h: Entrance, r: int)
    requires Enters(c, i, x, h.e, h.y, r, h.bit, h.comp) && i in s.nodes && s.nodes[i] == x
    ensures Legal(c, s, Local(i, h.e))
    ensures Apply(c, s, Local(i, h.e)) ==
            System(s.rules, s.nodes[i := h.y], CastInput(s.boards, i, r, h.bit), CastComplete(s.completes, i, h.comp))
  {
  }

  lemma OneEnters(c: Config, s: System, r: int, how: map<int, Entrance>, done: set<int>, i: int)
    requires done <= how.Keys == s.nodes.Keys && i in how && i !in done
    requires BoardAt(s.boards, r) == Board(map[], map[], map[])
    requires Enters(c, i, s.nodes[i], how[i].e, how[i].y, r, how[i].bit, how[i].comp)
    ensures Legal(c, Halfway(s, r, how, done), Local(i, how[i].e))
    ensures Apply(c, Halfway(s, r, how, done), Local(i, how[i].e)) == Halfway(s, r, how, done + {i})
  {
    var h := Halfway(s, r, how, done);
    MovedMore(s.nodes, how, done, i);
    EntersAt(c, h, i, s.nodes[i], how[i], r);
    InputsMore(how, done, i);
    BoardsMore(s.boards, r, Inputs(how, done), i, how[i].bit);
    CastMore(s.completes, how, done, i);
  }

  ghost predicate AllMay(c: Config, xs: map<int, Aba>, r: int, how: map<int, Entrance>)
    requires xs.Keys == how.Keys
  {
    forall i :: i in how ==> Enters(c, i, xs[i], how[i].e, how[i].y, r, how[i].bit, how[i].comp)
  }

  lemma {:induction false} AllEnter(c: Config, s: System, r: int, how: map<int, Entrance>, done: set<int>)
    requires done <= how.Keys == s.nodes.Keys && BoardAt(s.boards, r) == Board(map[], map[], map[])
    requires AllMay(c, s.nodes, r, how)
    ensures Reaches(c, Halfway(s, r, how, done), Halfway(s, r, how, how.Keys))
    decreases |how.Keys - done|
  {
    if done == how.Keys {
      Stays(c, Halfway(s, r, how, done));
    } else {
      var i := Outside(how.Keys, done);
      P.SmallerGap(how.Keys, done, done + {i});
      AllEnter(c, s, r, how, done + {i});
      assert Enters(c, i, s.nodes[i], how[i].e, how[i].y, r, how[i].bit, how[i].comp);
      OneEnters(c, s, r, how, done, i);
      StepsOn(c, Halfway(s, r, how, done), Local(i, how[i].e), Halfway(s, r, how, done + {i}),
              Halfway(s, r, how, how.Keys));
    }
  }

  lemma NobodyYet(s: System, r: int, how: map<int, Entrance>)
    requires s.nodes.Keys == how.Keys
    ensures Halfway(s, r, how, {}) == s
  {
    assert Cast(s.completes, how, {}) == s.completes;
    assert Moved(s.nodes, how, {}) == s.nodes;
    assert Inputs(how, {}) == map[];
  }

  lemma EveryoneEnters(c: Config, s: System, r: int, how: map<int, Entrance>, end: System)
    requires how.Keys == s.nodes.Keys && r !in s.boards && AllMay(c, s.nodes, r, how)
    requires end.rules == s.rules && end.nodes == Moved(s.nodes, how, how.Keys)
    requires end.boards == Boards(s.boards, r, Inputs(how, how.Keys))
    requires end.completes == Cast(s.completes, how, how.Keys)
    ensures Reaches(c, s, end)
  {
    NobodyYet(s, r, how);
    AllEnter(c, s, r, how, {});
    assert end == Halfway(s, r, how, how.Keys);
  }

  /** The loop at the beginning of round `r`. */
  ghost function AtStart(c: Config, f: Frame, r: int, inputs: map<int, int>): System {
    Shown(f, r, P.Opened(c, inputs))
  }

  /** A round begins when all have entered it, with the bits they entered with. */
  lemma Gathered(c: Config, s: System, r: int, how: map<int, Entrance>, f: Frame, inputs: map<int, int>)
    requires how.Keys == s.nodes.Keys == f.base.Keys == c.Honest() != {} && r !in s.boards
    requires AllMay(c, s.nodes, r, how) && c.Honest() <= inputs.Keys
    requires f.rules == s.rules && f.boards == s.boards && f.completes == Cast(s.completes, how, how.Keys)
    requires AllFit(f.base, r, how, inputs)
    ensures Reaches(c, s, AtStart(c, f, r, inputs))
  {
    var v := P.Opened(c, inputs);
    GatheredNodes(c, s.nodes, r, how, f.base, inputs);
    GatheredInputs(c, r, how, f.base, inputs);
    EveryoneEnters(c, s, r, how, System(f.rules, Placed(f.base, r, v.nodes), f.boards[r := v.board], f.completes));
  }

  ghost predicate AllFit(base: map<int, Aba>, r: int, how: map<int, Entrance>, inputs: map<int, int>) {
    how.Keys == base.Keys <= inputs.Keys && forall i :: i in how ==>
      inputs[i] == how[i].bit && InRound(base[i], r, FreshRound()) == base[i] == how[i].y
  }

  lemma GatheredNodes(c: Config, xs: map<int, Aba>, r: int, how: map<int, Entrance>, base: map<int, Aba>,
                      inputs: map<int, int>)
    requires xs.Keys == c.Honest() == how.Keys && AllFit(base, r, how, inputs)
    ensures Moved(xs, how, how.Keys) == Placed(base, r, P.Opened(c, inputs).nodes)
  {
    var m, m' := Moved(xs, how, how.Keys), Placed(base, r, P.Opened(c, inputs).nodes);
    assert m.Keys == m'.Keys;
    forall i | i in m ensures m[i] == m'[i] {
      assert inputs[i] == how[i].bit;
    }
  }

  lemma GatheredInputs(c: Config, r: int, how: map<int, Entrance>, base: map<int, Aba>, inputs: map<int, int>)
    requires c.Honest() == how.Keys && how.Keys != {} && AllFit(base, r, how, inputs)
    ensures P.Opened(c, inputs).board == Board(Inputs(how, how.Keys), map[], map[]) && Inputs(how, how.Keys) != map[]
  {
    var m, m' := Inputs(how, how.Keys), Only(inputs, c.Honest() + {});
    assert m.Keys == m'.Keys;
    forall i | i in m ensures m[i] == m'[i] {
      assert inputs[i] == how[i].bit;
    }
    var i := Pick(how.Keys);
    assert i in m;
  }

  // --------------------------------------------------------------- starts and coins

  /** Round 1 has begun. */
  function Begun(estimate: int): Aba {
    FreshAba(estimate).(round := 1, votes := map[1 := FreshRound()])
  }

  lemma StartEnters(c: Config, i: int, estimate: int)
    requires c.n > c.t && i in c.Honest()
    ensures Enters(c, i, FreshAba(estimate), LocalEvent.Start, Begun(estimate), 1, estimate, None)
  {
    forall s: System | i in s.nodes && s.nodes[i] == FreshAba(estimate)
      ensures Legal(c, s, Local(i, LocalEvent.Start))
      ensures Apply(c, s, Local(i, LocalEvent.Start)) ==
              System(s.rules, s.nodes[i := Begun(estimate)], CastInput(s.boards, i, 1, estimate), s.completes)
    {
      StartIs(c, s, i);
    }
  }

  /** A node that leaves its round with outcome `o` and the coin `coin`. */
  function Left(nd: Aba, o: Outcome, coin: int): Aba {
    nd.(round := nd.round + 1, voteResult := None, coin := None, votes := nd.votes[nd.round + 1 := FreshRound()],
        estimate := NextEstimate(nd, o, coin), sentComplete := nd.sentComplete || SendsComplete(nd, o))
  }

  function Announces(nd: Aba, o: Outcome): Option<int> {
    if SendsComplete(nd, o) then Some(o.value) else None
  }

  lemma EnteredIs(s: System, i: int, nd: Aba, o: Outcome, coin: int)
    requires i in s.nodes && s.nodes[i] == nd.(coin := Some(coin))
    ensures var e := NextEstimate(nd, o, coin);
            Entered(Announced(s, i, o), i, e, e) ==
            System(s.rules, s.nodes[i := Left(nd, o, coin)], CastInput(s.boards, i, nd.round + 1, e),
                   CastComplete(s.completes, i, Announces(nd, o)))
  {
    AnnouncedIs(s, i, o);
    Twice(s.nodes, i, Announced(s, i, o).nodes[i], Left(nd, o, coin));
  }

  lemma CoinIs(c: Config, s: System, i: int, o: Outcome, coin: int)
    requires c.n > c.t && i in c.Honest() && i in s.nodes && s.nodes[i].voteResult == Some(o) && s.nodes[i].round >= 1
    requires VoteAt(s.nodes[i].votes, s.nodes[i].round + 1) == FreshRound()
    ensures var nd, e := s.nodes[i], Local(i, CoinResult(s.nodes[i].round, coin));
            && Legal(c, s, e)
            && Apply(c, s, e) ==
               System(s.rules, s.nodes[i := Left(nd, o, coin)],
                      CastInput(s.boards, i, nd.round + 1, NextEstimate(nd, o, coin)),
                      CastComplete(s.completes, i, Announces(nd, o)))
  {
    var nd := s.nodes[i];
    var s1 := AfterNode(s, i, nd.(coin := Some(coin)), s.completes);
    CoinAdvances(c, s, i, coin);
    AdvancedIs(c, s1, i, o, coin);
    EnteredIs(s1, i, nd, o, coin);
    Twice(s.nodes, i, nd.(coin := Some(coin)), Left(nd, o, coin));
  }

  lemma CoinEnters(c: Config, i: int, x: Aba, o: Outcome, coin: int)
    requires c.n > c.t && i in c.Honest() && x.voteResult == Some(o) && x.round >= 1
    requires VoteAt(x.votes, x.round + 1) == FreshRound()
    ensures Enters(c, i, x, CoinResult(x.round, coin), Left(x, o, coin), x.round + 1, NextEstimate(x, o, coin),
                   Announces(x, o))
  {
    forall s: System | i in s.nodes && s.nodes[i] == x
      ensures Legal(c, s, Local(i, CoinResult(x.round, coin)))
      ensures Apply(c, s, Local(i, CoinResult(x.round, coin))) ==
              System(s.rules, s.nodes[i := Left(x, o, coin)],
                     CastInput(s.boards, i, x.round + 1, NextEstimate(x, o, coin)),
                     CastComplete(s.completes, i, Announces(x, o)))
    {
      CoinIs(c, s, i, o, coin);
    }
  }

  // ------------------------------------------------------------------ whole rounds

  /** A node with the outcome of round `r`, whose next round is blank. */
  ghost predicate Done(x: Aba, r: int) {
    x.round == r >= 1 && x.voteResult.Some? && VoteAt(x.votes, r + 1) == FreshRound()
  }

  ghost predicate AllDone(xs: map<int, Aba>, r: int) {
    forall i :: i in xs ==> Done(xs[i], r)
  }

  ghost function Leave(x: Aba, r: int, coin: int): Entrance
    requires Done(x, r)
  {
    var o := x.voteResult.value;
    Entrance(CoinResult(r, coin), Left(x, o, coin), NextEstimate(x, o, coin), Announces(x, o))
  }

  ghost function Leaving(xs: map<int, Aba>, r: int, coin: int): map<int, Entrance>
    requires AllDone(xs, r)
  {
    map i | i in xs :: Leave(xs[i], r, coin)
  }

  /** What surrounds the next round, when all got the same coin. */
  ghost function Following(s: System, r: int, coin: int): Frame
    requires AllDone(s.nodes, r)
  {
    Frame(s.rules, map i | i in s.nodes :: Leave(s.nodes[i], r, coin).y, s.boards,
          Cast(s.completes, Leaving(s.nodes, r, coin), s.nodes.Keys))
  }

  /** The inputs of the next round are what the nodes left with. */
  ghost predicate Carried(xs: map<int, Aba>, r: int, coin: int, inputs: map<int, int>)
    requires AllDone(xs, r)
  {
    xs.Keys <= inputs.Keys && forall i :: i in xs ==> inputs[i] == Leave(xs[i], r, coin).bit
  }

  lemma LeaverStays(x: Aba, r: int, coin: int)
    requires Done(x, r)
    ensures var y := Leave(x, r, coin).y; InRound(y, r + 1, FreshRound()) == y
  {
    var y := Leave(x, r, coin).y;
    assert y.votes[r + 1 := FreshRound()] == y.votes;
  }

  lemma LeaversFit(s: System, r: int, coin: int, inputs: map<int, int>)
    requires AllDone(s.nodes, r) && Carried(s.nodes, r, coin, inputs)
    ensures AllFit(Following(s, r, coin).base, r + 1, Leaving(s.nodes, r, coin), inputs)
  {
    var how := Leaving(s.nodes, r, coin);
    forall i | i in how ensures InRound(how[i].y, r + 1, FreshRound()) == how[i].y {
      LeaverStays(s.nodes[i], r, coin);
    }
  }

  lemma LeaverEnters(c: Config, x: Aba, r: int, coin: int, i: int)
    requires c.n > c.t && i in c.Honest() && Done(x, r)
    ensures var h := Leave(x, r, coin); Enters(c, i, x, h.e, h.y, r + 1, h.bit, h.comp)
  {
    CoinEnters(c, i, x, x.voteResult.value, coin);
  }

  lemma LeaversMay(c: Config, xs: map<int, Aba>, r: int, coin: int)
    requires c.n > c.t && xs.Keys == c.Honest() && AllDone(xs, r)
    ensures AllMay(c, xs, r + 1, Leaving(xs, r, coin))
  {
    var how := Leaving(xs, r, coin);
    forall i | i in how ensures Enters(c, i, xs[i], how[i].e, how[i].y, r + 1, how[i].bit, how[i].comp) {
      LeaverEnters(c, xs[i], r, coin, i);
    }
  }

  /** Everybody leaves the round. */
  lemma LeaveAll(c: Config, s: System, r: int, coin: int, inputs: map<int, int>)
    requires c.n > c.t && s.nodes.Keys == c.Honest() && c.Honest() != {} && r + 1 !in s.boards
    requires AllDone(s.nodes, r) && Carried(s.nodes, r, coin, inputs)
    ensures Reaches(c, s, AtStart(c, Following(s, r, coin), r + 1, inputs))
  {
    LeaversMay(c, s.nodes, r, coin);
    LeaversFit(s, r, coin, inputs);
    Gathered(c, s, r + 1, Leaving(s.nodes, r, coin), Following(s, r, coin), inputs);
  }

  /** The loop when the script of round `r` is over. */
  ghost function Over(c: Config, f: Frame, r: int, sc: P.Script): System {
    Shown(f, r, P.End(c, sc))
  }

  /** The next round is still blank. */
  ghost predicate Ahead(f: Frame, r: int) {
    r + 1 !in f.boards && forall i :: i in f.base ==> VoteAt(f.base[i].votes, r + 1) == FreshRound()
  }

  /** The outcome a script gives node `i`. */
  ghost function Result(sc: P.Script, i: int): Outcome
    requires i in sc.b && i in sc.q
  {
    Decide(sc.v1, sc.rv, sc.b[i], sc.q[i])
  }

  lemma EndNodes(c: Config, sc: P.Script)
    requires P.Fits(c, sc)
    ensures P.End(c, sc).nodes.Keys == c.Honest()
  {
  }

  lemma OverNode(c: Config, f: Frame, r: int, sc: P.Script, i: int)
    requires P.Fits(c, sc) && Inside(c, f, r) && Ahead(f, r) && r >= 1 && i in c.Honest()
    ensures i in Over(c, f, r, sc).nodes
    ensures var x := Over(c, f, r, sc).nodes[i];
            && Done(x, r) && x.voteResult == Some(Result(sc, i))
            && x == f.base[i].(votes := x.votes, voteResult := x.voteResult)
            && (forall q :: q > r ==> VoteAt(x.votes, q) == VoteAt(f.base[i].votes, q))
  {
    EndNodes(c, sc);
    P.EndFinished(c, sc, i);
    DoneInRound(f.base[i], r, P.End(c, sc).nodes[i].round);
  }

  lemma DoneInRound(nd: Aba, r: int, vr: Round)
    requires nd.round == r >= 1 && vr.outcome.Some? && VoteAt(nd.votes, r + 1) == FreshRound()
    ensures var x := InRound(nd, r, vr);
            && Done(x, r) && x.voteResult == vr.outcome
            && x == nd.(votes := x.votes, voteResult := x.voteResult)
            && (forall q :: q > r ==> VoteAt(x.votes, q) == VoteAt(nd.votes, q))
  {
  }

  lemma OverDone(c: Config, f: Frame, r: int, sc: P.Script)
    requires P.Fits(c, sc) && Inside(c, f, r) && Ahead(f, r) && r >= 1
    ensures Over(c, f, r, sc).nodes.Keys == c.Honest()
    ensures AllDone(Over(c, f, r, sc).nodes, r)
  {
    EndNodes(c, sc);
    var s := Over(c, f, r, sc);
    assert s.nodes.Keys == c.Honest();
    forall i | i in s.nodes ensures Done(s.nodes[i], r) {
      OverNode(c, f, r, sc, i);
    }
  }

  /** From one round to the next. */
  lemma OneRound(c: Config, f: Frame, r: int, sc: P.Script, coin: int, s: System, inputs: map<int, int>)
    requires P.Fits(c, sc) && Obeys(c, P.BoardOf(sc), f.rules) && Inside(c, f, r) && Ahead(f, r) && r >= 1
    requires c.Honest() != {} && s == Over(c, f, r, sc) && AllDone(s.nodes, r)
    requires Carried(s.nodes, r, coin, inputs)
    ensures Reaches(c, AtStart(c, f, r, sc.inputs), AtStart(c, Following(s, r, coin), r + 1, inputs))
  {
    ShowRound(c, f, r, sc);
    OverDone(c, f, r, sc);
    LeaveAll(c, s, r, coin, inputs);
    GoesOn(c, AtStart(c, f, r, sc.inputs), s, AtStart(c, Following(s, r, coin), r + 1, inputs));
  }
}
