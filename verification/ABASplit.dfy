/**
 Runs of the agreement loop that go wrong: a first round that leaves some nodes with (0, 2) and drives all others to 1,
 and a second in which everybody finishes with (1, 2).
 */
module ABASplit {
  import opened Quorums
  import opened Vote
  import opened VoteBoard
  import opened VoteNode
  import opened VoteSchedule
  import P = VoteScript
  import opened ABA
  import opened ABARuns
  import opened ABALoop
  import opened ABATheorems
  import opened ABAScript

  // ------------------------------------------------------------------- the start

  /** What surrounds round 1. */
  ghost function First(c: Config, rules: Rules, inputs: map<int, int>): Frame
    requires c.Honest() <= inputs.Keys
  {
    Frame(rules, map i | i in c.Honest() :: Begun(inputs[i]), map[], map[])
  }

  ghost function Starting(c: Config, inputs: map<int, int>): map<int, Entrance>
    requires c.Honest() <= inputs.Keys
  {
    map i | i in c.Honest() :: Entrance(LocalEvent.Start, Begun(inputs[i]), inputs[i], None)
  }

  lemma StartersMay(c: Config, rules: Rules, inputs: map<int, int>)
    requires c.n > c.t && c.Honest() <= inputs.Keys
    ensures Init(c, rules, inputs).nodes.Keys == Starting(c, inputs).Keys
    ensures AllMay(c, Init(c, rules, inputs).nodes, 1, Starting(c, inputs))
  {
    var xs, how := Init(c, rules, inputs).nodes, Starting(c, inputs);
    assert xs.Keys == how.Keys;
    forall i | i in how ensures Enters(c, i, xs[i], how[i].e, how[i].y, 1, how[i].bit, how[i].comp) {
      StartEnters(c, i, inputs[i]);
    }
  }

  lemma StartersFit(c: Config, rules: Rules, inputs: map<int, int>)
    requires c.Honest() <= inputs.Keys
    ensures AllFit(First(c, rules, inputs).base, 1, Starting(c, inputs), inputs)
  {
    forall i | i in c.Honest() ensures InRound(Begun(inputs[i]), 1, FreshRound()) == Begun(inputs[i]) {
      assert Begun(inputs[i]).votes[1 := FreshRound()] == Begun(inputs[i]).votes;
    }
  }

  lemma Starts(c: Config, rules: Rules, inputs: map<int, int>)
    requires c.n > c.t && c.Honest() <= inputs.Keys && c.Honest() != {}
    ensures Reaches(c, Init(c, rules, inputs), AtStart(c, First(c, rules, inputs), 1, inputs))
  {
    StartersMay(c, rules, inputs);
    StartersFit(c, rules, inputs);
    NobodySpeaks(c, inputs);
    Gathered(c, Init(c, rules, inputs), 1, Starting(c, inputs), First(c, rules, inputs), inputs);
  }

  lemma NobodySpeaks(c: Config, inputs: map<int, int>)
    requires c.Honest() <= inputs.Keys
    ensures Cast(map[], Starting(c, inputs), Starting(c, inputs).Keys) == map[]
  {
  }

  // ----------------------------------------------------------- between two rounds

  /** A node that has not decided and has heard no COMPLETE. */
  ghost predicate Quiet(x: Aba, spoke: bool) {
    !x.decided && x.counts == map[] && x.results == [] && x.sentComplete == spoke
  }

  /** Nobody has decided anything; the COMPLETEs cast are `said`. */
  ghost predicate Plain(c: Config, f: Frame, r: int, said: map<int, int>) {
    && Inside(c, f, r) && f.completes == said && (forall q :: q in f.boards ==> q < r)
    && forall i :: i in f.base ==> Quiet(f.base[i], i in said) && Blank(f.base[i], r)
  }

  ghost predicate Blank(x: Aba, r: int) {
    forall q :: q > r ==> VoteAt(x.votes, q) == FreshRound()
  }

  lemma FirstPlain(c: Config, rules: Rules, inputs: map<int, int>)
    requires c.Honest() <= inputs.Keys
    ensures Plain(c, First(c, rules, inputs), 1, map[])
  {
  }

  lemma PlainAhead(c: Config, f: Frame, r: int, said: map<int, int>)
    requires Plain(c, f, r, said)
    ensures Ahead(f, r)
  {
    forall i | i in f.base ensures VoteAt(f.base[i].votes, r + 1) == FreshRound() {
      assert Blank(f.base[i], r);
    }
  }

  /** What a node of `outs` says when it leaves the round. */
  ghost function Saying(said: map<int, int>, outs: map<int, Outcome>): map<int, int> {
    map i | i in said.Keys + outs.Keys && (i in said || (i in outs && outs[i].conf == 2)) ::
      if i in said then said[i] else if i in outs then outs[i].value else 0
  }

  /** One node from one round to the next. */
  lemma Onward(x: Aba, y: Aba, r: int, o: Outcome, coin: int, spoke: bool)
    requires Done(x, r) && Quiet(x, spoke) && Blank(x, r) && x.voteResult == Some(o) && y == Leave(x, r, coin).y
    ensures y.round == r + 1 && y.coin == None && Quiet(y, spoke || o.conf == 2) && Blank(y, r + 1)
    ensures y.estimate == if o.conf == 2 || o.conf == 1 then o.value else coin
    ensures Leave(x, r, coin).bit == y.estimate
    ensures Leave(x, r, coin).comp == Says(spoke, o)
  {
    forall q | q > r + 1 ensures VoteAt(y.votes, q) == FreshRound() {
      assert VoteAt(y.votes, q) == VoteAt(x.votes, q);
    }
  }

  /** Round `r` is over for everybody, with these outcomes. */
  ghost predicate Ended(c: Config, s: System, r: int, outs: map<int, Outcome>, said: map<int, int>) {
    && s.nodes.Keys == c.Honest() == outs.Keys && s.completes == said && said.Keys <= c.Honest()
    && (forall q :: q in s.boards ==> q <= r) && AllDone(s.nodes, r)
    && AllEnded(s.nodes, r, outs, said)
  }

  ghost predicate AllEnded(xs: map<int, Aba>, r: int, outs: map<int, Outcome>, said: map<int, int>)
    requires xs.Keys == outs.Keys
  {
    forall i :: i in xs ==> EndedAt(xs[i], r, outs[i], i in said)
  }

  ghost predicate EndedAt(x: Aba, r: int, o: Outcome, spoke: bool) {
    x.voteResult == Some(o) && Quiet(x, spoke) && Blank(x, r)
  }

  lemma SayingIs(c: Config, s: System, r: int, coin: int, outs: map<int, Outcome>, said: map<int, int>)
    requires Ended(c, s, r, outs, said)
    ensures Cast(said, Leaving(s.nodes, r, coin), s.nodes.Keys) == Saying(said, outs)
  {
    var how := Leaving(s.nodes, r, coin);
    forall i | i in s.nodes ensures how[i].comp == Says(i in said, outs[i]) {
      assert EndedAt(s.nodes[i], r, outs[i], i in said);
      Onward(s.nodes[i], how[i].y, r, outs[i], coin, i in said);
    }
    CastSaying(said, how, outs);
  }

  /** The COMPLETE of a node that leaves with `o`. */
  ghost function Says(spoke: bool, o: Outcome): Option<int> {
    if !spoke && o.conf == 2 then Some(o.value) else None
  }

  lemma CastSaying(said: map<int, int>, how: map<int, Entrance>, outs: map<int, Outcome>)
    requires how.Keys == outs.Keys && said.Keys <= how.Keys
    requires forall i :: i in how ==> how[i].comp == Says(i in said, outs[i])
    ensures Cast(said, how, how.Keys) == Saying(said, outs)
  {
    var m, m' := Cast(said, how, how.Keys), Saying(said, outs);
    forall i ensures i in m <==> i in m' {
    }
    assert m.Keys == m'.Keys;
    forall i | i in m ensures m[i] == m'[i] {
    }
  }

  lemma EndedPlain(c: Config, s: System, r: int, coin: int, outs: map<int, Outcome>, said: map<int, int>)
    requires Ended(c, s, r, outs, said)
    ensures Plain(c, Following(s, r, coin), r + 1, Saying(said, outs))
  {
    var f := Following(s, r, coin);
    SayingIs(c, s, r, coin, outs, said);
    assert f.base.Keys == c.Honest();
    forall i | i in c.Honest()
      ensures f.base[i].round == r + 1 && f.base[i].coin == None
      ensures Quiet(f.base[i], i in Saying(said, outs)) && Blank(f.base[i], r + 1)
    {
      assert EndedAt(s.nodes[i], r, outs[i], i in said);
      Onward(s.nodes[i], f.base[i], r, outs[i], coin, i in said);
    }
  }

  /** Inputs that carry on what the outcomes and the coin say. */
  ghost predicate CarryOn(c: Config, outs: map<int, Outcome>, coin: int, inputs: map<int, int>) {
    c.Honest() <= inputs.Keys && forall i :: i in c.Honest() && i in outs ==>
      inputs[i] == if outs[i].conf == 2 || outs[i].conf == 1 then outs[i].value else coin
  }

  lemma EndedCarried(c: Config, s: System, r: int, coin: int, outs: map<int, Outcome>, said: map<int, int>,
                     inputs: map<int, int>)
    requires Ended(c, s, r, outs, said) && CarryOn(c, outs, coin, inputs)
    ensures Carried(s.nodes, r, coin, inputs)
  {
    forall i | i in s.nodes ensures inputs[i] == Leave(s.nodes[i], r, coin).bit {
      assert EndedAt(s.nodes[i], r, outs[i], i in said);
      Onward(s.nodes[i], Leave(s.nodes[i], r, coin).y, r, outs[i], coin, i in said);
    }
  }

  ghost function Outs(c: Config, sc: P.Script): map<int, Outcome>
    requires P.Fits(c, sc)
  {
    map i | i in c.Honest() :: Result(sc, i)
  }

  lemma OverQuiet(c: Config, f: Frame, r: int, sc: P.Script, said: map<int, int>, i: int)
    requires P.Fits(c, sc) && Plain(c, f, r, said) && r >= 1 && i in c.Honest() && Ahead(f, r)
    ensures i in Over(c, f, r, sc).nodes
    ensures var x := Over(c, f, r, sc).nodes[i];
            Done(x, r) && x.voteResult == Some(Outs(c, sc)[i]) && Quiet(x, i in said) && Blank(x, r)
  {
    OverNode(c, f, r, sc, i);
    var x := Over(c, f, r, sc).nodes[i];
    assert Quiet(f.base[i], i in said) && Blank(f.base[i], r);
    forall q | q > r ensures VoteAt(x.votes, q) == FreshRound() {
      assert VoteAt(x.votes, q) == VoteAt(f.base[i].votes, q);
    }
  }

  lemma OverAllEnded(c: Config, f: Frame, r: int, sc: P.Script, said: map<int, int>)
    requires P.Fits(c, sc) && Plain(c, f, r, said) && r >= 1 && Ahead(f, r)
    requires Over(c, f, r, sc).nodes.Keys == c.Honest()
    ensures AllEnded(Over(c, f, r, sc).nodes, r, Outs(c, sc), said)
  {
    var xs := Over(c, f, r, sc).nodes;
    forall i | i in xs ensures EndedAt(xs[i], r, Outs(c, sc)[i], i in said) {
      OverQuiet(c, f, r, sc, said, i);
    }
  }

  lemma OverBoards(c: Config, f: Frame, r: int, sc: P.Script)
    ensures Over(c, f, r, sc).boards.Keys == f.boards.Keys + {r}
    ensures Over(c, f, r, sc).completes == f.completes && Over(c, f, r, sc).rules == f.rules
  {
  }

  lemma OverEnded(c: Config, f: Frame, r: int, sc: P.Script, said: map<int, int>)
    requires P.Fits(c, sc) && Plain(c, f, r, said) && r >= 1 && said.Keys <= c.Honest() && Ahead(f, r)
    ensures Ended(c, Over(c, f, r, sc), r, Outs(c, sc), said)
  {
    OverDone(c, f, r, sc);
    OverAllEnded(c, f, r, sc, said);
    OverBoards(c, f, r, sc);
    forall q | q in Over(c, f, r, sc).boards ensures q <= r {
      assert q in f.boards.Keys + {r};
    }
  }

  /** A round that everybody plays by the script and leaves with the same coin. */
  lemma Turn(c: Config, f: Frame, r: int, sc: P.Script, coin: int, said: map<int, int>, inputs: map<int, int>)
    returns (f': Frame)
    requires P.Fits(c, sc) && Obeys(c, P.BoardOf(sc), f.rules) && Plain(c, f, r, said) && r >= 1
    requires said.Keys <= c.Honest() && c.Honest() != {} && CarryOn(c, Outs(c, sc), coin, inputs)
    ensures f'.rules == f.rules && Plain(c, f', r + 1, Saying(said, Outs(c, sc)))
    ensures Reaches(c, AtStart(c, f, r, sc.inputs), AtStart(c, f', r + 1, inputs))
  {
    var s := Over(c, f, r, sc);
    PlainAhead(c, f, r, said);
    OverEnded(c, f, r, sc, said);
    f' := Next(c, s, r, coin, Outs(c, sc), said, inputs);
    OneRound(c, f, r, sc, coin, s, inputs);
  }

  lemma Next(c: Config, s: System, r: int, coin: int, outs: map<int, Outcome>, said: map<int, int>,
             inputs: map<int, int>) returns (f: Frame)
    requires Ended(c, s, r, outs, said) && CarryOn(c, outs, coin, inputs)
    ensures f == Following(s, r, coin) && Plain(c, f, r + 1, Saying(said, outs)) && Carried(s.nodes, r, coin, inputs)
  {
    f := Following(s, r, coin);
    EndedPlain(c, s, r, coin, outs, said);
    EndedCarried(c, s, r, coin, outs, said, inputs);
  }

  // --------------------------------------------------------- a round for the value 1

  /** Everybody reads the quorum `q`, where everybody says 1. */
  ghost function AllOne(c: Config, inputs: map<int, int>, q: set<int>): P.Script {
    var votes := map i | i in c.ids :: Ballot(q, 1);
    var quorums := P.TwoWay(c.Honest(), {}, q, q);
    P.Script(inputs, votes, votes, quorums, quorums, quorums)
  }

  lemma OnesMajority(bits: map<int, int>, q: set<int>)
    requires q <= bits.Keys && q != {} && forall i :: i in q ==> bits[i] == 1
    ensures Majority(bits, q) == 1
  {
    assert q * {} == {};
    MajorityWins(bits, q, {}, 1);
  }

  lemma AllOneFits(c: Config, inputs: map<int, int>, q: set<int>)
    requires c.Valid() && inputs.Keys == c.ids && q <= c.ids && |q| == c.n - c.t
    requires forall i :: i in q ==> inputs[i] == 1
    ensures P.Fits(c, AllOne(c, inputs, q)) && JustifiedBy(c, P.BoardOf(AllOne(c, inputs, q)), c.ids)
    ensures NoSentinel(P.BoardOf(AllOne(c, inputs, q)))
  {
    var votes := AllOne(c, inputs, q).v1;
    assert q != {};
    OnesMajority(inputs, q);
    OnesMajority(Bits(votes), q);
    P.TwoWayQuorate(c, {}, q, q);
  }

  lemma AllOneDecides(c: Config, inputs: map<int, int>, q: set<int>, i: int)
    requires P.Fits(c, AllOne(c, inputs, q)) && i in c.Honest() && q != {} && q <= c.ids
    ensures Outs(c, AllOne(c, inputs, q))[i] == Outcome(1, 2)
  {
    var votes := AllOne(c, inputs, q).v1;
    forall j | j in q ensures BitOf(votes, j) == 1 {
    }
    var x := Pick(q);
    CommonComplete(votes, q, 1);
  }

  // --------------------------------------------------------------------- two rounds

  /** The nodes of `z` end round 1 with (0, 2); all others are free to go on with 1. */
  ghost predicate Splits(c: Config, sc: P.Script, z: set<int>)
    requires P.Fits(c, sc)
  {
    z <= c.Honest() && SplitOuts(Outs(c, sc), z)
  }

  ghost predicate SplitOuts(outs: map<int, Outcome>, z: set<int>) {
    forall i :: i in outs ==> if i in z then outs[i] == Outcome(0, 2) else outs[i].conf == 0 || outs[i] == Outcome(1, 1)
  }

  /** The inputs of round 2: 0 in `z`, 1 elsewhere. */
  ghost function Second(c: Config, z: set<int>): map<int, int> {
    map i | i in c.ids :: if i in z then 0 else 1
  }

  ghost function Unanimous(c: Config): map<int, int> {
    map i | i in c.ids :: 1
  }

  /** After round 1 those of `z` have said 0. */
  ghost function Hushed(z: set<int>): map<int, int> {
    map i | i in z :: 0
  }

  /** After round 2 those of `z` have said 0 and all others 1. */
  ghost function Words(c: Config, z: set<int>): map<int, int> {
    map i | i in c.Honest() :: if i in z then 0 else 1
  }

  lemma FirstWords(outs: map<int, Outcome>, z: set<int>)
    requires z <= outs.Keys && SplitOuts(outs, z)
    ensures Saying(map[], outs) == Hushed(z)
  {
    var m := Saying(map[], outs);
    forall i ensures i in m <==> i in z {
    }
    forall i | i in m ensures m[i] == 0 {
    }
    assert m.Keys == Hushed(z).Keys;
  }

  lemma SecondInputs(c: Config, outs: map<int, Outcome>, z: set<int>)
    requires outs.Keys == c.Honest() && SplitOuts(outs, z)
    ensures CarryOn(c, outs, 1, Second(c, z))
  {
  }

  lemma LastWords(c: Config, z: set<int>, outs: map<int, Outcome>)
    requires z <= c.Honest() == outs.Keys && forall i :: i in outs ==> outs[i] == Outcome(1, 2)
    ensures Saying(Hushed(z), outs) == Words(c, z)
    ensures CarryOn(c, outs, 1, Unanimous(c))
  {
    var m, m' := Saying(Hushed(z), outs), Words(c, z);
    forall i ensures i in m <==> i in m' {
    }
    assert m.Keys == m'.Keys;
    forall i | i in m ensures m[i] == m'[i] {
    }
  }

  /** A quorum that avoids `z`. */
  lemma QuorumWithout(c: Config, z: set<int>) returns (q: set<int>)
    requires c.Valid() && z <= c.ids && |z| <= c.t
    ensures q <= c.ids - z && |q| == c.n - c.t
  {
    DifferenceCount(c.ids, z);
    q := TakeBetween({}, c.ids - z, c.n - c.t);
  }

  lemma SplitSays(c: Config, sc: P.Script, z: set<int>)
    requires P.Fits(c, sc) && Splits(c, sc, z)
    ensures Saying(map[], Outs(c, sc)) == Hushed(z) && CarryOn(c, Outs(c, sc), 1, Second(c, z))
  {
    var outs := Outs(c, sc);
    assert outs.Keys == c.Honest();
    FirstWords(outs, z);
    SecondInputs(c, outs, z);
  }

  lemma FirstTurn(c: Config, s: System, f: Frame, sc: P.Script, z: set<int>) returns (f': Frame)
    requires P.Fits(c, sc) && Obeys(c, P.BoardOf(sc), f.rules) && Splits(c, sc, z) && Plain(c, f, 1, map[])
    requires Reaches(c, s, AtStart(c, f, 1, sc.inputs))
    ensures f'.rules == f.rules && Plain(c, f', 2, Hushed(z)) && Reaches(c, s, AtStart(c, f', 2, Second(c, z)))
  {
    HonestCount(c);
    assert c.Honest() != {};
    SplitSays(c, sc, z);
    f' := Turn(c, f, 1, sc, 1, map[], Second(c, z));
    GoesOn(c, s, AtStart(c, f, 1, sc.inputs), AtStart(c, f', 2, Second(c, z)));
  }

  lemma SecondTurn(c: Config, f: Frame, z: set<int>) returns (f': Frame)
    requires c.Valid() && z <= c.Honest() && |z| <= c.t && Plain(c, f, 2, Hushed(z))
    ensures f'.rules == f.rules && Plain(c, f', 3, Words(c, z))
    ensures Reaches(c, AtStart(c, f, 2, Second(c, z)), AtStart(c, f', 3, Unanimous(c)))
  {
    HonestCount(c);
    assert c.Honest() != {};
    var q := QuorumWithout(c, z);
    var sc := AllOne(c, Second(c, z), q);
    AllOneFits(c, Second(c, z), q);
    assert q != {};
    forall i | i in c.Honest() ensures Outs(c, sc)[i] == Outcome(1, 2) {
      AllOneDecides(c, Second(c, z), q, i);
    }
    LastWords(c, z, Outs(c, sc));
    f' := Turn(c, f, 2, sc, 1, Hushed(z), Unanimous(c));
  }

  /** Everybody has cast COMPLETE and nobody has heard any. */
  ghost predicate Ripe(c: Config, s: System, said: map<int, int>) {
    && s.nodes.Keys == c.Honest() && s.completes == said
    && forall i :: i in s.nodes ==> Quiet(s.nodes[i], true)
  }

  lemma PlainRipe(c: Config, f: Frame, r: int, said: map<int, int>, inputs: map<int, int>)
    requires Plain(c, f, r, said) && said.Keys == c.Honest()
    ensures Ripe(c, AtStart(c, f, r, inputs), said)
  {
    var s := AtStart(c, f, r, inputs);
    assert s.nodes.Keys == c.Honest();
    forall i | i in s.nodes ensures Quiet(s.nodes[i], true) {
      assert Quiet(f.base[i], i in said);
    }
  }

  lemma SecondHalf(c: Config, f: Frame, z: set<int>) returns (s: System)
    requires c.Valid() && z <= c.Honest() && |z| <= c.t && Plain(c, f, 2, Hushed(z))
    ensures s.rules == f.rules && Ripe(c, s, Words(c, z)) && Reaches(c, AtStart(c, f, 2, Second(c, z)), s)
  {
    var f' := SecondTurn(c, f, z);
    s := AtStart(c, f', 3, Unanimous(c));
    PlainRipe(c, f', 3, Words(c, z), Unanimous(c));
  }

  lemma BothTurns(c: Config, s0: System, f: Frame, sc: P.Script, z: set<int>) returns (s: System)
    requires P.Fits(c, sc) && Obeys(c, P.BoardOf(sc), f.rules) && Splits(c, sc, z) && Plain(c, f, 1, map[])
    requires Reaches(c, s0, AtStart(c, f, 1, sc.inputs)) && |z| <= c.t
    ensures s.rules == f.rules && Ripe(c, s, Words(c, z)) && Reaches(c, s0, s)
  {
    var f' := FirstTurn(c, s0, f, sc, z);
    s := SecondHalf(c, f', z);
    GoesOn(c, s0, AtStart(c, f', 2, Second(c, z)), s);
  }

  lemma TwoRounds(c: Config, rules: Rules, sc: P.Script, z: set<int>) returns (s: System)
    requires P.Fits(c, sc) && Obeys(c, P.BoardOf(sc), rules) && Splits(c, sc, z) && |z| <= c.t
    ensures s.rules == rules && Ripe(c, s, Words(c, z)) && Reaches(c, Init(c, rules, sc.inputs), s)
  {
    HonestCount(c);
    assert c.Honest() != {};
    Starts(c, rules, sc.inputs);
    FirstPlain(c, rules, sc.inputs);
    s := BothTurns(c, Init(c, rules, sc.inputs), First(c, rules, sc.inputs), sc, z);
  }

  // -------------------------------------------------------------------- the COMPLETEs

  /** The nodes of `some` say 0 as well. */
  ghost function AndZero(said: map<int, int>, some: set<int>): map<int, int> {
    map i | i in said.Keys + some :: if i in said then said[i] else 0
  }

  lemma ZeroMore(said: map<int, int>, some: set<int>, j: int)
    requires j in some && j !in said
    ensures AndZero(said, some - {j})[j := 0] == AndZero(said, some)
    ensures j !in AndZero(said, some - {j})
  {
  }

  lemma {:induction false} FaultySpeak(c: Config, s: System, some: set<int>)
    requires some <= c.byz && c.byz !! s.completes.Keys
    ensures Reaches(c, s, s.(completes := AndZero(s.completes, some)))
    decreases |some|
  {
    if some == {} {
      assert AndZero(s.completes, some) == s.completes;
      Stays(c, s);
    } else {
      var j := Pick(some);
      FaultySpeak(c, s, some - {j});
      ZeroMore(s.completes, some, j);
      OneMore(c, s, s.(completes := AndZero(s.completes, some - {j})), ByzComplete(j, 0),
              s.(completes := AndZero(s.completes, some)));
    }
  }

  /** A node that has heard `v` from the nodes of `who`. */
  ghost function Told(t: nat, x: Aba, v: int, who: set<int>): Aba {
    if who == {} then x
    else if |who| <= t then x.(counts := map[v := who])
    else x.(counts := map[v := who], decided := true, decision := v, results := [v])
  }

  lemma ToldMore(t: nat, x: Aba, v: int, who: set<int>, j: int)
    requires Quiet(x, true) && j !in who && |who| <= t
    ensures OnComplete(t, Told(t, x, v, who), j, v) == (Told(t, x, v, who + {j}), Effects(None, None, None))
  {
    var counts := Told(t, x, v, who).counts;
    assert CountOf(counts, v) == who;
    assert counts[v := who + {j}] == map[v := who + {j}];
    assert x.results + [v] == [v];
  }

  lemma HearsOne(c: Config, s: System, u: int, x: Aba, v: int, who: set<int>, j: int)
    requires u in c.Honest() && u in s.nodes && Quiet(x, true) && s.nodes[u] == Told(c.t, x, v, who)
    requires j in s.completes && s.completes[j] == v && j !in who && |who| <= c.t
    ensures Legal(c, s, Local(u, CompleteDelivered(j, v)))
    ensures Apply(c, s, Local(u, CompleteDelivered(j, v))) == s.(nodes := s.nodes[u := Told(c.t, x, v, who + {j})])
  {
    ToldMore(c.t, x, v, who, j);
  }

  lemma {:induction false} Hears(c: Config, s: System, u: int, v: int, who: set<int>)
    requires u in c.Honest() && u in s.nodes && Quiet(s.nodes[u], true) && |who| <= c.t + 1
    requires forall j :: j in who ==> j in s.completes && s.completes[j] == v
    ensures Reaches(c, s, s.(nodes := s.nodes[u := Told(c.t, s.nodes[u], v, who)]))
    decreases |who|
  {
    var x := s.nodes[u];
    if who == {} {
      assert s.nodes[u := x] == s.nodes;
      Stays(c, s);
    } else {
      var j := Pick(who);
      var less := who - {j};
      assert less + {j} == who;
      var s1 := s.(nodes := s.nodes[u := Told(c.t, x, v, less)]);
      var s2 := s.(nodes := s.nodes[u := Told(c.t, x, v, who)]);
      Hears(c, s, u, v, less);
      HearsOne(c, s1, u, x, v, less, j);
      Twice(s.nodes, u, Told(c.t, x, v, less), Told(c.t, x, v, who));
      OneMore(c, s, s1, Local(u, CompleteDelivered(j, v)), s2);
    }
  }
}
