/**
 Which rounds of the vote can happen: for any inputs, any forged ballots and any choice of quorums there is a run
 in which every node that follows the code reads exactly those quorums and finishes.
 */
module VoteScript {
  import opened Quorums
  import opened Vote
  import opened VoteBoard
  import opened VoteNode
  import opened VoteRuns
  import opened VoteSchedule
  import opened VoteTheorems

  /**
   A round written out: the INPUTs, VOTE1s and REVOTEs of all nodes, and the quorums `a`, `b` and `q` of each kind
   that each code-following node acts on.
   */
  datatype Script = Script(inputs: map<int, int>, v1: map<int, Ballot>, rv: map<int, Ballot>,
                           a: map<int, set<int>>, b: map<int, set<int>>, q: map<int, set<int>>)

  /** One quorum of exactly `n - t` nodes for each node that follows the code. */
  ghost predicate Quorate(c: Config, q: map<int, set<int>>) {
    q.Keys == c.Honest() && forall i :: i in q ==> q[i] <= c.ids && |q[i]| == c.n - c.t
  }

  /** The nodes of `h` vote the majorities of their quorums. */
  ghost predicate Follow(h: set<int>, votes: map<int, Ballot>, q: map<int, set<int>>, bits: map<int, int>) {
    forall i :: i in h ==> i in votes && i in q && votes[i] == Ballot(q[i], Majority(bits, q[i]))
  }

  /** The nodes of `some` get the quorum `x`, the others `y`. */
  ghost function TwoWay(h: set<int>, some: set<int>, x: set<int>, y: set<int>): map<int, set<int>> {
    map i | i in h :: if i in some then x else y
  }

  lemma TwoWayQuorate(c: Config, some: set<int>, x: set<int>, y: set<int>)
    requires x <= c.ids && y <= c.ids && |x| == c.n - c.t && |y| == c.n - c.t
    ensures Quorate(c, TwoWay(c.Honest(), some, x, y))
  {
  }

  /** Code-following nodes cast the majorities of their quorums; the others cast anything. */
  ghost predicate Fits(c: Config, sc: Script) {
    && c.Valid() && sc.inputs.Keys == c.ids && sc.v1.Keys == c.ids && sc.rv.Keys == c.ids
    && Within(sc.v1, c.ids) && Within(sc.rv, c.ids) && Quorate(c, sc.a) && Quorate(c, sc.b) && Quorate(c, sc.q)
    && Follow(c.Honest(), sc.v1, sc.a, sc.inputs) && Follow(c.Honest(), sc.rv, sc.b, Bits(sc.v1))
  }

  ghost function BoardOf(sc: Script): Board {
    Board(sc.inputs, sc.v1, sc.rv)
  }

  // ---------------------------------------------------------------------- runs

  /** Forged ballots keep the rules. */
  ghost predicate Fair(c: Config, r: Rules, s: System, e: Event) {
    e.Forge? ==> NewBallots(c, s.board, Put(s.board, e.origin, e.p), r)
  }

  ghost predicate Plays(c: Config, r: Rules, s: System, es: seq<Event>, s': System)
    decreases |es|
  {
    if es == [] then s == s'
    else Legal(c, s, es[0]) && Fair(c, r, s, es[0]) && Plays(c, r, Apply(c, s, es[0]), es[1..], s')
  }

  lemma {:induction false} PlaysLead(c: Config, r: Rules, s: System, es: seq<Event>, s': System)
    requires Plays(c, r, s, es, s')
    ensures Leads(c, s, es, s')
    decreases |es|
  {
    if es != [] {
      PlaysLead(c, r, Apply(c, s, es[0]), es[1..], s');
    }
  }

  lemma {:induction false} PlaysOn(c: Config, r: Rules, s: System, es: seq<Event>, s1: System, more: seq<Event>,
                                   s2: System)
    requires Plays(c, r, s, es, s1) && Plays(c, r, s1, more, s2)
    ensures Plays(c, r, s, es + more, s2)
    decreases |es|
  {
    if es == [] {
      assert es + more == more;
    } else {
      PlaysOn(c, r, Apply(c, s, es[0]), es[1..], s1, more, s2);
      assert (es + more)[1..] == es[1..] + more;
    }
  }

  /** Some events lead from `s` to `s'`, with ballots that keep the rules. */
  ghost predicate Reaches(c: Config, r: Rules, s: System, s': System) {
    exists es :: Plays(c, r, s, es, s')
  }

  lemma Stays(c: Config, r: Rules, s: System)
    ensures Reaches(c, r, s, s)
  {
    assert Plays(c, r, s, [], s);
  }

  lemma StepsOn(c: Config, r: Rules, s: System, e: Event, s1: System, s2: System)
    requires Legal(c, s, e) && Fair(c, r, s, e) && s1 == Apply(c, s, e) && Reaches(c, r, s1, s2)
    ensures Reaches(c, r, s, s2)
  {
    var es :| Plays(c, r, s1, es, s2);
    assert ([e] + es)[1..] == es;
    assert Plays(c, r, s, [e] + es, s2);
  }

  lemma GoesOn(c: Config, r: Rules, s: System, s1: System, s2: System)
    requires Reaches(c, r, s, s1) && Reaches(c, r, s1, s2)
    ensures Reaches(c, r, s, s2)
  {
    var es :| Plays(c, r, s, es, s1);
    var more :| Plays(c, r, s1, more, s2);
    PlaysOn(c, r, s, es, s1, more, s2);
  }

  // ----------------------------------------------------------------- snapshots

  /** The nodes of `st` have started, the others of `f` have cast their INPUT; nothing was delivered. */
  ghost function Snap0(c: Config, inputs: map<int, int>, st: set<int>, f: set<int>): System {
    System(Board(Only(inputs, st + f), map[], map[]),
           map i | i in c.Honest() :: Node(FreshRound(), i in st, {}, {}, {}))
  }

  ghost function Sent(q: map<int, set<int>>, rd: map<int, set<int>>): set<int> {
    set i | i in q && i in rd && q[i] <= rd[i]
  }

  /** Node `i` has read the INPUTs of `rd[i]`; the others of `f` have cast their VOTE1. */
  ghost function Snap1(inputs: map<int, int>, v1: map<int, Ballot>, a: map<int, set<int>>,
                       rd: map<int, set<int>>, f: set<int>): System {
    System(Board(inputs, Only(v1, Sent(a, rd) + f), map[]), Nodes1(inputs, a, rd))
  }

  ghost function Nodes1(inputs: map<int, int>, a: map<int, set<int>>, rd: map<int, set<int>>): map<int, Node> {
    map i | i in rd && i in a :: Node(Reads1(inputs, a[i], rd[i]), true, rd[i], {}, {})
  }

  /** All INPUTs are read, node `i` has read the VOTE1s of `rd[i]`; the others of `f` have cast their REVOTE. */
  ghost function Snap2(sc: Script, rd: map<int, set<int>>, f: set<int>): System {
    System(Board(sc.inputs, sc.v1, Only(sc.rv, Sent(sc.b, rd) + f)), Nodes2(sc, rd))
  }

  ghost function Nodes2(sc: Script, rd: map<int, set<int>>): map<int, Node> {
    map i | i in rd && i in sc.a && i in sc.b ::
      Node(Reads2(sc.inputs, sc.v1, sc.a[i], sc.b[i], rd[i]), true, sc.inputs.Keys, rd[i], {})
  }

  /** All INPUTs and VOTE1s are read, node `i` has read the REVOTEs of `rd[i]`. */
  ghost function Snap3(sc: Script, rd: map<int, set<int>>): System {
    System(Board(sc.inputs, sc.v1, sc.rv), Nodes3(sc, rd))
  }

  ghost function Nodes3(sc: Script, rd: map<int, set<int>>): map<int, Node> {
    map i | i in rd && i in sc.a && i in sc.b && i in sc.q ::
      Node(Reads3(sc.inputs, sc.v1, sc.rv, sc.a[i], sc.b[i], sc.q[i], rd[i]), true,
           sc.inputs.Keys, sc.v1.Keys, rd[i])
  }

  lemma Nodes1More(inputs: map<int, int>, a: map<int, set<int>>, rd: map<int, set<int>>, i: int, s: set<int>)
    requires i in rd && i in a
    ensures Nodes1(inputs, a, rd)[i := Node(Reads1(inputs, a[i], s), true, s, {}, {})] == Nodes1(inputs, a, rd[i := s])
  {
  }

  lemma Nodes2More(sc: Script, rd: map<int, set<int>>, i: int, s: set<int>)
    requires i in rd && i in sc.a && i in sc.b
    ensures Nodes2(sc, rd)[i := Node(Reads2(sc.inputs, sc.v1, sc.a[i], sc.b[i], s), true, sc.inputs.Keys, s, {})]
      == Nodes2(sc, rd[i := s])
  {
  }

  lemma Nodes3More(sc: Script, rd: map<int, set<int>>, i: int, s: set<int>)
    requires i in rd && i in sc.a && i in sc.b && i in sc.q
    ensures Nodes3(sc, rd)[i := Node(Reads3(sc.inputs, sc.v1, sc.rv, sc.a[i], sc.b[i], sc.q[i], s), true,
                                     sc.inputs.Keys, sc.v1.Keys, s)]
      == Nodes3(sc, rd[i := s])
  {
  }

  /** A delivery, given what the node makes of it. */
  lemma Delivery(c: Config, s: System, i: int, j: int, p: Payload, d: Progressed)
    requires i in c.Honest() && i in s.nodes && OnBoard(s.board, j, p)
    requires d == OnDelivered(c.n, c.t, s.nodes[i].round, j, p)
    ensures Legal(c, s, Deliver(i, j, p))
    ensures Apply(c, s, Deliver(i, j, p))
      == System(Publish(s.board, i, d), s.nodes[i := Mark(s.nodes[i], j, p).(round := d.round)])
  {
  }

  /** Casting the ballot when the quorum is full keeps the board in step. */
  lemma SentMore(votes: map<int, Ballot>, q: map<int, set<int>>, rd: map<int, set<int>>, f: set<int>, i: int, x: int)
    requires i in q && i in rd && i in votes && i !in f
    ensures Write(Only(votes, Sent(q, rd) + f), i, Fires(q[i], rd[i], x, votes[i]))
      == Only(votes, Sent(q, rd[i := rd[i] + {x}]) + f)
  {
    var rd' := rd[i := rd[i] + {x}];
    forall j ensures j in Sent(q, rd') <==> j in Sent(q, rd) || (j == i && q[i] <= rd[i] + {x}) {
    }
  }

  lemma Step1(c: Config, inputs: map<int, int>, v1: map<int, Ballot>, a: map<int, set<int>>,
              rd: map<int, set<int>>, i: int, x: int)
    requires c.n > c.t && a.Keys == c.Honest() && rd.Keys == c.Honest() && i in c.Honest() && |a[i]| == c.n - c.t
    requires rd[i] + {x} <= inputs.Keys && x !in rd[i] && Filling(a[i], rd[i]) && (a[i] <= rd[i] || x in a[i])
    requires i in v1 && v1[i] == Ballot(a[i], Majority(inputs, a[i]))
    ensures Legal(c, Snap1(inputs, v1, a, rd, {}), Deliver(i, x, Input(inputs[x])))
    ensures Apply(c, Snap1(inputs, v1, a, rd, {}), Deliver(i, x, Input(inputs[x])))
      == Snap1(inputs, v1, a, rd[i := rd[i] + {x}], {})
  {
    var s, fire := rd[i] + {x}, Fires(a[i], rd[i], x, v1[i]);
    Read1(c.n, c.t, inputs, a[i], rd[i], x);
    Delivery(c, Snap1(inputs, v1, a, rd, {}), i, x, Input(inputs[x]), Progressed(Reads1(inputs, a[i], s), fire, None));
    SentMore(v1, a, rd, {}, i, x);
    Nodes1More(inputs, a, rd, i, s);
  }

  lemma Step2(c: Config, sc: Script, rd: map<int, set<int>>, i: int, x: int)
    requires Fits(c, sc) && rd.Keys == c.Honest() && i in c.Honest()
    requires rd[i] + {x} <= c.ids && x !in rd[i] && Filling(sc.b[i], rd[i]) && (sc.b[i] <= rd[i] || x in sc.b[i])
    ensures Legal(c, Snap2(sc, rd, {}), Deliver(i, x, Vote1(sc.v1[x])))
    ensures Apply(c, Snap2(sc, rd, {}), Deliver(i, x, Vote1(sc.v1[x]))) == Snap2(sc, rd[i := rd[i] + {x}], {})
  {
    var s, fire := rd[i] + {x}, Fires(sc.b[i], rd[i], x, sc.rv[i]);
    Read2(c.n, c.t, sc.inputs, sc.v1, sc.a[i], sc.b[i], rd[i], x);
    Delivery(c, Snap2(sc, rd, {}), i, x, Vote1(sc.v1[x]),
             Progressed(Reads2(sc.inputs, sc.v1, sc.a[i], sc.b[i], s), None, fire));
    SentMore(sc.rv, sc.b, rd, {}, i, x);
    Nodes2More(sc, rd, i, s);
  }

  lemma Step3(c: Config, sc: Script, rd: map<int, set<int>>, i: int, x: int)
    requires Fits(c, sc) && rd.Keys == c.Honest() && i in c.Honest() && rd[i] < sc.q[i] && x in sc.q[i] - rd[i]
    ensures x in sc.rv && Legal(c, Snap3(sc, rd), Deliver(i, x, Revote(sc.rv[x])))
    ensures Apply(c, Snap3(sc, rd), Deliver(i, x, Revote(sc.rv[x]))) == Snap3(sc, rd[i := rd[i] + {x}])
  {
    var s := rd[i] + {x};
    Read3(c.n, c.t, sc.inputs, sc.v1, sc.rv, sc.a[i], sc.b[i], sc.q[i], rd[i], x);
    Delivery(c, Snap3(sc, rd), i, x, Revote(sc.rv[x]),
             Progressed(Reads3(sc.inputs, sc.v1, sc.rv, sc.a[i], sc.b[i], sc.q[i], s), None, None));
    Nodes3More(sc, rd, i, s);
  }

  // ---------------------------------------------------------- one node, all nodes

  /** What is being read: INPUTs, VOTE1s or REVOTEs. */
  datatype Phase = First | Second | Third

  ghost function At(sc: Script, ph: Phase, rd: map<int, set<int>>): System {
    match ph
    case First => Snap1(sc.inputs, sc.v1, sc.a, rd, {})
    case Second => Snap2(sc, rd, {})
    case Third => Snap3(sc, rd)
  }

  /** The quorums of a phase. */
  ghost function Quorum(sc: Script, ph: Phase): map<int, set<int>> {
    match ph
    case First => sc.a
    case Second => sc.b
    case Third => sc.q
  }

  /** What each node reads in all: INPUTs and VOTE1s of everybody, REVOTEs of its quorum. */
  ghost function Goal(c: Config, sc: Script, ph: Phase): map<int, set<int>> {
    if ph == Third then sc.q else map i | i in c.Honest() :: c.ids
  }

  ghost function Msg(sc: Script, ph: Phase, x: int): Payload
    requires x in sc.inputs && x in sc.v1 && x in sc.rv
  {
    match ph
    case First => Input(sc.inputs[x])
    case Second => Vote1(sc.v1[x])
    case Third => Revote(sc.rv[x])
  }

  /** Node `i` may read `x` next: its quorum comes first. */
  ghost predicate Next(q: set<int>, s: set<int>, all: set<int>, x: int) {
    x in all - s && Filling(q, s) && (q <= s || x in q)
  }

  lemma Step(c: Config, sc: Script, ph: Phase, rd: map<int, set<int>>, i: int, x: int)
    requires Fits(c, sc) && rd.Keys == c.Honest() && i in c.Honest()
    requires rd[i] <= Goal(c, sc, ph)[i] && Next(Quorum(sc, ph)[i], rd[i], Goal(c, sc, ph)[i], x)
    ensures x in sc.inputs && x in sc.v1 && x in sc.rv && Legal(c, At(sc, ph, rd), Deliver(i, x, Msg(sc, ph, x)))
    ensures Apply(c, At(sc, ph, rd), Deliver(i, x, Msg(sc, ph, x))) == At(sc, ph, rd[i := rd[i] + {x}])
  {
    match ph
    case First => Step1(c, sc.inputs, sc.v1, sc.a, rd, i, x);
    case Second => Step2(c, sc, rd, i, x);
    case Third => Step3(c, sc, rd, i, x);
  }

  lemma Then(c: Config, r: Rules, sc: Script, ph: Phase, rd: map<int, set<int>>, i: int, x: int,
             end: map<int, set<int>>)
    requires Fits(c, sc) && rd.Keys == c.Honest() && i in c.Honest()
    requires rd[i] <= Goal(c, sc, ph)[i] && Next(Quorum(sc, ph)[i], rd[i], Goal(c, sc, ph)[i], x)
    requires Reaches(c, r, At(sc, ph, rd[i := rd[i] + {x}]), At(sc, ph, end))
    ensures Reaches(c, r, At(sc, ph, rd), At(sc, ph, end))
  {
    Step(c, sc, ph, rd, i, x);
    StepsOn(c, r, At(sc, ph, rd), Deliver(i, x, Msg(sc, ph, x)), At(sc, ph, rd[i := rd[i] + {x}]), At(sc, ph, end));
  }

  lemma SmallerGap(all: set<int>, s: set<int>, s': set<int>)
    requires s < s' <= all
    ensures |all - s'| < |all - s|
  {
    var x := Outside(s', s);
    SubsetCount(all - s', all - s - {x});
  }

  lemma QuorumOf(c: Config, sc: Script, ph: Phase, i: int)
    requires Fits(c, sc) && i in c.Honest()
    ensures i in Quorum(sc, ph) && i in Goal(c, sc, ph)
    ensures |Quorum(sc, ph)[i]| == c.n - c.t && Quorum(sc, ph)[i] <= Goal(c, sc, ph)[i]
  {
  }

  /** The next member to read: the quorum comes first. */
  lemma NextRead(q: set<int>, s: set<int>, all: set<int>, k: nat) returns (x: int)
    requires q <= all && s < all && Filling(q, s) && |q| == k
    ensures Next(q, s, all, x) && Filling(q, s + {x}) && s + {x} <= all && |all - (s + {x})| < |all - s|
  {
    if q <= s {
      x := Outside(all, s);
    } else {
      x := Outside(q, s);
    }
    FillsUp(q, s, x, k);
    SmallerGap(all, s, s + {x});
  }

  /** One node reads to the end of a phase. */
  lemma {:induction false} Feed(c: Config, r: Rules, sc: Script, ph: Phase, rd: map<int, set<int>>, i: int,
                                goal: set<int>)
    requires Fits(c, sc) && rd.Keys == c.Honest() && i in c.Honest() && goal == Goal(c, sc, ph)[i]
    requires rd[i] <= goal && Filling(Quorum(sc, ph)[i], rd[i])
    ensures Reaches(c, r, At(sc, ph, rd), At(sc, ph, rd[i := goal]))
    decreases |goal - rd[i]|
  {
    if rd[i] == goal {
      assert rd[i := goal] == rd;
      Stays(c, r, At(sc, ph, rd));
    } else {
      QuorumOf(c, sc, ph, i);
      var x := NextRead(Quorum(sc, ph)[i], rd[i], goal, c.n - c.t);
      Feed(c, r, sc, ph, rd[i := rd[i] + {x}], i, goal);
      Twice(rd, i, rd[i] + {x}, goal);
      Then(c, r, sc, ph, rd, i, x, rd[i := goal]);
    }
  }

  /** The nodes of `done` have read what `goal` gives them, the others nothing. */
  ghost function Reading(h: set<int>, done: set<int>, goal: map<int, set<int>>): map<int, set<int>> {
    map i | i in h :: if i in done && i in goal then goal[i] else {}
  }

  ghost function Everything(h: set<int>, ids: set<int>): map<int, set<int>> {
    map i | i in h :: ids
  }

  /** Nobody has read anything. */
  ghost function Nothing(c: Config): map<int, set<int>> {
    Reading(c.Honest(), {}, Everything(c.Honest(), c.ids))
  }

  ghost function All(c: Config): map<int, set<int>> {
    Reading(c.Honest(), c.Honest(), Everything(c.Honest(), c.ids))
  }

  /** The nodes of `left` have read nothing, the others all they are to read. */
  ghost predicate Unread(rd: map<int, set<int>>, end: map<int, set<int>>, left: set<int>) {
    && rd.Keys == end.Keys && left <= rd.Keys
    && forall i :: i in rd ==> rd[i] == if i in left then {} else end[i]
  }

  lemma NoneLeft(rd: map<int, set<int>>, end: map<int, set<int>>, left: set<int>)
    requires Unread(rd, end, left) && left == {}
    ensures rd == end
  {
    forall i | i in rd ensures rd[i] == end[i] {
    }
  }

  lemma UnreadLess(rd: map<int, set<int>>, end: map<int, set<int>>, left: set<int>, i: int)
    requires Unread(rd, end, left) && i in left
    ensures Unread(rd[i := end[i]], end, left - {i})
  {
  }

  /** All nodes read to the end of a phase. */
  lemma {:induction false} FeedAll(c: Config, r: Rules, sc: Script, ph: Phase, rd: map<int, set<int>>, left: set<int>,
                                   end: map<int, set<int>>)
    requires Fits(c, sc) && Unread(rd, end, left) && end == Goal(c, sc, ph) && end.Keys == c.Honest()
    ensures Reaches(c, r, At(sc, ph, rd), At(sc, ph, end))
    decreases |left|
  {
    if left == {} {
      NoneLeft(rd, end, left);
      Stays(c, r, At(sc, ph, rd));
    } else {
      var i := Pick(left);
      Feed(c, r, sc, ph, rd, i, end[i]);
      UnreadLess(rd, end, left, i);
      FeedAll(c, r, sc, ph, rd[i := end[i]], left - {i}, end);
      GoesOn(c, r, At(sc, ph, rd), At(sc, ph, rd[i := end[i]]), At(sc, ph, end));
    }
  }

  // -------------------------------------------------------------- starts and forgeries

  lemma StepStart(c: Config, inputs: map<int, int>, st: set<int>, f: set<int>, i: int)
    requires c.n > c.t && i in c.Honest() - st && i in inputs
    ensures Legal(c, Snap0(c, inputs, st, f), Start(i, inputs[i]))
    ensures Apply(c, Snap0(c, inputs, st, f), Start(i, inputs[i])) == Snap0(c, inputs, st + {i}, f)
  {
    FreshProgress(c.n, c.t);
    OnlyMore(inputs, st + f, i);
    assert st + f + {i} == st + {i} + f;
  }

  lemma {:induction false} StartAll(c: Config, r: Rules, inputs: map<int, int>, st: set<int>, f: set<int>)
    requires c.n > c.t && st <= c.Honest() <= inputs.Keys
    ensures Reaches(c, r, Snap0(c, inputs, st, f), Snap0(c, inputs, c.Honest(), f))
    decreases |c.Honest() - st|
  {
    if st == c.Honest() {
      Stays(c, r, Snap0(c, inputs, st, f));
    } else {
      var i := Outside(c.Honest(), st);
      StepStart(c, inputs, st, f, i);
      SmallerGap(c.Honest(), st, st + {i});
      StartAll(c, r, inputs, st + {i}, f);
      StepsOn(c, r, Snap0(c, inputs, st, f), Start(i, inputs[i]), Snap0(c, inputs, st + {i}, f),
              Snap0(c, inputs, c.Honest(), f));
    }
  }

  lemma {:induction false} ForgeInputs(c: Config, r: Rules, inputs: map<int, int>, st: set<int>, f: set<int>)
    requires c.byz <= inputs.Keys && f <= c.byz && st !! c.byz
    ensures Reaches(c, r, Snap0(c, inputs, st, f), Snap0(c, inputs, st, c.byz))
    decreases |c.byz - f|
  {
    if f == c.byz {
      Stays(c, r, Snap0(c, inputs, st, f));
    } else {
      var x := Outside(c.byz, f);
      OnlyMore(inputs, st + f, x);
      assert st + f + {x} == st + (f + {x});
      SmallerGap(c.byz, f, f + {x});
      ForgeInputs(c, r, inputs, st, f + {x});
      StepsOn(c, r, Snap0(c, inputs, st, f), Forge(x, Input(inputs[x])), Snap0(c, inputs, st, f + {x}),
              Snap0(c, inputs, st, c.byz));
    }
  }

  /** A VOTE1 that keeps the rules on the full board keeps them once all INPUTs are there. */
  lemma VoteIsFair(c: Config, r: Rules, sc: Script, b: Board, x: int)
    requires Obeys(c, BoardOf(sc), r) && x in c.ids && x in sc.v1 && b.inputs == sc.inputs
    ensures NewBallots(c, b, b.(vote1 := b.vote1[x := sc.v1[x]]), r)
  {
    var b' := b.(vote1 := b.vote1[x := sc.v1[x]]);
    if r.votes1 {
      assert Justified1(c, BoardOf(sc), x);
      assert Justified1(c, b', x);
    }
  }

  lemma RevoteIsFair(c: Config, r: Rules, sc: Script, b: Board, x: int)
    requires Obeys(c, BoardOf(sc), r) && x in c.ids && x in sc.rv && b.vote1 == sc.v1
    ensures NewBallots(c, b, b.(revote := b.revote[x := sc.rv[x]]), r)
  {
    var b' := b.(revote := b.revote[x := sc.rv[x]]);
    if r.revotes {
      assert Justified2(c, BoardOf(sc), x);
      assert Justified2(c, b', x);
    }
  }

  lemma ForgedVote(c: Config, sc: Script, rd: map<int, set<int>>, f: set<int>, x: int)
    requires Fits(c, sc) && f <= c.byz && x in c.byz - f && rd.Keys <= c.Honest()
    ensures Legal(c, Snap1(sc.inputs, sc.v1, sc.a, rd, f), Forge(x, Vote1(sc.v1[x])))
    ensures Apply(c, Snap1(sc.inputs, sc.v1, sc.a, rd, f), Forge(x, Vote1(sc.v1[x])))
      == Snap1(sc.inputs, sc.v1, sc.a, rd, f + {x})
  {
    OnlyMore(sc.v1, Sent(sc.a, rd) + f, x);
    assert Sent(sc.a, rd) + f + {x} == Sent(sc.a, rd) + (f + {x});
  }

  lemma ForgeVote(c: Config, r: Rules, sc: Script, rd: map<int, set<int>>, f: set<int>, x: int)
    requires Fits(c, sc) && Obeys(c, BoardOf(sc), r) && f <= c.byz && x in c.byz - f && rd.Keys <= c.Honest()
    requires Reaches(c, r, Snap1(sc.inputs, sc.v1, sc.a, rd, f + {x}), Snap1(sc.inputs, sc.v1, sc.a, rd, c.byz))
    ensures Reaches(c, r, Snap1(sc.inputs, sc.v1, sc.a, rd, f), Snap1(sc.inputs, sc.v1, sc.a, rd, c.byz))
  {
    var s := Snap1(sc.inputs, sc.v1, sc.a, rd, f);
    ForgedVote(c, sc, rd, f, x);
    VoteIsFair(c, r, sc, s.board, x);
    StepsOn(c, r, s, Forge(x, Vote1(sc.v1[x])), Snap1(sc.inputs, sc.v1, sc.a, rd, f + {x}),
            Snap1(sc.inputs, sc.v1, sc.a, rd, c.byz));
  }

  lemma {:induction false} ForgeVotes(c: Config, r: Rules, sc: Script, rd: map<int, set<int>>, f: set<int>)
    requires Fits(c, sc) && Obeys(c, BoardOf(sc), r) && f <= c.byz && rd.Keys <= c.Honest()
    ensures Reaches(c, r, Snap1(sc.inputs, sc.v1, sc.a, rd, f), Snap1(sc.inputs, sc.v1, sc.a, rd, c.byz))
    decreases |c.byz - f|
  {
    if f == c.byz {
      Stays(c, r, Snap1(sc.inputs, sc.v1, sc.a, rd, f));
    } else {
      var x := Outside(c.byz, f);
      SmallerGap(c.byz, f, f + {x});
      ForgeVotes(c, r, sc, rd, f + {x});
      ForgeVote(c, r, sc, rd, f, x);
    }
  }

  lemma ForgedRevote(c: Config, sc: Script, rd: map<int, set<int>>, f: set<int>, x: int)
    requires Fits(c, sc) && f <= c.byz && x in c.byz - f && rd.Keys <= c.Honest()
    ensures Legal(c, Snap2(sc, rd, f), Forge(x, Revote(sc.rv[x])))
    ensures Apply(c, Snap2(sc, rd, f), Forge(x, Revote(sc.rv[x])))
      == Snap2(sc, rd, f + {x})
  {
    OnlyMore(sc.rv, Sent(sc.b, rd) + f, x);
    assert Sent(sc.b, rd) + f + {x} == Sent(sc.b, rd) + (f + {x});
  }

  lemma ForgeRevote(c: Config, r: Rules, sc: Script, rd: map<int, set<int>>, f: set<int>, x: int)
    requires Fits(c, sc) && Obeys(c, BoardOf(sc), r) && f <= c.byz && x in c.byz - f && rd.Keys <= c.Honest()
    requires Reaches(c, r, Snap2(sc, rd, f + {x}), Snap2(sc, rd, c.byz))
    ensures Reaches(c, r, Snap2(sc, rd, f), Snap2(sc, rd, c.byz))
  {
    var s := Snap2(sc, rd, f);
    ForgedRevote(c, sc, rd, f, x);
    RevoteIsFair(c, r, sc, s.board, x);
    StepsOn(c, r, s, Forge(x, Revote(sc.rv[x])), Snap2(sc, rd, f + {x}), Snap2(sc, rd, c.byz));
  }

  lemma {:induction false} ForgeRevotes(c: Config, r: Rules, sc: Script, rd: map<int, set<int>>, f: set<int>)
    requires Fits(c, sc) && Obeys(c, BoardOf(sc), r) && f <= c.byz && rd.Keys <= c.Honest()
    ensures Reaches(c, r, Snap2(sc, rd, f), Snap2(sc, rd, c.byz))
    decreases |c.byz - f|
  {
    if f == c.byz {
      Stays(c, r, Snap2(sc, rd, f));
    } else {
      var x := Outside(c.byz, f);
      SmallerGap(c.byz, f, f + {x});
      ForgeRevotes(c, r, sc, rd, f + {x});
      ForgeRevote(c, r, sc, rd, f, x);
    }
  }

  // ------------------------------------------------------------------ phase to phase

  lemma OnlyAll<V>(m: map<int, V>, s: set<int>)
    requires m.Keys <= s
    ensures Only(m, s) == m
  {
  }

  lemma OnlyNone<V>(m: map<int, V>, s: set<int>)
    requires s == {}
    ensures Only(m, s) == map[]
  {
  }

  lemma NoneSent(q: map<int, set<int>>, h: set<int>, goal: map<int, set<int>>, k: nat)
    requires k > 0 && forall i :: i in q ==> |q[i]| == k
    ensures Sent(q, Reading(h, {}, goal)) == {}
  {
    forall i ensures i !in Sent(q, Reading(h, {}, goal)) {
      if i in q {
        var x := Pick(q[i]);
      }
    }
  }

  lemma AllSent(c: Config, q: map<int, set<int>>)
    requires Quorate(c, q)
    ensures Sent(q, Reading(c.Honest(), c.Honest(), Everything(c.Honest(), c.ids))) == c.Honest()
  {
    var rd := Reading(c.Honest(), c.Honest(), Everything(c.Honest(), c.ids));
    forall i ensures i in Sent(q, rd) <==> i in c.Honest() {
    }
  }

  lemma Begins1(inputs: map<int, int>, a: set<int>)
    requires |a| > 0
    ensures Reads1(inputs, a, {}) == FreshRound()
  {
    var x := Pick(a);
  }

  lemma Begins2(inputs: map<int, int>, v1: map<int, Ballot>, a: set<int>, b: set<int>)
    requires a <= inputs.Keys && |b| > 0
    ensures Reads2(inputs, v1, a, b, {}) == Reads1(inputs, a, inputs.Keys)
  {
    OnlyAll(inputs, inputs.Keys);
    var x := Pick(b);
  }

  lemma Begins3(inputs: map<int, int>, v1: map<int, Ballot>, rv: map<int, Ballot>, a: set<int>, b: set<int>,
                q: set<int>)
    requires b <= v1.Keys && |q| > 0
    ensures Reads3(inputs, v1, rv, a, b, q, {}) == Reads2(inputs, v1, a, b, v1.Keys)
  {
    OnlyAll(v1, v1.Keys);
    var x := Pick(q);
  }

  lemma OpeningNodes(c: Config, sc: Script)
    requires Fits(c, sc)
    ensures Nodes1(sc.inputs, sc.a, Nothing(c)) == Snap0(c, sc.inputs, c.Honest(), c.byz).nodes
  {
    var m, m' := Nodes1(sc.inputs, sc.a, Nothing(c)), Snap0(c, sc.inputs, c.Honest(), c.byz).nodes;
    assert m.Keys == m'.Keys;
    forall i | i in m ensures m[i] == m'[i] {
      Begins1(sc.inputs, sc.a[i]);
    }
  }

  lemma OpeningBoard(c: Config, sc: Script)
    requires Fits(c, sc)
    ensures Only(sc.inputs, c.Honest() + c.byz) == sc.inputs
    ensures Only(sc.v1, Sent(sc.a, Nothing(c)) + {}) == map[]
  {
    NoneSent(sc.a, c.Honest(), Everything(c.Honest(), c.ids), c.n - c.t);
    OnlyNone(sc.v1, Sent(sc.a, Nothing(c)) + {});
    OnlyAll(sc.inputs, c.Honest() + c.byz);
  }

  lemma Opening(c: Config, sc: Script)
    requires Fits(c, sc)
    ensures Snap0(c, sc.inputs, c.Honest(), c.byz) == At(sc, First, Nothing(c))
  {
    OpeningBoard(c, sc);
    OpeningNodes(c, sc);
  }

  lemma SecondNodes(c: Config, sc: Script)
    requires Fits(c, sc)
    ensures Nodes1(sc.inputs, sc.a, All(c)) == Nodes2(sc, Nothing(c))
  {
    var m, m' := Nodes1(sc.inputs, sc.a, All(c)), Nodes2(sc, Nothing(c));
    assert m.Keys == m'.Keys;
    forall i | i in m ensures m[i] == m'[i] {
      Begins2(sc.inputs, sc.v1, sc.a[i], sc.b[i]);
    }
  }

  lemma SecondBoard(c: Config, sc: Script)
    requires Fits(c, sc)
    ensures Only(sc.v1, Sent(sc.a, All(c)) + c.byz) == sc.v1
    ensures Only(sc.rv, Sent(sc.b, Nothing(c)) + {}) == map[]
  {
    AllSent(c, sc.a);
    NoneSent(sc.b, c.Honest(), Everything(c.Honest(), c.ids), c.n - c.t);
    OnlyAll(sc.v1, c.Honest() + c.byz);
    OnlyNone(sc.rv, Sent(sc.b, Nothing(c)) + {});
  }

  lemma ToSecond(c: Config, sc: Script)
    requires Fits(c, sc)
    ensures Snap1(sc.inputs, sc.v1, sc.a, All(c), c.byz) == Snap2(sc, Nothing(c), {})
  {
    SecondBoard(c, sc);
    SecondNodes(c, sc);
  }

  lemma ThirdNodes(c: Config, sc: Script)
    requires Fits(c, sc)
    ensures Nodes2(sc, All(c)) == Nodes3(sc, Reading(c.Honest(), {}, sc.q))
  {
    var m, m' := Nodes2(sc, All(c)), Nodes3(sc, Reading(c.Honest(), {}, sc.q));
    assert m.Keys == m'.Keys;
    forall i | i in m ensures m[i] == m'[i] {
      Begins3(sc.inputs, sc.v1, sc.rv, sc.a[i], sc.b[i], sc.q[i]);
    }
  }

  lemma ToThird(c: Config, sc: Script)
    requires Fits(c, sc)
    ensures Snap2(sc, All(c), c.byz) == Snap3(sc, Reading(c.Honest(), {}, sc.q))
  {
    AllSent(c, sc.b);
    OnlyAll(sc.rv, c.Honest() + c.byz);
    ThirdNodes(c, sc);
  }

  // --------------------------------------------------------------------- the run

  /** All code-following nodes have started; nothing else has happened. */
  ghost function Opened(c: Config, inputs: map<int, int>): System {
    Snap0(c, inputs, c.Honest(), {})
  }

  lemma Goals(c: Config, sc: Script)
    requires Fits(c, sc)
    ensures Goal(c, sc, First) == All(c) && Goal(c, sc, Second) == All(c)
    ensures Reading(c.Honest(), c.Honest(), sc.q) == Goal(c, sc, Third)
    ensures Unread(Nothing(c), All(c), c.Honest()) && Unread(Reading(c.Honest(), {}, sc.q), sc.q, c.Honest())
  {
  }

  lemma Runs1(c: Config, r: Rules, sc: Script)
    requires Fits(c, sc) && Obeys(c, BoardOf(sc), r)
    ensures Reaches(c, r, Opened(c, sc.inputs), At(sc, First, All(c)))
  {
    var s0 := Opened(c, sc.inputs);
    ForgeInputs(c, r, sc.inputs, c.Honest(), {});
    Opening(c, sc);
    Goals(c, sc);
    FeedAll(c, r, sc, First, Nothing(c), c.Honest(), All(c));
    GoesOn(c, r, s0, At(sc, First, Nothing(c)), At(sc, First, All(c)));
  }

  lemma Runs2(c: Config, r: Rules, sc: Script)
    requires Fits(c, sc) && Obeys(c, BoardOf(sc), r)
    ensures Reaches(c, r, Opened(c, sc.inputs), At(sc, Second, Nothing(c)))
  {
    Runs1(c, r, sc);
    ForgeVotes(c, r, sc, All(c), {});
    GoesOn(c, r, Opened(c, sc.inputs), At(sc, First, All(c)), Snap1(sc.inputs, sc.v1, sc.a, All(c), c.byz));
    ToSecond(c, sc);
  }

  lemma Runs3(c: Config, r: Rules, sc: Script)
    requires Fits(c, sc) && Obeys(c, BoardOf(sc), r)
    ensures Reaches(c, r, At(sc, Second, Nothing(c)), End(c, sc))
  {
    var s0 := At(sc, Second, Nothing(c));
    Goals(c, sc);
    FeedAll(c, r, sc, Second, Nothing(c), c.Honest(), All(c));
    ForgeRevotes(c, r, sc, All(c), {});
    GoesOn(c, r, s0, At(sc, Second, All(c)), Snap2(sc, All(c), c.byz));
    ToThird(c, sc);
    FeedAll(c, r, sc, Third, Reading(c.Honest(), {}, sc.q), c.Honest(), sc.q);
    GoesOn(c, r, s0, Snap3(sc, Reading(c.Honest(), {}, sc.q)), End(c, sc));
  }

  /** The last snapshot of a script. */
  ghost function End(c: Config, sc: Script): System {
    Snap3(sc, Reading(c.Honest(), c.Honest(), sc.q))
  }

  lemma EndFinished(c: Config, sc: Script, i: int)
    requires Fits(c, sc) && i in c.Honest()
    ensures Finished(c, End(c, sc), i, Decide(sc.v1, sc.rv, sc.b[i], sc.q[i]))
  {
    var rd := Reading(c.Honest(), c.Honest(), sc.q);
    assert i in Nodes3(sc, rd) && rd[i] == sc.q[i];
  }

  /** From the start of a round to the end of the script, with ballots that keep any rules its board keeps. */
  lemma RoundPlayed(c: Config, r: Rules, sc: Script)
    requires Fits(c, sc) && Obeys(c, BoardOf(sc), r)
    ensures Reaches(c, r, Opened(c, sc.inputs), End(c, sc))
  {
    Runs2(c, r, sc);
    Runs3(c, r, sc);
    GoesOn(c, r, Opened(c, sc.inputs), At(sc, Second, Nothing(c)), End(c, sc));
  }

  /** Every script is played: a run ends with its board, each code-following node finished on its own quorums. */
  lemma Played(c: Config, sc: Script) returns (es: seq<Event>)
    requires Fits(c, sc)
    ensures Reachable(c, es, End(c, sc)) && End(c, sc).board == BoardOf(sc)
    ensures forall i :: i in c.Honest() ==> Finished(c, End(c, sc), i, Decide(sc.v1, sc.rv, sc.b[i], sc.q[i]))
  {
    var r := Rules(false, false, true);
    assert Init(c) == Snap0(c, sc.inputs, {}, {});
    StartAll(c, r, sc.inputs, {}, {});
    RoundPlayed(c, r, sc);
    GoesOn(c, r, Init(c), Opened(c, sc.inputs), End(c, sc));
    forall i | i in c.Honest() {
      EndFinished(c, sc, i);
    }
    es := Witness(c, r, End(c, sc));
  }

  lemma Witness(c: Config, r: Rules, s: System) returns (es: seq<Event>)
    requires c.Valid() && Reaches(c, r, Init(c), s)
    ensures Reachable(c, es, s)
  {
    es :| Plays(c, r, Init(c), es, s);
    PlaysLead(c, r, Init(c), es, s);
  }
}
