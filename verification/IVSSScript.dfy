/**
 Building runs of one sharing instance: what can be reached is described by the exact states of the nodes and by
 casts and points that are surely out.
 */
module IVSSScript {
  import opened Quorums
  import opened Bivariate
  import opened IVSS
  import opened IVSSNode
  import opened IVSSRuns

  // ------------------------------------------------------- runs of one instance

  /** The instance after an event at a node that has marked no pair. */
  ghost function Next(net: Net, s: Sys, e: Event): Sys
    requires net.p > 0 && Enabled(net, s, e)
  {
    if e.Post? then s.(board := s.board + {e.payload}) else Moved(s, e.k, Reaction(net, {}, s, e))
  }

  /** No pair gets marked. */
  ghost predicate Quiet(net: Net, s: Sys, e: Event)
    requires net.p > 0 && Enabled(net, s, e)
  {
    e.Post? || Reaction(net, {}, s, e).blamed == {}
  }

  ghost predicate Leads(net: Net, s: Sys, es: seq<Event>, s': Sys)
    requires net.p > 0
    decreases |es|
  {
    if es == [] then s == s'
    else Enabled(net, s, es[0]) && Quiet(net, s, es[0]) && Leads(net, Next(net, s, es[0]), es[1..], s')
  }

  lemma {:induction false} LeadsStep(net: Net, s: Sys, es: seq<Event>, s1: Sys, e: Event)
    requires net.p > 0 && Leads(net, s, es, s1) && Enabled(net, s1, e) && Quiet(net, s1, e)
    ensures Leads(net, s, es + [e], Next(net, s1, e))
    decreases |es|
  {
    if es == [] {
      assert es + [e] == [e] && [e][1..] == [];
    } else {
      LeadsStep(net, Next(net, s, es[0]), es[1..], s1, e);
      assert (es + [e])[1..] == es[1..] + [e];
    }
  }

  ghost predicate Reaches(net: Net, s: Sys, s': Sys)
    requires net.p > 0
  {
    exists es :: Leads(net, s, es, s')
  }

  lemma ReachesNext(net: Net, s: Sys, s1: Sys, e: Event)
    requires net.p > 0 && Reaches(net, s, s1) && Enabled(net, s1, e) && Quiet(net, s1, e)
    ensures Reaches(net, s, Next(net, s1, e))
  {
    var es :| Leads(net, s, es, s1);
    LeadsStep(net, s, es, s1, e);
  }

  // ------------------------------------------------------------ what is sure to hold

  /** The nodes are in these states; at least these casts and points are out. */
  datatype View = View(nodes: map<int, Node>, casts: set<Payload>, points: set<(int, int, int)>)

  ghost predicate Shows(s: Sys, v: View, dealing: Option<seq<seq<int>>>) {
    s.nodes == v.nodes && v.casts <= s.board && v.points <= s.points && s.dealing == dealing
  }

  ghost predicate CanReach(net: Net, s: Sys, v: View)
    requires net.p > 0
  {
    exists s' :: Reaches(net, s, s') && Shows(s', v, s.dealing)
  }

  /** Enough to make an event of a node in state `inst` possible. */
  ghost predicate May(net: Net, dealing: Option<seq<seq<int>>>, inst: Instance, casts: set<Payload>,
                      points: set<(int, int, int)>, e: Event)
    requires net.p > 0
  {
    match e
    case Deal(k, from, poly, order) =>
      && inst.received.None? && |poly| <= net.cfg.t + 1 && Lists(order, inst.early.Keys)
      && (dealing.Some? ==> Rectangular(dealing.value, |dealing.value|) && SliceOf(net.p, dealing.value, k, poly))
    case Sampled(k, from, value) => from in net.H() ==> (from, k, value) in points
    case Post(x) => false
    case Deliver(k, x, order) =>
      && x in casts
      && (x.MSet? ==> inst.pending.None? && !inst.completed)
      && (x.Reveal? ==> Lists(order, Candidates(Revealed(inst, x.sender, x.poly))))
    case Begin(k) => true
  }

  /** The reaction of a node in state `inst`. */
  ghost function Does(net: Net, inst: Instance, e: Event): Effect
    requires net.p > 0 && !e.Post?
    requires e.Deal? ==> forall a :: 0 <= a < |e.order| ==> e.order[a] in inst.early
  {
    var n, t, p := net.cfg.n, net.cfg.t, net.p;
    match e
    case Deal(k, from, poly, order) => OnShare(n, p, k, inst, from, poly, order)
    case Sampled(k, from, value) => OnPoint(p, k, inst, from, value)
    case Deliver(k, x, order) => CastEffect(n, t, p, k, {}, inst, x, order)
    case Begin(k) => Begun(k, inst)
  }

  ghost function After(v: View, k: int, r: Effect): View
    requires k in v.nodes
  {
    View(v.nodes[k := Node(r.inst, v.nodes[k].results + r.results)], v.casts + Casts(r.sent),
         v.points + SentPoints(k, r.sent))
  }

  lemma MayEnabled(net: Net, s: Sys, v: View, e: Event)
    requires net.p > 0 && Shows(s, v, s.dealing) && !e.Post? && e.k in v.nodes
    requires May(net, s.dealing, v.nodes[e.k].inst, v.casts, v.points, e)
    ensures Enabled(net, s, e) && Reaction(net, {}, s, e) == Does(net, v.nodes[e.k].inst, e)
  {
  }

  lemma ShowsAfter(s: Sys, v: View, k: int, r: Effect)
    requires Shows(s, v, s.dealing) && k in v.nodes
    ensures Shows(Moved(s, k, r), After(v, k, r), s.dealing)
  {
  }

  /** One more event of a node. */
  lemma Act(net: Net, s: Sys, v: View, e: Event, r: Effect)
    requires net.p > 0 && CanReach(net, s, v) && !e.Post? && e.k in v.nodes
    requires May(net, s.dealing, v.nodes[e.k].inst, v.casts, v.points, e)
    requires r == Does(net, v.nodes[e.k].inst, e) && r.blamed == {}
    ensures CanReach(net, s, After(v, e.k, r))
  {
    var s1 :| Reaches(net, s, s1) && Shows(s1, v, s.dealing);
    MayEnabled(net, s1, v, e);
    ReachesNext(net, s, s1, e);
    ShowsAfter(s1, v, e.k, r);
    assert Reaches(net, s, Moved(s1, e.k, r));
  }

  /** Knowing less about casts and points. */
  lemma Forget(net: Net, s: Sys, v: View, v': View)
    requires net.p > 0 && CanReach(net, s, v) && v'.nodes == v.nodes && v'.casts <= v.casts && v'.points <= v.points
    ensures CanReach(net, s, v')
  {
    var s1 :| Reaches(net, s, s1) && Shows(s1, v, s.dealing);
    assert Shows(s1, v', s.dealing);
  }

  // ------------------------------------------------------- what one node can do by itself

  /** The state of one node, and casts and points that are out. */
  datatype Stage = Stage(node: Node, casts: set<Payload>, points: set<(int, int, int)>)

  ghost predicate Stands(v: View, k: int, a: Stage) {
    k in v.nodes && v.nodes[k] == a.node && a.casts <= v.casts && a.points <= v.points
  }

  ghost function Put(v: View, k: int, b: Stage): View {
    View(v.nodes[k := b.node], v.casts + b.casts, v.points + b.points)
  }

  /** Whatever the others are up to, node `k` can go from `a` to `b`. */
  ghost predicate Goes(net: Net, s: Sys, k: int, a: Stage, b: Stage)
    requires net.p > 0
  {
    forall v :: CanReach(net, s, v) && Stands(v, k, a) ==> CanReach(net, s, Put(v, k, b))
  }

  lemma GoesNowhere(net: Net, s: Sys, k: int, a: Stage)
    requires net.p > 0
    ensures Goes(net, s, k, a, a)
  {
    forall v | CanReach(net, s, v) && Stands(v, k, a) ensures CanReach(net, s, Put(v, k, a)) {
      assert Put(v, k, a) == v;
    }
  }

  lemma GoesOn(net: Net, s: Sys, k: int, a: Stage, b: Stage, c: Stage)
    requires net.p > 0 && Goes(net, s, k, a, b) && Goes(net, s, k, b, c)
    ensures Goes(net, s, k, a, c)
  {
    forall v | CanReach(net, s, v) && Stands(v, k, a) ensures CanReach(net, s, Put(v, k, c)) {
      var v1 := Put(v, k, b);
      assert Stands(v1, k, b);
      assert v1.nodes[k := c.node] == v.nodes[k := c.node];
      Forget(net, s, Put(v1, k, c), Put(v, k, c));
    }
  }

  lemma GoesByEvent(net: Net, s: Sys, e: Event, r: Effect, a: Stage, b: Stage)
    requires net.p > 0 && !e.Post?
    requires May(net, s.dealing, a.node.inst, a.casts, a.points, e)
    requires r == Does(net, a.node.inst, e) && r.blamed == {}
    requires b.node == Node(r.inst, a.node.results + r.results)
    requires b.casts <= a.casts + Casts(r.sent) && b.points <= a.points + SentPoints(e.k, r.sent)
    ensures Goes(net, s, e.k, a, b)
  {
    forall v | CanReach(net, s, v) && Stands(v, e.k, a) ensures CanReach(net, s, Put(v, e.k, b)) {
      Act(net, s, v, e, r);
      Forget(net, s, After(v, e.k, r), Put(v, e.k, b));
    }
  }

  // ------------------------------------------------------------------ everyone in turn

  ghost function NodesAt(a: map<int, Stage>): map<int, Node> {
    map k | k in a :: a[k].node
  }

  /** The nodes of `done` have arrived, the others have not left. */
  ghost function Halfway(a: map<int, Stage>, b: map<int, Stage>, done: set<int>): map<int, Node>
    requires a.Keys == b.Keys
  {
    map k | k in a :: if k in done then b[k].node else a[k].node
  }

  ghost predicate Supplied(b: map<int, Stage>, done: set<int>, was: View, now: View) {
    && (forall x :: x in now.casts ==> x in was.casts || exists k :: k in done && k in b && x in b[k].casts)
    && (forall x :: x in now.points ==> x in was.points || exists k :: k in done && k in b && x in b[k].points)
  }

  /** Casts and points supplied before `k` moved. */
  ghost function Earlier(b: map<int, Stage>, done: set<int>, was: View, now: View): View {
    View(now.nodes,
         was.casts + (set x | x in now.casts && exists k :: k in done && k in b && x in b[k].casts),
         was.points + (set x | x in now.points && exists k :: k in done && k in b && x in b[k].points))
  }

  lemma LastMover(b: map<int, Stage>, done: set<int>, k: int, was: View, now: View)
    requires k in done && k in b && Supplied(b, done, was, now)
    ensures var v := Earlier(b, done - {k}, was, now);
            now.casts <= v.casts + b[k].casts && now.points <= v.points + b[k].points
  {
    var v := Earlier(b, done - {k}, was, now);
    forall x | x in now.casts ensures x in v.casts + b[k].casts {
      if x !in was.casts {
        var i :| i in done && i in b && x in b[i].casts;
        assert i == k || i in done - {k};
      }
    }
    forall x | x in now.points ensures x in v.points + b[k].points {
      if x !in was.points {
        var i :| i in done && i in b && x in b[i].points;
        assert i == k || i in done - {k};
      }
    }
  }

  lemma OneGoes(net: Net, s: Sys, k: int, a: Stage, b: Stage, v: View, now: View)
    requires net.p > 0 && CanReach(net, s, v) && Stands(v, k, a) && Goes(net, s, k, a, b)
    requires now.nodes == v.nodes[k := b.node]
    requires now.casts <= v.casts + b.casts && now.points <= v.points + b.points
    ensures CanReach(net, s, now)
  {
    Forget(net, s, Put(v, k, b), now);
  }

  lemma HalfwayStep(a: map<int, Stage>, b: map<int, Stage>, done: set<int>, k: int)
    requires a.Keys == b.Keys && k in done && k in a
    ensures Halfway(a, b, done) == Halfway(a, b, done - {k})[k := b[k].node]
    ensures Halfway(a, b, done - {k})[k] == a[k].node
  {
  }

  ghost predicate AllGo(net: Net, s: Sys, a: map<int, Stage>, b: map<int, Stage>, was: View)
    requires net.p > 0 && a.Keys == b.Keys
  {
    forall k :: k in a ==> Stands(was, k, a[k]) && Goes(net, s, k, a[k], b[k])
  }

  lemma {:induction false} EveryoneGoes(net: Net, s: Sys, a: map<int, Stage>, b: map<int, Stage>, done: set<int>,
                                        was: View, now: View)
    requires net.p > 0 && a.Keys == b.Keys && done <= a.Keys
    requires CanReach(net, s, was) && was.nodes == NodesAt(a) && now.nodes == Halfway(a, b, done)
    requires AllGo(net, s, a, b, was) && Supplied(b, done, was, now)
    ensures CanReach(net, s, now)
    decreases |done|
  {
    if done == {} {
      assert now.nodes == was.nodes;
      Forget(net, s, was, now);
    } else {
      var k := Pick(done);
      var v := Earlier(b, done - {k}, was, now).(nodes := Halfway(a, b, done - {k}));
      EveryoneGoes(net, s, a, b, done - {k}, was, v);
      LastMover(b, done, k, was, now);
      HalfwayStep(a, b, done, k);
      assert Stands(was, k, a[k]);
      OneGoes(net, s, k, a[k], b[k], v, now);
    }
  }

  /** Every node goes from its `a` to its `b`. */
  lemma Everyone(net: Net, s: Sys, a: map<int, Stage>, b: map<int, Stage>, was: View, now: View)
    requires net.p > 0 && a.Keys == b.Keys
    requires CanReach(net, s, was) && was.nodes == NodesAt(a) && now.nodes == NodesAt(b)
    requires AllGo(net, s, a, b, was) && Supplied(b, b.Keys, was, now)
    ensures CanReach(net, s, now)
  {
    assert NodesAt(b) == Halfway(a, b, b.Keys);
    EveryoneGoes(net, s, a, b, b.Keys, was, now);
  }

  ghost function Staged(nodes: map<int, Node>, casts: set<Payload>, points: set<(int, int, int)>): map<int, Stage> {
    map k | k in nodes :: Stage(nodes[k], casts, points)
  }

  ghost function Casting(nodes: map<int, Node>, casts: set<Payload>, own: map<int, set<Payload>>,
                         points: set<(int, int, int)>): map<int, Stage>
    requires nodes.Keys == own.Keys
  {
    map k | k in nodes :: Stage(nodes[k], casts + own[k], points)
  }

  /** All nodes go on from the same casts, and each adds its own. */
  lemma Together(net: Net, s: Sys, nodes: map<int, Node>, nodes': map<int, Node>, casts: set<Payload>,
                 own: map<int, set<Payload>>, points: set<(int, int, int)>, casts': set<Payload>)
    requires net.p > 0 && nodes.Keys == nodes'.Keys == own.Keys && CanReach(net, s, View(nodes, casts, points))
    requires forall k :: k in nodes ==>
               Goes(net, s, k, Stage(nodes[k], casts, points), Stage(nodes'[k], casts + own[k], points))
    requires forall x :: x in casts' ==> x in casts || exists k :: k in own && x in own[k]
    ensures CanReach(net, s, View(nodes', casts', points))
  {
    var a, b := Staged(nodes, casts, points), Casting(nodes', casts, own, points);
    assert NodesAt(a) == nodes && NodesAt(b) == nodes';
    var was, now := View(nodes, casts, points), View(nodes', casts', points);
    OwnSupplied(nodes', own, was, now);
    Everyone(net, s, a, b, was, now);
  }

  lemma OwnSupplied(nodes: map<int, Node>, own: map<int, set<Payload>>, was: View, now: View)
    requires nodes.Keys == own.Keys && now.points == was.points
    requires forall x :: x in now.casts ==> x in was.casts || exists k :: k in own && x in own[k]
    ensures Supplied(Casting(nodes, was.casts, own, was.points), nodes.Keys, was, now)
  {
    var b := Casting(nodes, was.casts, own, was.points);
    forall x | x in now.casts && x !in was.casts ensures exists k :: k in nodes.Keys && k in b && x in b[k].casts {
      var k :| k in own && x in own[k];
      assert x in b[k].casts;
    }
  }

  // ------------------------------------------------------------- casts of the others

  /** Casts that do not get in each other's way. */
  ghost predicate Postable(net: Net, casts: set<Payload>) {
    && (forall x :: x in casts ==> Foreign(net, x))
    && (forall i, f, g :: Reveal(i, f) in casts && Reveal(i, g) in casts ==> f == g)
    && (forall m, m' :: MSet(m) in casts && MSet(m') in casts ==> m == m')
  }

  ghost predicate Foreign(net: Net, x: Payload) {
    match x
    case Equal(i, j) => i in net.cfg.byz
    case MSet(m) => true
    case Reveal(i, f) => i in net.cfg.byz && |f| <= net.cfg.t + 1
    case Ready(i) => i in net.cfg.byz
  }

  lemma {:induction false} PostAll(net: Net, s: Sys, todo: set<Payload>)
    requires net.p > 0 && s.board !! todo && Postable(net, s.board + todo)
    ensures Reaches(net, s, s.(board := s.board + todo))
    decreases |todo|
  {
    if todo == {} {
      assert s.(board := s.board + todo) == s;
      assert Leads(net, s, [], s);
    } else {
      var x := Pick(todo);
      var rest := todo - {x};
      assert s.board + rest <= s.board + todo;
      PostAll(net, s, rest);
      var s1 := s.(board := s.board + rest);
      assert x !in s1.board;
      PostOne(net, s1, x);
      assert s1.board + {x} == s.board + todo;
      ReachesNext(net, s, s1, Post(x));
    }
  }

  lemma PostOne(net: Net, s: Sys, x: Payload)
    requires net.p > 0 && x !in s.board && Postable(net, s.board + {x})
    ensures Enabled(net, s, Post(x))
  {
    var all := s.board + {x};
    assert x in all;
    match x
    case MSet(m) =>
      forall m' ensures MSet(m') in s.board ==> MSet(m') in all {
      }
    case Reveal(i, f) =>
      forall g ensures Reveal(i, g) in s.board ==> Reveal(i, g) in all {
      }
    case _ =>
  }

  // --------------------------------------------------------------- as a run of the world

  ghost function NoPairs(net: Net): map<int, set<(int, int)>> {
    map k | k in net.H() :: {}
  }

  ghost function Only(net: Net, key: string, s: Sys): World {
    World(NoPairs(net), map[key := s])
  }

  lemma Again<T>(m: map<int, T>, k: int, x: T)
    requires k in m && m[k] == x
    ensures m[k := x] == m
  {
  }

  lemma OneStep(net: Net, key: string, s: Sys, e: Event)
    requires net.p > 0 && s.nodes.Keys == net.H() && Enabled(net, s, e) && Quiet(net, s, e)
    ensures CanStep(net, Only(net, key, s), key, e)
    ensures Step(net, Only(net, key, s), key, e) == Only(net, key, Next(net, s, e))
    ensures Next(net, s, e).nodes.Keys == net.H()
  {
    var w := Only(net, key, s);
    assert map[key := s][key := Next(net, s, e)] == map[key := Next(net, s, e)];
    if !e.Post? {
      assert e.k in net.H();
      Again(w.fp, e.k, {});
      assert w.fp[e.k] + {} == {};
    }
  }

  lemma {:induction false} Lifted(net: Net, key: string, s: Sys, es: seq<Event>, s': Sys)
    returns (steps: seq<(string, Event)>)
    requires net.p > 0 && s.nodes.Keys == net.H() && Leads(net, s, es, s')
    ensures Run(net, Only(net, key, s), steps, Only(net, key, s'))
    decreases |es|
  {
    if es == [] {
      steps := [];
    } else {
      OneStep(net, key, s, es[0]);
      steps := Lifted(net, key, Next(net, s, es[0]), es[1..], s');
      steps := PrefixRun(net, Only(net, key, s), key, es[0], steps, Only(net, key, s'));
    }
  }

  lemma PrefixRun(net: Net, w: World, key: string, e: Event, rest: seq<(string, Event)>, w': World)
    returns (steps: seq<(string, Event)>)
    requires net.p > 0 && CanStep(net, w, key, e) && Run(net, Step(net, w, key, e), rest, w')
    ensures Run(net, w, steps, w')
  {
    steps := [(key, e)] + rest;
    assert steps[1..] == rest;
  }
}
