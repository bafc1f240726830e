/**
 The common coin on top of secret sharing: a node counts a sharing as complete, and uses a reconstructed value, only
 when its own sharing layer has output them. Faulty nodes share, reveal and cast what they like, one set of each kind
 under their own name.
 */
module ICCJoint {
  import opened Quorums
  import opened Bivariate
  import opened IVSS
  import opened IVSSRuns
  import opened IVSSGrowth
  import opened IVSSTheorems
  import C = ICC
  import R = ICCRuns

  /** `name` is the sharing instance of each (dealer, index), and `dealt` the polynomial of a code-following dealer. */
  datatype Setup = Setup(net: Net, u: int, name: map<(int, int), string>, dealt: map<(int, int), seq<seq<int>>>) {
    ghost predicate Valid() {
      net.Valid() && u > 0
    }

    /** As many nodes as possible are faulty, and all dealers follow the code. */
    ghost predicate Live() {
      && Valid() && |net.cfg.byz| == net.cfg.t && dealt.Keys == name.Keys
      && (forall x :: x in name ==> x.0 in net.H())
      && (forall x :: x in dealt ==> |dealt[x]| == net.cfg.t + 1 && Symmetric(dealt[x]))
    }

    /** The coin's view: the live nodes and the secrets they dealt. */
    ghost function Coin(): R.Setup
      requires Live()
    {
      R.Setup(net.cfg.n, net.cfg.t, u, net.H(), map x | x in dealt :: dealt[x][0][0] % net.p)
    }
  }

  datatype State = State(sharing: World, coin: R.Sys)

  /** A step of secret sharing in one instance, an event of the coin at node `i`, or a cast of a faulty node. */
  datatype Move =
    | Sharing(key: string, e: Event)
    | Coin(i: int, event: C.Event)
    | ByzCast(origin: int, cast: C.Cast)

  ghost predicate HasOutput(w: World, key: string, i: int, r: Result) {
    key in w.insts && i in w.insts[key].nodes && r in w.insts[key].nodes[i].results
  }

  /** Node `i` has completed the sharing of instance `key`. */
  ghost predicate HasShared(w: World, key: string, i: int) {
    exists m, f :: HasOutput(w, key, i, SharingComplete(m, f))
  }

  ghost predicate CoinEnabled(c: Setup, st: State, i: int, e: C.Event) {
    && i in st.coin.nodes
    && match e
       case Shared(d, x) => (d, x) in c.name && HasShared(st.sharing, c.name[(d, x)], i)
       case Rebuilt(d, x, v) => (d, x) in c.name && HasOutput(st.sharing, c.name[(d, x)], i, Reconstructed(v))
       case GotAttach(from, t) => from in st.coin.attach && st.coin.attach[from] == t
       case GotAccept(from, a) => from in st.coin.accept && st.coin.accept[from] == a
       case GotFinal(from, f) => from in st.coin.final && st.coin.final[from] == f
  }

  /** Nothing of this kind was cast under this name. */
  ghost predicate Uncast(s: R.Sys, j: int, x: C.Cast) {
    match x
    case Attach(t) => j !in s.attach
    case Accept(a) => j !in s.accept
    case FinalSets(f) => j !in s.final
  }

  ghost function Recast(s: R.Sys, j: int, x: C.Cast): R.Sys {
    match x
    case Attach(t) => s.(attach := s.attach[j := t])
    case Accept(a) => s.(accept := s.accept[j := a])
    case FinalSets(f) => s.(final := s.final[j := f])
  }

  ghost predicate CanMove(c: Setup, st: State, m: Move)
    requires c.net.p > 0
  {
    match m
    case Sharing(key, e) => CanStep(c.net, st.sharing, key, e)
    case Coin(i, e) => CoinEnabled(c, st, i, e)
    case ByzCast(j, x) => j in c.net.cfg.byz && Uncast(st.coin, j, x)
  }

  ghost function Next(c: Setup, st: State, m: Move): State
    requires c.net.p > 0 && c.u > 0 && CanMove(c, st, m)
  {
    match m
    case Sharing(key, e) => st.(sharing := Step(c.net, st.sharing, key, e))
    case Coin(i, e) =>
      var before := st.coin.nodes[i];
      st.(coin := R.Moved(st.coin, i, before, C.Handle(c.net.cfg.n, c.net.cfg.t, c.u, before, e)))
    case ByzCast(j, x) => st.(coin := Recast(st.coin, j, x))
  }

  /** Faulty nodes neither reveal polynomials nor take part in the coin. */
  ghost predicate Silent(m: Move) {
    match m
    case Sharing(key, e) => !(e.Post? && e.payload.Reveal?)
    case Coin(i, e) => true
    case ByzCast(j, x) => false
  }

  ghost predicate JointRun(c: Setup, st: State, moves: seq<Move>, st': State)
    requires c.net.p > 0 && c.u > 0
    decreases |moves|
  {
    if moves == [] then st == st'
    else CanMove(c, st, moves[0]) && JointRun(c, Next(c, st, moves[0]), moves[1..], st')
  }

  /** Every named instance is dealt the polynomial of its name. */
  ghost predicate Named(c: Setup, w: World) {
    forall x :: x in c.name ==>
      c.name[x] in w.insts && x in c.dealt && w.insts[c.name[x]].dealing == Some(c.dealt[x])
  }

  ghost predicate CoinInit(c: Setup, s: R.Sys) {
    && s.nodes.Keys == c.net.H() && s.attach == map[] && s.accept == map[] && s.final == map[]
    && forall i :: i in s.nodes ==> s.nodes[i] == C.FreshIcc()
  }

  ghost predicate JointInit(c: Setup, st: State) {
    Init(c.net, st.sharing) && CoinInit(c, st.coin)
  }

  lemma InitReachable(net: Net, w: World)
    requires net.p > 0 && Init(net, w)
    ensures Reachable(net, w)
  {
    assert Run(net, w, [], w);
  }

  // ------------------------------------------------------------------- invariant

  ghost predicate OnlyHonestReveals(net: Net, w: World) {
    forall key, i, f :: key in w.insts && Reveal(i, f) in w.insts[key].board ==> i in net.H()
  }

  ghost predicate SharingOk(c: Setup, w: World)
    requires c.net.p > 0
  {
    Reachable(c.net, w) && Named(c, w) && OnlyHonestReveals(c.net, w)
  }

  lemma {:induction false} RunStep(net: Net, w: World, steps: seq<(string, Event)>, w1: World, key: string, e: Event)
    requires net.p > 0 && Run(net, w, steps, w1) && CanStep(net, w1, key, e)
    ensures Run(net, w, steps + [(key, e)], Step(net, w1, key, e))
    decreases |steps|
  {
    if steps == [] {
      assert steps + [(key, e)] == [(key, e)] && [(key, e)][1..] == [];
    } else {
      RunStep(net, Step(net, w, steps[0].0, steps[0].1), steps[1..], w1, key, e);
      assert (steps + [(key, e)])[1..] == steps[1..] + [(key, e)];
    }
  }

  lemma ReachableStep(net: Net, w: World, key: string, e: Event)
    requires net.p > 0 && Reachable(net, w) && CanStep(net, w, key, e)
    ensures Reachable(net, Step(net, w, key, e))
  {
    var w0, steps :| Init(net, w0) && Run(net, w0, steps, w);
    ReachedBy(net, w0, steps, w, key, e);
  }

  lemma ReachedBy(net: Net, w0: World, steps: seq<(string, Event)>, w: World, key: string, e: Event)
    requires net.p > 0 && Init(net, w0) && Run(net, w0, steps, w) && CanStep(net, w, key, e)
    ensures Reachable(net, Step(net, w, key, e))
  {
    RunStep(net, w0, steps, w, key, e);
  }

  /** A step puts only reveals of the acting node on the board. */
  lemma StepReveals(net: Net, w: World, key: string, e: Event, i: int, f: seq<int>)
    requires net.Valid() && Inv(net, w) && CanStep(net, w, key, e) && !(e.Post? && e.payload.Reveal?)
    requires Reveal(i, f) in Step(net, w, key, e).insts[key].board
    ensures Reveal(i, f) in w.insts[key].board || i in net.H()
  {
    var s := w.insts[key];
    if !e.Post? && Reveal(i, f) !in s.board {
      assert SysInv(net, w.fp, s);
      ReactionIsGood(net, w.fp, s, e);
      var r := Reaction(net, w.fp[e.k], s, e);
      assert Reveal(i, f) in Casts(r.sent);
      assert CastBy(e.k, Reveal(i, f));
    }
  }

  /** A step changes one instance and not what was dealt there. */
  lemma StepElsewhere(net: Net, w: World, key: string, e: Event) returns (s': Sys)
    requires net.p > 0 && CanStep(net, w, key, e)
    ensures Step(net, w, key, e).insts == w.insts[key := s'] && s'.dealing == w.insts[key].dealing
  {
    s' := Step(net, w, key, e).insts[key];
  }

  lemma NamedKept(c: Setup, w: World, w': World, key: string, s': Sys)
    requires Named(c, w) && key in w.insts && w'.insts == w.insts[key := s'] && s'.dealing == w.insts[key].dealing
    ensures Named(c, w')
  {
  }

  lemma RevealsKept(net: Net, w: World, w': World, key: string, s': Sys)
    requires OnlyHonestReveals(net, w) && w'.insts == w.insts[key := s']
    requires forall i, f :: Reveal(i, f) in s'.board ==> i in net.H()
    ensures OnlyHonestReveals(net, w')
  {
  }

  lemma SharingMove(c: Setup, w: World, key: string, e: Event)
    requires c.Live() && SharingOk(c, w) && CanStep(c.net, w, key, e) && !(e.Post? && e.payload.Reveal?)
    ensures SharingOk(c, Step(c.net, w, key, e))
  {
    ReachableInv(c.net, w);
    ReachableStep(c.net, w, key, e);
    var w' := Step(c.net, w, key, e);
    var s' := StepElsewhere(c.net, w, key, e);
    forall i, f | Reveal(i, f) in s'.board ensures i in c.net.H() {
      assert w'.insts[key] == s';
      StepReveals(c.net, w, key, e, i, f);
    }
    NamedKept(c, w, w', key, s');
    RevealsKept(c.net, w, w', key, s');
  }

  /** What the sharing layer outputs is the dealt secret. */
  lemma RebuiltIsDealt(c: Setup, w: World, x: (int, int), i: int, v: int)
    requires c.Live() && SharingOk(c, w) && x in c.name && HasOutput(w, c.name[x], i, Reconstructed(v))
    ensures x in c.Coin().secrets && c.Coin().secrets[x] == v
  {
    SilentFaulty(c.net, w, c.name[x], i, v);
  }

  lemma CoinMove(c: Setup, st: State, i: int, e: C.Event)
    requires c.Live() && SharingOk(c, st.sharing) && CoinEnabled(c, st, i, e)
    ensures R.Enabled(c.Coin(), st.coin, i, e)
  {
    if e.Rebuilt? {
      RebuiltIsDealt(c, st.sharing, (e.dealer, e.index), i, e.value);
    }
  }

  /** Every joint run is, for the coin, a run in which dealt secrets come back. */
  lemma {:induction false} JointRunRefines(c: Setup, st: State, moves: seq<Move>, st': State)
    returns (steps: seq<(int, C.Event)>)
    requires c.Live() && SharingOk(c, st.sharing) && JointRun(c, st, moves, st') && forall m :: m in moves ==> Silent(m)
    ensures SharingOk(c, st'.sharing) && R.Run(c.Coin(), st.coin, steps, st'.coin)
    decreases |moves|
  {
    if moves == [] {
      steps := [];
    } else {
      var next := Next(c, st, moves[0]);
      assert Silent(moves[0]);
      match moves[0]
      case Sharing(key, e) =>
        SharingMove(c, st.sharing, key, e);
        steps := JointRunRefines(c, next, moves[1..], st');
      case Coin(i, e) =>
        CoinMove(c, st, i, e);
        var rest := JointRunRefines(c, next, moves[1..], st');
        steps := [(i, e)] + rest;
        assert steps[1..] == rest;
    }
  }

  /**
   With the sharing layer underneath: every set any node ever fixes or receives is the live set, and every coin is
   the one the dealt secrets determine.
   */
  lemma CommonCoinOverSharing(c: Setup, st0: State, moves: seq<Move>, st: State, i: int)
    requires c.Live() && JointInit(c, st0) && Named(c, st0.sharing) && JointRun(c, st0, moves, st) && i in c.net.H()
    requires forall m :: m in moves ==> Silent(m)
    ensures i in st.coin.nodes
    ensures var icc, live := st.coin.nodes[i], c.net.H();
      && (icc.myT.Some? ==> icc.myT.value == live) && (icc.myA.Some? ==> icc.myA.value == live)
      && (icc.myS.Some? ==> icc.myS.value == live)
      && (forall a :: 0 <= a < |icc.finals| ==> icc.finals[a] == C.Final(live, live))
      && (icc.coin.Some? ==> icc.coin.value == R.TheCoin(c.Coin()))
  {
    InitReachable(c.net, st0.sharing);
    HonestCount(c.net.cfg);
    assert R.Init(c.Coin(), st0.coin);
    var steps := JointRunRefines(c, st0, moves, st);
    R.CommonCoin(c.Coin(), st0.coin, steps, st.coin, i);
  }
}
