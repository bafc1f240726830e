/**
 Runs of verifiable secret sharing: any number of instances at once, any schedule, any dealer. Nodes that follow
 the code react with the functions of `IVSSNode`; the others send and cast what they like, under their own names.
 */
module IVSSRuns {
  import opened Quorums
  import opened Modular
  import opened Lagrange
  import opened Bivariate
  import opened CommitmentLimit
  import opened Certification
  import opened IVSS
  import opened IVSSNode

  /** At least two nodes with good ids, over a prime field. */
  datatype Net = Net(cfg: Config, p: int) {
    ghost predicate Valid() {
      cfg.Valid() && cfg.n > 1 && Prime(p) && GoodIds(p, cfg.ids)
    }

    function H(): set<int> {
      cfg.Honest()
    }
  }

  /** A node's state in one instance and what it has output there. */
  datatype Node = Node(inst: Instance, results: seq<Result>)

  /**
   One instance: `board` holds what was A-Cast, `points` the point-to-point values honest nodes sent as
   (from, to, value), and `dealing` the dealer's polynomial when the dealer follows the code.
   */
  datatype Sys = Sys(board: set<Payload>, points: set<(int, int, int)>, dealing: Option<seq<seq<int>>>,
                     nodes: map<int, Node>)

  /** All instances, and the faulty pairs each honest node has recorded across them. */
  datatype World = World(fp: map<int, set<(int, int)>>, insts: map<string, Sys>)

  datatype Event =
    | Deal(k: int, from: int, poly: seq<int>, order: seq<int>)
    | Sampled(k: int, from: int, value: int)
    | Post(payload: Payload)
    | Deliver(k: int, payload: Payload, order: seq<int>)
    | Begin(k: int)

  // ------------------------------------------------------------------------ steps

  ghost function Casts(sent: seq<Out>): set<Payload> {
    set o | o in sent && o.Cast? && !o.payload.MSet? :: o.payload
  }

  ghost function SentPoints(k: int, sent: seq<Out>): set<(int, int, int)> {
    set o | o in sent && o.Point? :: (k, o.to, o.value)
  }

  ghost function Moved(s: Sys, k: int, e: Effect): Sys
    requires k in s.nodes
  {
    s.(board := s.board + Casts(e.sent), points := s.points + SentPoints(k, e.sent),
       nodes := s.nodes[k := Node(e.inst, s.nodes[k].results + e.results)])
  }

  /** What `StartReconstruction` does to a node: nothing but casting. */
  function Begun(id: int, inst: Instance): Effect {
    var sent := StartReconstruction(id, inst);
    Effect(inst, if sent.Some? then sent.value else [], [], {})
  }

  /** Casts of nodes that do not follow the code: under their own name, one polynomial each, one member list in all. */
  ghost predicate MayPost(net: Net, s: Sys, x: Payload) {
    match x
    case Equal(i, j) => i in net.cfg.byz
    case MSet(m) => forall m' :: MSet(m') !in s.board
    case Reveal(i, f) => i in net.cfg.byz && |f| <= net.cfg.t + 1 && forall g :: Reveal(i, g) !in s.board
    case Ready(i) => i in net.cfg.byz
  }

  ghost predicate Enabled(net: Net, s: Sys, e: Event)
    requires net.p > 0
  {
    match e
    case Deal(k, from, poly, order) =>
      && k in s.nodes && s.nodes[k].inst.received.None? && |poly| <= net.cfg.t + 1
      && Lists(order, s.nodes[k].inst.early.Keys)
      && (s.dealing.Some? ==>
            Rectangular(s.dealing.value, |s.dealing.value|) && SliceOf(net.p, s.dealing.value, k, poly))
    case Sampled(k, from, value) =>
      k in s.nodes && (from in net.H() ==> (from, k, value) in s.points)
    case Post(x) => MayPost(net, s, x)
    case Deliver(k, x, order) =>
      && k in s.nodes && x in s.board
      && (x.MSet? ==> s.nodes[k].inst.pending.None? && !s.nodes[k].inst.completed)
      && (x.Reveal? ==> Lists(order, Candidates(Revealed(s.nodes[k].inst, x.sender, x.poly))))
    case Begin(k) => k in s.nodes
  }

  function Revealed(inst: Instance, sender: int, poly: seq<int>): Instance {
    inst.(polys := inst.polys[sender := poly])
  }

  /** The node that acts and what it does. */
  ghost function Reaction(net: Net, fp: set<(int, int)>, s: Sys, e: Event): Effect
    requires net.p > 0 && Enabled(net, s, e) && !e.Post?
  {
    var n, t, p := net.cfg.n, net.cfg.t, net.p;
    var inst := s.nodes[e.k].inst;
    match e
    case Deal(k, from, poly, order) => OnShare(n, p, k, inst, from, poly, order)
    case Sampled(k, from, value) => OnPoint(p, k, inst, from, value)
    case Deliver(k, x, order) => CastEffect(n, t, p, k, fp, inst, x, order)
    case Begin(k) => Begun(k, inst)
  }

  ghost predicate CanStep(net: Net, w: World, key: string, e: Event)
    requires net.p > 0
  {
    key in w.insts && Enabled(net, w.insts[key], e) && (!e.Post? ==> e.k in w.fp)
  }

  ghost function Step(net: Net, w: World, key: string, e: Event): World
    requires net.p > 0 && CanStep(net, w, key, e)
  {
    var s := w.insts[key];
    if e.Post? then w.(insts := w.insts[key := s.(board := s.board + {e.payload})])
    else
      var r := Reaction(net, w.fp[e.k], s, e);
      World(w.fp[e.k := w.fp[e.k] + r.blamed], w.insts[key := Moved(s, e.k, r)])
  }

  ghost predicate InitSys(net: Net, s: Sys) {
    && s.board == {} && s.points == {} && s.nodes.Keys == net.H()
    && (s.dealing.Some? ==> |s.dealing.value| == net.cfg.t + 1 && Symmetric(s.dealing.value))
    && forall k :: k in s.nodes ==> s.nodes[k] == Node(Fresh(s.nodes[k].inst.dealer), [])
  }

  ghost predicate Init(net: Net, w: World) {
    && w.fp.Keys == net.H()
    && (forall k :: k in w.fp ==> w.fp[k] == {})
    && (forall key :: key in w.insts ==> InitSys(net, w.insts[key]))
  }

  /** `w'` comes from `w` by the listed events. */
  ghost predicate Run(net: Net, w: World, steps: seq<(string, Event)>, w': World)
    requires net.p > 0
    decreases |steps|
  {
    if steps == [] then w == w'
    else
      && CanStep(net, w, steps[0].0, steps[0].1)
      && Run(net, Step(net, w, steps[0].0, steps[0].1), steps[1..], w')
  }

  // -------------------------------------------------------------------- invariant

  function Got(s: Sys, k: int): Option<seq<int>> {
    if k in s.nodes then s.nodes[k].inst.received else None
  }

  /** The polynomials of `i` and `j` agree where they meet. */
  predicate Meet(p: int, f: seq<int>, i: int, g: seq<int>, j: int)
    requires p > 0
  {
    Eval(f, j) % p == Eval(g, i) % p
  }

  predicate HonestEqual(net: Net, s: Sys, i: int, j: int)
    requires net.p > 0
  {
    && Got(s, i).Some?
    && (j in net.H() ==> Got(s, j).Some? && Meet(net.p, Got(s, i).value, i, Got(s, j).value, j))
  }

  /** Why a cast may be on the board. */
  predicate Justified(net: Net, s: Sys, x: Payload)
    requires net.p > 0
  {
    match x
    case Equal(i, j) => i in net.cfg.ids && (i in net.H() ==> HonestEqual(net, s, i, j))
    case MSet(m) => true
    case Reveal(i, f) => i in net.cfg.ids && |f| <= net.cfg.t + 1 && (i in net.H() ==> Got(s, i) == Some(f))
    case Ready(i) => i in net.cfg.ids && (i in net.H() ==> i in s.nodes && s.nodes[i].inst.secret.Some?)
  }

  ghost predicate BoardOk(net: Net, s: Sys)
    requires net.p > 0
  {
    && (forall x :: x in s.board ==> Justified(net, s, x))
    && (forall i, f, g :: Reveal(i, f) in s.board && Reveal(i, g) in s.board ==> f == g)
    && (forall m, m' :: MSet(m) in s.board && MSet(m') in s.board ==> m == m')
  }

  predicate PointOk(net: Net, s: Sys, from: int, to: int, value: int)
    requires net.p > 0
  {
    Got(s, from).Some? && value == Eval(Got(s, from).value, to) % net.p
  }

  ghost predicate PointsOk(net: Net, s: Sys)
    requires net.p > 0
  {
    forall from, to, value :: (from, to, value) in s.points ==> PointOk(net, s, from, to, value)
  }

  /** Shares are short, and slices of the dealer's polynomial if the dealer follows the code. */
  ghost predicate SharesOk(net: Net, s: Sys)
    requires net.p > 0
  {
    && (s.dealing.Some? ==> |s.dealing.value| == net.cfg.t + 1 && Symmetric(s.dealing.value))
    && forall k :: k in s.nodes && Got(s, k).Some? ==> ShareOk(net, s, k, Got(s, k).value)
  }

  ghost predicate ShareOk(net: Net, s: Sys, k: int, f: seq<int>)
    requires net.p > 0
  {
    && |f| <= net.cfg.t + 1
    && (s.dealing.Some? && Rectangular(s.dealing.value, |s.dealing.value|) ==> SliceOf(net.p, s.dealing.value, k, f))
  }

  /** The members of `m` confirmed each other on the board. */
  ghost predicate AllEqual(equals: set<(int, int)>, m: seq<int>) {
    forall a, b :: 0 <= a < b < |m| ==> (m[a], m[b]) in equals && (m[b], m[a]) in equals
  }

  ghost predicate OnBoard(board: set<Payload>, m: seq<int>) {
    && MSet(m) in board
    && forall a, b :: 0 <= a < b < |m| ==> Equal(m[a], m[b]) in board && Equal(m[b], m[a]) in board
  }

  /** `v` is what the polynomials revealed by `valid`, members of `m`, interpolate to. */
  ghost predicate EarnedBy(net: Net, board: set<Payload>, v: int, polys: map<int, seq<int>>, valid: seq<int>,
                           m: seq<int>)
    requires net.p > 0
  {
    && |m| >= net.cfg.n - net.cfg.t && OnBoard(board, m)
    && Unique(valid) && |valid| >= Target(net.cfg.n, net.cfg.t) && AllConsistent(net.p, polys, valid)
    && (forall a :: 0 <= a < |valid| ==>
          valid[a] in m && valid[a] in polys && Reveal(valid[a], polys[valid[a]]) in board)
    && v == SecretOf(net.p, polys, valid)
  }

  ghost predicate Earned(net: Net, board: set<Payload>, v: int)
    requires net.p > 0
  {
    exists polys, valid, m :: EarnedBy(net, board, v, polys, valid, m)
  }

  /** What a node stores is on the board. */
  ghost predicate Stored(net: Net, s: Sys, k: int, inst: Instance)
    requires net.p > 0
  {
    && (forall i, j :: (i, j) in inst.equals ==> Equal(i, j) in s.board)
    && (forall i :: i in inst.polys ==> Reveal(i, inst.polys[i]) in s.board)
    && (forall i :: i in inst.ready ==> Ready(i) in s.board)
    && (forall from :: from in inst.early && from in net.H() ==> (from, k, inst.early[from]) in s.points)
    && (inst.pending.Some? ==> MSet(inst.pending.value) in s.board)
    && (inst.secret.Some? ==> Earned(net, s.board, inst.secret.value))
  }

  /** An agreed set was verified. */
  ghost predicate Agreed(net: Net, s: Sys, inst: Instance) {
    && (inst.completed <==> inst.mSet.Some?)
    && (inst.completed ==>
          && |inst.mSet.value| >= net.cfg.n - net.cfg.t && AllEqual(inst.equals, inst.mSet.value)
          && MSet(inst.mSet.value) in s.board)
  }

  /** No lost wake-up: a list that waits does not pass, and a node with everything it needs has output. */
  ghost predicate Awake(net: Net, fp: set<(int, int)>, k: int, inst: Instance) {
    && (inst.pending.Some? ==> !inst.completed && !Verified(net.cfg.n, net.cfg.t, inst.equals, fp, inst.pending.value))
    && (inst.secret.Some? && k in inst.ready && |inst.ready| >= net.cfg.n - net.cfg.t ==> inst.reconstructed)
    && (inst.reconstructed ==> inst.secret.Some? && |inst.ready| >= net.cfg.n - net.cfg.t)
  }

  function Completions(results: seq<Result>): nat {
    if results == [] then 0
    else Completions(results[..|results| - 1]) + (if results[|results| - 1].SharingComplete? then 1 else 0)
  }

  function Reconstructions(results: seq<Result>): nat {
    if results == [] then 0
    else Reconstructions(results[..|results| - 1]) + (if results[|results| - 1].Reconstructed? then 1 else 0)
  }

  /** Each output appears exactly once, and what was reconstructed was earned. */
  ghost predicate Output(net: Net, s: Sys, nd: Node)
    requires net.p > 0
  {
    && Completions(nd.results) == (if nd.inst.completed then 1 else 0)
    && Reconstructions(nd.results) == (if nd.inst.reconstructed then 1 else 0)
    && forall v :: Reconstructed(v) in nd.results ==> Earned(net, s.board, v)
  }

  ghost predicate NodeOk(net: Net, s: Sys, fp: set<(int, int)>, k: int, nd: Node)
    requires net.p > 0
  {
    Stored(net, s, k, nd.inst) && Agreed(net, s, nd.inst) && Awake(net, fp, k, nd.inst) && Output(net, s, nd)
  }

  ghost predicate SysInv(net: Net, fp: map<int, set<(int, int)>>, s: Sys)
    requires net.p > 0 && fp.Keys == net.H()
  {
    && s.nodes.Keys == net.H() && BoardOk(net, s) && PointsOk(net, s) && SharesOk(net, s)
    && forall k :: k in s.nodes ==> NodeOk(net, s, fp[k], k, s.nodes[k])
  }

  /** No pair of honest nodes is marked. */
  ghost predicate FpSound(net: Net, fp: set<(int, int)>) {
    forall i, j :: i in net.H() && j in net.H() ==> !Faulty(fp, i, j)
  }

  ghost predicate AllFpSound(net: Net, fp: map<int, set<(int, int)>>) {
    forall k :: k in fp ==> FpSound(net, fp[k])
  }

  ghost predicate AllSound(net: Net, fp: map<int, set<(int, int)>>, insts: map<string, Sys>)
    requires net.p > 0 && fp.Keys == net.H()
  {
    forall key :: key in insts ==> SysInv(net, fp, insts[key])
  }

  ghost predicate Inv(net: Net, w: World)
    requires net.p > 0
  {
    && w.fp.Keys == net.H()
    && AllFpSound(net, w.fp)
    && AllSound(net, w.fp, w.insts)
  }
}
