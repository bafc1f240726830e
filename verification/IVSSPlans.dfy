/**
 Every choice of slices, of polynomials revealed by the faulty nodes, and of reveals read by each honest node is
 played out by a run in which all honest nodes reconstruct what their reveals interpolate to, provided only that the
 polynomials agree where the code compares them.
 */
module IVSSPlans {
  import opened Quorums
  import opened Lagrange
  import opened Sharing
  import opened Bivariate
  import opened Commitment
  import opened IVSS
  import opened IVSSNode
  import opened IVSSRuns
  import opened IVSSScript
  import opened IVSSSchedule
  import opened IVSSTheorems

  /** The polynomial of each node, and the reveals each honest node reads. */
  datatype Plan = Plan(dealer: int, polys: map<int, seq<int>>, members: seq<int>, read: map<int, set<int>>)

  ghost predicate Shares(net: Net, dealing: Option<seq<seq<int>>>, polys: map<int, seq<int>>)
    requires net.p > 0
  {
    && polys.Keys == net.cfg.ids && Sized(net.cfg.ids, polys, net.cfg.t + 1) && Clique(net.p, net.H(), polys)
    && (dealing.Some? ==> |dealing.value| == net.cfg.t + 1 && Symmetric(dealing.value))
    && forall k :: k in net.H() ==> MayHold(net, dealing, k, polys[k])
  }

  ghost predicate Reads(net: Net, polys: map<int, seq<int>>, read: map<int, set<int>>)
    requires net.p > 0
  {
    && read.Keys == net.H()
    && forall k :: k in read ==>
         read[k] <= net.cfg.ids && |read[k]| >= net.cfg.n - 2 * net.cfg.t && Clique(net.p, read[k], polys)
  }

  /** Nodes are numbered `1..n`; honest slices agree, and so do the reveals each honest node reads. */
  ghost predicate Fits(net: Net, dealing: Option<seq<seq<int>>>, pl: Plan) {
    && net.Valid() && (forall i :: i in net.cfg.ids ==> 1 <= i <= net.cfg.n)
    && Shares(net, dealing, pl.polys) && Lists(pl.members, net.cfg.ids) && |pl.members| == net.cfg.n
    && Reads(net, pl.polys, pl.read)
  }

  // ---------------------------------------------------------------- what gets out

  ghost function Posted(net: Net, pl: Plan): set<Payload>
    requires pl.polys.Keys == net.cfg.ids && net.cfg.byz <= net.cfg.ids
  {
    (set i, j | i in net.cfg.byz && j in net.cfg.ids :: Equal(i, j)) + {MSet(pl.members)}
    + (set i | i in net.cfg.byz :: Reveal(i, pl.polys[i])) + (set i | i in net.cfg.byz :: Ready(i))
  }

  ghost function AllPoints(net: Net, polys: map<int, seq<int>>): set<(int, int, int)>
    requires net.p > 0 && polys.Keys == net.cfg.ids
  {
    set i, j | i in net.H() && j in net.cfg.ids :: (i, j, Eval(polys[i], j) % net.p)
  }

  ghost function Equals(ids: set<int>): set<Payload> {
    set i, j | i in ids && j in ids :: Equal(i, j)
  }

  ghost function Pairs(ids: set<int>): set<(int, int)> {
    set i, j | i in ids && j in ids :: (i, j)
  }

  ghost function Reveals(polys: map<int, seq<int>>): set<Payload> {
    set i | i in polys :: Reveal(i, polys[i])
  }

  ghost function Readies(ids: set<int>): set<Payload> {
    set i | i in ids :: Ready(i)
  }

  // -------------------------------------------------------------- states of a node

  ghost function Ending(net: Net, pl: Plan, k: int): Node
    requires k in pl.polys
  {
    Ended(pl.dealer, pl.polys[k], Pairs(net.cfg.ids), pl.members)
  }

  ghost function Reading(net: Net, pl: Plan, k: int): Node
    requires net.p > 0 && k in pl.polys && k in pl.read && pl.read[k] <= pl.polys.Keys
  {
    var nd := Ending(net, pl, k);
    Node(Opened(net, nd.inst, pl.polys, pl.read[k]), nd.results)
  }

  ghost function Finishing(net: Net, pl: Plan, k: int, heard: set<int>): Node
    requires net.p > 0 && k in pl.polys && k in pl.read && pl.read[k] <= pl.polys.Keys
  {
    Heard(net, Reading(net, pl, k), ValueOf(net.p, pl.polys, pl.read[k]), heard)
  }

  // ------------------------------------------------------------------ the sharing

  ghost function Start(net: Net, dealing: Option<seq<seq<int>>>, dealer: int): Sys {
    Sys({}, {}, dealing, FreshNodes(net.H(), dealer))
  }

  ghost function FreshNodes(h: set<int>, dealer: int): map<int, Node> {
    map k | k in h :: Node(Fresh(dealer), [])
  }

  lemma PostedApart(net: Net, dealing: Option<seq<seq<int>>>, pl: Plan)
    requires Fits(net, dealing, pl)
    ensures Postable(net, Posted(net, pl))
  {
    forall x | x in Posted(net, pl) ensures Foreign(net, x) {
      PostedForeign(net, dealing, pl, x);
    }
  }

  lemma PostedForeign(net: Net, dealing: Option<seq<seq<int>>>, pl: Plan, x: Payload)
    requires Fits(net, dealing, pl) && x in Posted(net, pl)
    ensures Foreign(net, x)
  {
    if x.Reveal? {
      assert |Slice(pl.polys, x.sender)| <= net.cfg.t + 1;
    }
  }

  lemma PostPhase(net: Net, s: Sys, posted: set<Payload>)
    requires net.p > 0 && s.board == {} && s.points == {} && Postable(net, posted)
    ensures CanReach(net, s, View(s.nodes, posted, {}))
  {
    assert s.board + posted == posted;
    PostAll(net, s, posted);
    assert Shows(s.(board := posted), View(s.nodes, posted, {}), s.dealing);
  }

  ghost function HoldingNodes(h: set<int>, dealer: int, polys: map<int, seq<int>>): map<int, Node>
    requires h <= polys.Keys
  {
    map k | k in h :: Node(Holding(dealer, polys[k]), [])
  }

  ghost function Undealt(h: set<int>, dealer: int): map<int, Stage> {
    map k | k in h :: Stage(Node(Fresh(dealer), []), {}, {})
  }

  ghost function Dealt(net: Net, dealer: int, polys: map<int, seq<int>>): map<int, Stage>
    requires net.p > 0 && polys.Keys == net.cfg.ids
  {
    map k | k in net.H() :: Stage(Node(Holding(dealer, polys[k]), []), {}, PointsOf(net, k, polys[k]))
  }

  lemma PointsSupplied(net: Net, dealer: int, polys: map<int, seq<int>>, was: View, now: View)
    requires net.p > 0 && polys.Keys == net.cfg.ids
    requires now.casts <= was.casts && now.points == AllPoints(net, polys)
    ensures Supplied(Dealt(net, dealer, polys), net.H(), was, now)
  {
    var b := Dealt(net, dealer, polys);
    forall x | x in now.points ensures exists k :: k in net.H() && k in b && x in b[k].points {
      assert x in b[x.0].points;
    }
  }

  lemma DealNodes(net: Net, dealer: int, polys: map<int, seq<int>>)
    requires net.p > 0 && polys.Keys == net.cfg.ids
    ensures NodesAt(Undealt(net.H(), dealer)) == FreshNodes(net.H(), dealer)
    ensures NodesAt(Dealt(net, dealer, polys)) == HoldingNodes(net.H(), dealer, polys)
  {
  }

  lemma DealGoes(net: Net, s: Sys, dealer: int, polys: map<int, seq<int>>, posted: set<Payload>)
    requires net.p > 0 && polys.Keys == net.cfg.ids && forall i :: i in net.cfg.ids ==> 1 <= i <= net.cfg.n
    requires forall k :: k in net.H() ==> MayHold(net, s.dealing, k, polys[k])
    ensures AllGo(net, s, Undealt(net.H(), dealer), Dealt(net, dealer, polys),
                  View(FreshNodes(net.H(), dealer), posted, {}))
  {
    forall k | k in net.H()
      ensures Goes(net, s, k, Undealt(net.H(), dealer)[k], Dealt(net, dealer, polys)[k])
    {
      DealStep(net, s, k, dealer, polys[k]);
    }
  }

  lemma DealPhase(net: Net, s: Sys, dealer: int, polys: map<int, seq<int>>, posted: set<Payload>)
    requires net.p > 0 && polys.Keys == net.cfg.ids && forall i :: i in net.cfg.ids ==> 1 <= i <= net.cfg.n
    requires forall k :: k in net.H() ==> MayHold(net, s.dealing, k, polys[k])
    requires CanReach(net, s, View(FreshNodes(net.H(), dealer), posted, {}))
    ensures CanReach(net, s, View(HoldingNodes(net.H(), dealer, polys), posted, AllPoints(net, polys)))
  {
    var was := View(FreshNodes(net.H(), dealer), posted, {});
    var now := View(HoldingNodes(net.H(), dealer, polys), posted, AllPoints(net, polys));
    DealNodes(net, dealer, polys);
    DealGoes(net, s, dealer, polys, posted);
    PointsSupplied(net, dealer, polys, was, now);
    Everyone(net, s, Undealt(net.H(), dealer), Dealt(net, dealer, polys), was, now);
  }

  // ------------------------------------------------------------- the confirmations

  /** The point an honest node sends is the one its receiver expects. */
  lemma Expected(net: Net, polys: map<int, seq<int>>, k: int, j: int)
    requires net.p > 0 && polys.Keys == net.cfg.ids && k in net.H() && Clique(net.p, net.H(), polys)
    ensures Expects(net, AllPoints(net, polys), k, polys[k], j)
  {
    if j in net.H() {
      assert Agree(net.p, polys, k, j);
      ConsistentAgree(net.p, polys, k, j);
      assert (j, k, Eval(polys[j], k) % net.p) in AllPoints(net, polys);
    }
  }

  lemma ConfirmGoes(net: Net, s: Sys, dealer: int, polys: map<int, seq<int>>, casts: set<Payload>, k: int)
    requires net.p > 0 && polys.Keys == net.cfg.ids && Clique(net.p, net.H(), polys) && k in net.H()
    ensures Goes(net, s, k, Stage(Node(Holding(dealer, polys[k]), []), casts, AllPoints(net, polys)),
                 Stage(Node(Holding(dealer, polys[k]), []), casts + Confirms(k, net.cfg.ids), AllPoints(net, polys)))
  {
    forall j | j in net.cfg.ids {
      Expected(net, polys, k, j);
    }
    SampleAll(net, s, k, dealer, polys[k], net.cfg.ids, casts, AllPoints(net, polys));
  }

  ghost function Confirmations(h: set<int>, ids: set<int>): map<int, set<Payload>> {
    map k | k in h :: Confirms(k, ids)
  }

  lemma EqualsOut(net: Net, casts: set<Payload>, x: Payload)
    requires forall i, j :: i in net.cfg.byz && j in net.cfg.ids ==> Equal(i, j) in casts
    requires x in Equals(net.cfg.ids)
    ensures x in casts || exists k :: k in net.H() && x in Confirmations(net.H(), net.cfg.ids)[k]
  {
    if x !in casts {
      assert x.i in net.H() && x in Confirmations(net.H(), net.cfg.ids)[x.i];
    }
  }

  lemma ConfirmPhase(net: Net, s: Sys, dealer: int, polys: map<int, seq<int>>, casts: set<Payload>)
    requires net.p > 0 && polys.Keys == net.cfg.ids && Clique(net.p, net.H(), polys)
    requires forall i, j :: i in net.cfg.byz && j in net.cfg.ids ==> Equal(i, j) in casts
    requires CanReach(net, s, View(HoldingNodes(net.H(), dealer, polys), casts, AllPoints(net, polys)))
    ensures CanReach(net, s, View(HoldingNodes(net.H(), dealer, polys), casts + Equals(net.cfg.ids), {}))
  {
    var nodes, points := HoldingNodes(net.H(), dealer, polys), AllPoints(net, polys);
    forall k | k in nodes {
      ConfirmGoes(net, s, dealer, polys, casts, k);
    }
    forall x | x in Equals(net.cfg.ids) {
      EqualsOut(net, casts, x);
    }
    var now := casts + Equals(net.cfg.ids);
    Together(net, s, nodes, nodes, casts, Confirmations(net.H(), net.cfg.ids), points, now);
    Forget(net, s, View(nodes, now, points), View(nodes, now, {}));
  }

  // -------------------------------------------------------------- the agreed set

  ghost function EndNodes(net: Net, pl: Plan): map<int, Node>
    requires pl.polys.Keys == net.cfg.ids
  {
    map k | k in net.H() :: Ending(net, pl, k)
  }

  lemma ListVerified(net: Net, m: seq<int>)
    requires Lists(m, net.cfg.ids) && |m| == net.cfg.n
    ensures Verified(net.cfg.n, net.cfg.t, Pairs(net.cfg.ids), {}, m)
  {
    forall a, b | 0 <= a < b < |m| ensures Confirmed(Pairs(net.cfg.ids), {}, m[a], m[b]) {
    }
  }

  /** A node reads all confirmations and the list, and reveals its polynomial. */
  lemma EndGoes(net: Net, s: Sys, d: int, f: seq<int>, m: seq<int>, casts: set<Payload>, k: int)
    requires net.p > 0 && k in net.H() && Lists(m, net.cfg.ids) && |m| == net.cfg.n
    requires Equals(net.cfg.ids) + {MSet(m)} <= casts
    ensures Goes(net, s, k, Stage(Node(Holding(d, f), []), casts, {}),
                 Stage(Ended(d, f, Pairs(net.cfg.ids), m), casts + {Reveal(k, f)}, {}))
  {
    var all := Pairs(net.cfg.ids);
    var s0, s1 := Stage(Node(Holding(d, f), []), casts, {}), Stage(Node(Knowing(d, f, all), []), casts, {});
    var s2, s3 := Stage(Ended(d, f, all, m), casts, {}), Stage(Ended(d, f, all, m), casts + {Reveal(k, f)}, {});
    forall x | x in all ensures Equal(x.0, x.1) in casts {
      assert Equal(x.0, x.1) in Equals(net.cfg.ids);
    }
    EqualAll(net, s, k, d, f, all, casts);
    ListVerified(net, m);
    MSetStep(net, s, k, d, f, all, m, casts);
    GoesOn(net, s, k, s0, s1, s2);
    BeginStep(net, s, k, d, f, all, m, casts);
    GoesOn(net, s, k, s0, s2, s3);
  }

  ghost function OwnReveals(h: set<int>, polys: map<int, seq<int>>): map<int, set<Payload>>
    requires h <= polys.Keys
  {
    map k | k in h :: {Reveal(k, polys[k])}
  }

  lemma RevealsOut(net: Net, polys: map<int, seq<int>>, casts: set<Payload>, x: Payload)
    requires polys.Keys == net.cfg.ids && x in Reveals(polys)
    requires forall i :: i in net.cfg.byz && i in polys ==> Reveal(i, polys[i]) in casts
    ensures x in casts || exists k :: k in net.H() && x in OwnReveals(net.H(), polys)[k]
  {
    if x !in casts {
      assert x.sender in net.H() && x in OwnReveals(net.H(), polys)[x.sender];
    }
  }

  lemma EndPhase(net: Net, s: Sys, pl: Plan, casts: set<Payload>)
    requires net.p > 0 && pl.polys.Keys == net.cfg.ids
    requires Lists(pl.members, net.cfg.ids) && |pl.members| == net.cfg.n
    requires Equals(net.cfg.ids) + {MSet(pl.members)} <= casts
    requires forall i :: i in net.cfg.byz && i in pl.polys ==> Reveal(i, pl.polys[i]) in casts
    requires CanReach(net, s, View(HoldingNodes(net.H(), pl.dealer, pl.polys), casts, {}))
    ensures CanReach(net, s, View(EndNodes(net, pl), casts + Reveals(pl.polys), {}))
  {
    forall k | k in net.H() {
      EndGoes(net, s, pl.dealer, pl.polys[k], pl.members, casts, k);
    }
    forall x | x in Reveals(pl.polys) {
      RevealsOut(net, pl.polys, casts, x);
    }
    Together(net, s, HoldingNodes(net.H(), pl.dealer, pl.polys), EndNodes(net, pl), casts,
             OwnReveals(net.H(), pl.polys), {}, casts + Reveals(pl.polys));
  }

  // ------------------------------------------------------------ the reconstruction

  ghost function ReadNodes(net: Net, pl: Plan): map<int, Node>
    requires net.p > 0 && pl.polys.Keys == net.cfg.ids && Reads(net, pl.polys, pl.read)
  {
    map k | k in net.H() :: Reading(net, pl, k)
  }

  lemma ReadGoes(net: Net, s: Sys, pl: Plan, casts: set<Payload>, k: int)
    requires net.p > 0 && pl.polys.Keys == net.cfg.ids && Reads(net, pl.polys, pl.read) && k in net.H()
    requires net.cfg.n > 2 * net.cfg.t && Lists(pl.members, net.cfg.ids) && Reveals(pl.polys) <= casts
    ensures Goes(net, s, k, Stage(Ending(net, pl, k), casts, {}), Stage(Reading(net, pl, k), casts + {Ready(k)}, {}))
  {
    var read := pl.read[k];
    forall i | i in read ensures Reveal(i, pl.polys[i]) in casts {
      assert Reveal(i, pl.polys[i]) in Reveals(pl.polys);
    }
    RevealAll(net, s, k, Ending(net, pl, k), pl.polys, read, casts);
  }

  ghost function OwnReadies(h: set<int>): map<int, set<Payload>> {
    map k | k in h :: {Ready(k)}
  }

  lemma ReadiesOut(net: Net, casts: set<Payload>, x: Payload)
    requires x in Readies(net.cfg.ids) && forall i :: i in net.cfg.byz ==> Ready(i) in casts
    ensures x in casts || exists k :: k in net.H() && x in OwnReadies(net.H())[k]
  {
    if x !in casts {
      assert x.sender in net.H() && x in OwnReadies(net.H())[x.sender];
    }
  }

  lemma ReadPhase(net: Net, s: Sys, pl: Plan, casts: set<Payload>)
    requires net.p > 0 && pl.polys.Keys == net.cfg.ids && Reads(net, pl.polys, pl.read)
    requires net.cfg.n > 2 * net.cfg.t && Lists(pl.members, net.cfg.ids) && Reveals(pl.polys) <= casts
    requires forall i :: i in net.cfg.byz ==> Ready(i) in casts
    requires CanReach(net, s, View(EndNodes(net, pl), casts, {}))
    ensures CanReach(net, s, View(ReadNodes(net, pl), casts + Readies(net.cfg.ids), {}))
  {
    forall k | k in net.H() {
      ReadGoes(net, s, pl, casts, k);
    }
    forall x | x in Readies(net.cfg.ids) {
      ReadiesOut(net, casts, x);
    }
    Together(net, s, EndNodes(net, pl), ReadNodes(net, pl), casts, OwnReadies(net.H()), {},
             casts + Readies(net.cfg.ids));
  }

  // -------------------------------------------------------------------- the output

  ghost function LastNodes(net: Net, pl: Plan, heard: set<int>): map<int, Node>
    requires net.p > 0 && pl.polys.Keys == net.cfg.ids && Reads(net, pl.polys, pl.read)
  {
    map k | k in net.H() :: Finishing(net, pl, k, heard)
  }

  lemma LastGoes(net: Net, s: Sys, pl: Plan, heard: set<int>, casts: set<Payload>, k: int)
    requires net.p > 0 && pl.polys.Keys == net.cfg.ids && Reads(net, pl.polys, pl.read) && k in net.H()
    requires net.cfg.n > net.cfg.t && |heard| <= net.cfg.n - net.cfg.t && Readies(heard) <= casts
    ensures Goes(net, s, k, Stage(Reading(net, pl, k), casts, {}), Stage(Finishing(net, pl, k, heard), casts + {}, {}))
  {
    forall i | i in heard ensures Ready(i) in casts {
      assert Ready(i) in Readies(heard);
    }
    ReadyAll(net, s, k, Reading(net, pl, k), ValueOf(net.p, pl.polys, pl.read[k]), heard, casts);
    assert casts + {} == casts;
  }

  lemma LastPhase(net: Net, s: Sys, pl: Plan, heard: set<int>, casts: set<Payload>)
    requires net.p > 0 && pl.polys.Keys == net.cfg.ids && Reads(net, pl.polys, pl.read)
    requires net.cfg.n > net.cfg.t && |heard| <= net.cfg.n - net.cfg.t && Readies(heard) <= casts
    requires CanReach(net, s, View(ReadNodes(net, pl), casts, {}))
    ensures CanReach(net, s, View(LastNodes(net, pl, heard), casts, {}))
  {
    forall k | k in net.H() {
      LastGoes(net, s, pl, heard, casts, k);
    }
    Together(net, s, ReadNodes(net, pl), LastNodes(net, pl, heard), casts, map k | k in net.H() :: {}, {}, casts);
  }

  // ------------------------------------------------------------------ the whole run

  lemma Played(net: Net, dealing: Option<seq<seq<int>>>, pl: Plan, heard: set<int>)
    requires Fits(net, dealing, pl) && heard <= net.cfg.ids && |heard| == net.cfg.n - net.cfg.t
    ensures exists casts :: CanReach(net, Start(net, dealing, pl.dealer), View(LastNodes(net, pl, heard), casts, {}))
  {
    var s, posted := Start(net, dealing, pl.dealer), Posted(net, pl);
    PostedApart(net, dealing, pl);
    PostPhase(net, s, posted);
    DealPhase(net, s, pl.dealer, pl.polys, posted);
    PostedHas(net, pl);
    ConfirmPhase(net, s, pl.dealer, pl.polys, posted);
    var casts1 := posted + Equals(net.cfg.ids);
    EndPhase(net, s, pl, casts1);
    var casts2 := casts1 + Reveals(pl.polys);
    ReadPhase(net, s, pl, casts2);
    var casts3 := casts2 + Readies(net.cfg.ids);
    assert Readies(heard) <= Readies(net.cfg.ids);
    LastPhase(net, s, pl, heard, casts3);
  }

  lemma PostedHas(net: Net, pl: Plan)
    requires pl.polys.Keys == net.cfg.ids && net.cfg.byz <= net.cfg.ids
    ensures MSet(pl.members) in Posted(net, pl)
    ensures forall i, j :: i in net.cfg.byz && j in net.cfg.ids ==> Equal(i, j) in Posted(net, pl)
    ensures forall i :: i in net.cfg.byz && i in pl.polys ==> Reveal(i, pl.polys[i]) in Posted(net, pl)
    ensures forall i :: i in net.cfg.byz ==> Ready(i) in Posted(net, pl)
  {
  }

  lemma LastOutput(net: Net, pl: Plan, heard: set<int>, k: int)
    requires net.p > 0 && pl.polys.Keys == net.cfg.ids && Reads(net, pl.polys, pl.read) && k in net.H()
    requires |heard| == net.cfg.n - net.cfg.t
    ensures Reconstructed(ValueOf(net.p, pl.polys, pl.read[k])) in LastNodes(net, pl, heard)[k].results
  {
  }

  lemma StartIsInitial(net: Net, key: string, dealing: Option<seq<seq<int>>>, dealer: int)
    requires dealing.Some? ==> |dealing.value| == net.cfg.t + 1 && Symmetric(dealing.value)
    ensures Init(net, Only(net, key, Start(net, dealing, dealer)))
  {
  }

  lemma ReachedByRun(net: Net, key: string, s: Sys, s': Sys)
    requires net.p > 0 && s.nodes.Keys == net.H() && Init(net, Only(net, key, s)) && Reaches(net, s, s')
    ensures Reachable(net, Only(net, key, s'))
  {
    var es :| Leads(net, s, es, s');
    var steps := Lifted(net, key, s, es, s');
  }

  /** An honest node `k` has output `v` in a run. */
  ghost predicate Outputs(net: Net, w: World, key: string, k: int, v: int)
    requires net.p > 0
  {
    && net.Valid() && Reachable(net, w) && key in w.insts && k in w.insts[key].nodes
    && Reconstructed(v) in w.insts[key].nodes[k].results
  }

  /** Every plan is realised by a run. */
  lemma Realised(net: Net, key: string, dealing: Option<seq<seq<int>>>, pl: Plan) returns (w: World)
    requires Fits(net, dealing, pl)
    ensures Reachable(net, w) && key in w.insts && w.insts[key].dealing == dealing
    ensures forall k :: k in net.H() ==> Outputs(net, w, key, k, ValueOf(net.p, pl.polys, pl.read[k]))
  {
    var heard := TakeBetween({}, net.cfg.ids, net.cfg.n - net.cfg.t);
    Played(net, dealing, pl, heard);
    var s := Start(net, dealing, pl.dealer);
    var casts :| CanReach(net, s, View(LastNodes(net, pl, heard), casts, {}));
    var s' :| Reaches(net, s, s') && Shows(s', View(LastNodes(net, pl, heard), casts, {}), dealing);
    StartIsInitial(net, key, dealing, pl.dealer);
    ReachedByRun(net, key, s, s');
    w := Only(net, key, s');
    forall k | k in net.H() {
      LastOutput(net, pl, heard, k);
    }
  }
}
