/** Verifiable secret sharing: the reaction of one node to each event, as functions of the instance's state. */
module IVSSNode {
  import opened Quorums
  import opened Lagrange
  import opened Sharing
  import opened IVSS

  /** `order` lists the members of `s`, each once: the order in which a map happens to be traversed. */
  ghost predicate Lists(order: seq<int>, s: set<int>) {
    Unique(order) && (forall a :: 0 <= a < |order| ==> order[a] in s) && (forall x :: x in s ==> x in order)
  }

  /** The points `f(1), ..., f(k)`, one for each node. */
  function PointsTo(p: int, poly: seq<int>, k: nat): seq<Out>
    requires p > 0
  {
    if k == 0 then [] else PointsTo(p, poly, k - 1) + [Point(k, Eval(poly, k) % p)]
  }

  lemma {:induction false} PointsAllSent(p: int, poly: seq<int>, n: nat, j: int)
    requires p > 0 && 1 <= j <= n
    ensures Point(j, Eval(poly, j) % p) in PointsTo(p, poly, n)
  {
    if j < n {
      PointsAllSent(p, poly, n - 1, j);
    }
  }

  /** The confirmation cast when a point matches this node's polynomial. */
  function Confirm(p: int, id: int, poly: seq<int>, from: int, value: int): seq<Out>
    requires p > 0
  {
    if Eval(poly, from) % p == value then [Cast(Equal(id, from))] else []
  }

  function ConfirmAll(p: int, id: int, poly: seq<int>, early: map<int, int>, order: seq<int>, k: nat): seq<Out>
    requires p > 0 && k <= |order| && forall a :: 0 <= a < k ==> order[a] in early
  {
    if k == 0 then []
    else ConfirmAll(p, id, poly, early, order, k - 1) + Confirm(p, id, poly, order[k - 1], early[order[k - 1]])
  }

  function OnShare(n: nat, p: int, id: int, inst: Instance, from: int, poly: seq<int>, order: seq<int>): Effect
    requires p > 0 && forall a :: 0 <= a < |order| ==> order[a] in inst.early
  {
    Effect(inst.(received := Some(poly), dealer := from, early := map[]),
           PointsTo(p, poly, n) + ConfirmAll(p, id, poly, inst.early, order, |order|), [], {})
  }

  function OnPoint(p: int, id: int, inst: Instance, from: int, value: int): Effect
    requires p > 0
  {
    if inst.received.None? then Effect(inst.(early := inst.early[from := value]), [], [], {})
    else Effect(inst, Confirm(p, id, inst.received.value, from, value), [], {})
  }

  /** What the dealer casts once its greedy set is large enough. */
  function Offer(n: nat, t: nat, id: int, fp: set<(int, int)>, inst: Instance): seq<Out> {
    var m := Greedy(inst.equals, fp, n);
    if id == inst.dealer && !inst.completed && |m| >= n - t then [Cast(MSet(m))] else []
  }

  function Complete(inst: Instance, m: seq<int>): Instance {
    inst.(mSet := Some(m), completed := true, pending := None)
  }

  function OnEqual(n: nat, t: nat, id: int, fp: set<(int, int)>, inst: Instance, i: int, j: int): Effect {
    var next := inst.(equals := inst.equals + {(i, j)});
    var sent := Offer(n, t, id, fp, next);
    if next.pending.Some? && !next.completed && Verified(n, t, next.equals, fp, next.pending.value)
    then Effect(Complete(next, next.pending.value), sent, [SharingComplete(next.pending.value, next.received)], {})
    else Effect(next, sent, [], {})
  }

  /** An empty list of members arrives as no list at all. */
  function AsPending(m: seq<int>): Option<seq<int>> {
    if m == [] then None else Some(m)
  }

  function OnMSet(n: nat, t: nat, fp: set<(int, int)>, inst: Instance, m: seq<int>): Effect {
    if Verified(n, t, inst.equals, fp, m)
    then Effect(Complete(inst, m), [], [SharingComplete(m, inst.received)], {})
    else Effect(inst.(pending := AsPending(m)), [], [], {})
  }

  function Target(n: nat, t: nat): int {
    if n - 2 * t <= 0 then 1 else n - 2 * t
  }

  ghost function Elems(s: seq<int>): set<int> {
    set x | x in s
  }

  lemma {:induction false} UniqueCount(xs: seq<int>)
    requires Unique(xs)
    ensures |Elems(xs)| == |xs|
  {
    if xs != [] {
      var k := |xs| - 1;
      UniqueCount(xs[..k]);
      assert Elems(xs) == Elems(xs[..k]) + {xs[k]} by {
        assert xs == xs[..k] + [xs[k]];
      }
    }
  }

  /** The revealed polynomials of members of the agreed set. */
  ghost function Candidates(inst: Instance): set<int> {
    if inst.mSet.None? then {} else inst.polys.Keys * Elems(inst.mSet.value)
  }

  /** Interpolation of the values at 0 of the kept polynomials. */
  ghost function SecretOf(p: int, polys: map<int, seq<int>>, valid: seq<int>): int
    requires p > 0
  {
    Interp(p, Elems(valid), Zeros(Elems(valid), polys)) % p
  }

  ghost function Interpolate(n: nat, t: nat, p: int, id: int, inst: Instance, order: seq<int>): Effect
    requires p > 0
  {
    if inst.mSet.None? || |order| < n - 2 * t then Effect(inst, [], [], {})
    else
      var s := Sift(p, inst.polys, order, |order|);
      if |s.valid| >= Target(n, t)
      then Effect(inst.(secret := Some(SecretOf(p, inst.polys, s.valid))), [Cast(Ready(id))], [], s.blamed)
      else Effect(inst, [], [], s.blamed)
  }

  ghost function OnReveal(n: nat, t: nat, p: int, id: int, inst: Instance, sender: int, poly: seq<int>,
                          order: seq<int>): Effect
    requires p > 0
  {
    Interpolate(n, t, p, id, inst.(polys := inst.polys[sender := poly]), order)
  }

  function OnReady(n: nat, t: nat, inst: Instance, sender: int): Effect {
    var next := inst.(ready := inst.ready + {sender});
    if |next.ready| >= n - t && !next.reconstructed && next.secret.Some?
    then Effect(next.(reconstructed := true), [], [Reconstructed(next.secret.value)], {})
    else Effect(next, [], [], {})
  }

  /** Refused before the sharing phase is over; members of the agreed set reveal what they were dealt. */
  function StartReconstruction(id: int, inst: Instance): Option<seq<Out>> {
    if !inst.completed || inst.mSet.None? then None
    else if id in inst.mSet.value then
      Some([Cast(Reveal(id, if inst.received.Some? then inst.received.value else []))])
    else Some([])
  }

  /** The body of a point-to-point message. */
  datatype Direct = Dealt(poly: seq<int>) | Sample(value: int)

  function DirectEffect(n: nat, p: int, id: int, inst: Instance, from: int, body: Direct, order: seq<int>): Effect
    requires p > 0 && (body.Dealt? ==> forall a :: 0 <= a < |order| ==> order[a] in inst.early)
  {
    match body
    case Dealt(poly) => OnShare(n, p, id, inst, from, poly, order)
    case Sample(value) => OnPoint(p, id, inst, from, value)
  }

  ghost function CastEffect(n: nat, t: nat, p: int, id: int, fp: set<(int, int)>, inst: Instance, payload: Payload,
                            order: seq<int>): Effect
    requires p > 0
  {
    match payload
    case Equal(i, j) => OnEqual(n, t, id, fp, inst, i, j)
    case MSet(m) => OnMSet(n, t, fp, inst, m)
    case Reveal(sender, poly) => OnReveal(n, t, p, id, inst, sender, poly, order)
    case Ready(sender) => OnReady(n, t, inst, sender)
  }
}
